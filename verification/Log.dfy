/**
 The service log: one live file and one older one, repeats collapsed into counts. Any disk operation
 may fail, and a write may stop part-way; what is kept is still the end of everything written.
 */
module ServiceLog {
  import opened Basics

  const DEFAULT_LOG_BYTES: nat := 0x10_0000
  // Durations are in nanoseconds, and a difference of times saturates as Go's does.
  const DEFAULT_REPEAT_WINDOW: int := 30 * 60 * 1_000_000_000
  const MAX_DURATION: int := 0x7FFF_FFFF_FFFF_FFFF

  function Since(now: int, then_: int): int {
    Basics.Max(-MAX_DURATION - 1, Basics.Min(MAX_DURATION, now - then_))
  }

  // ── what a line says ───────────────────────────────────────────────────────

  function Digit(d: nat): char
    requires d < 10
  {
    "0123456789"[d]
  }

  function Decimal(n: nat): string {
    if n < 10 then [Digit(n)] else Decimal(n / 10) + [Digit(n % 10)]
  }

  /** A line of the log: a message and how many repeats of the line before it went unwritten, or, at
      the end, only that count. `text` is what of it reached the file. */
  datatype Entry =
    | Line(at: int, message: string, more: nat, text: string)
    | Closing(at: int, more: nat, text: string)

  function Body(e: Entry): string {
    match e
    case Line(_, message, more, _) =>
      message + if more > 0 then " (and " + Decimal(more) + " more like it)" else ""
    case Closing(_, more, _) =>
      "(the line above happened " + Decimal(more) + " more times)"
  }

  function Rendered(stamp: int -> string, e: Entry): string { stamp(e.at) + " " + Body(e) + "\n" }

  function Texts(ledger: seq<Entry>): string {
    if ledger == [] then "" else Texts(ledger[..|ledger| - 1]) + ledger[|ledger| - 1].text
  }

  function Repeated(message: string, n: nat): (r: seq<string>)
    ensures |r| == n
  {
    if n == 0 then [] else Repeated(message, n - 1) + [message]
  }

  function WithText(e: Entry, text: string): Entry {
    match e
    case Line(at, message, more, _) => Line(at, message, more, text)
    case Closing(at, more, _) => Closing(at, more, text)
  }

  /** The call an entry was written for, if any. */
  function OwnCall(e: Entry): seq<string> {
    match e
    case Line(_, message, _, _) => [message]
    case Closing(_, _, _) => []
  }

  /** The message a repeat would be a repeat of. */
  function LastMessage(ledger: seq<Entry>): string {
    if ledger == [] then "" else
    var own := OwnCall(ledger[|ledger| - 1]);
    if own != [] then own[0] else LastMessage(ledger[..|ledger| - 1])
  }

  /** The calls a ledger accounts for: each count stands for that many repeats of the message before it. */
  function Accounted(ledger: seq<Entry>): seq<string> {
    if ledger == [] then [] else
    var before, e := ledger[..|ledger| - 1], ledger[|ledger| - 1];
    Accounted(before) + Repeated(LastMessage(before), e.more) + OwnCall(e)
  }

  function Mores(ledger: seq<Entry>): nat {
    if ledger == [] then 0 else Mores(ledger[..|ledger| - 1]) + ledger[|ledger| - 1].more
  }

  function LineCount(ledger: seq<Entry>): nat {
    if ledger == [] then 0 else LineCount(ledger[..|ledger| - 1]) + |OwnCall(ledger[|ledger| - 1])|
  }

  /** Conservation: the calls accounted for are the lines plus everything the counts say. */
  lemma {:induction false} LinesPlusCounts(ledger: seq<Entry>)
    ensures |Accounted(ledger)| == LineCount(ledger) + Mores(ledger)
  {
    if ledger != [] {
      LinesPlusCounts(ledger[..|ledger| - 1]);
    }
  }

  lemma LedgerAppend(ledger: seq<Entry>, e: Entry)
    ensures Texts(ledger + [e]) == Texts(ledger) + e.text
    ensures LastMessage(ledger + [e]) == if OwnCall(e) != [] then OwnCall(e)[0] else LastMessage(ledger)
    ensures Accounted(ledger + [e]) ==
      Accounted(ledger) + Repeated(LastMessage(ledger), e.more) + OwnCall(e)
  {
    assert (ledger + [e])[..|ledger|] == ledger;
  }

  // ── what a run of calls leaves, whatever the disk does ─────────────────────

  datatype Call = Call(message: string, at: int)

  /** What the log remembers, and the lines it has made so far. */
  datatype Memory = Memory(last: string, lastAt: int, suppressed: nat, lines: seq<Entry>)

  const NOTHING_SAID := Memory("", 0, 0, [])

  /** What keeping a repeat to itself takes: the same message, soon enough after it was written. */
  predicate Repeats(window: int, last: string, lastAt: int, c: Call) {
    && window >= 0 && c.message == last
    && Since(c.at, lastAt) < if window == 0 then DEFAULT_REPEAT_WINDOW else window
  }

  function Said(window: int, m: Memory, c: Call): Memory {
    if Repeats(window, m.last, m.lastAt, c) then m.(suppressed := m.suppressed + 1)
    else Memory(c.message, c.at, 0, m.lines + [Line(c.at, c.message, m.suppressed, "")])
  }

  function Heard(window: int, calls: seq<Call>): Memory {
    if calls == [] then NOTHING_SAID else Said(window, Heard(window, calls[..|calls| - 1]), calls[|calls| - 1])
  }

  /** The latest line's message and time; nothing at no time before there is one. */
  function LatestMessage(lines: seq<Entry>): string {
    if lines != [] && lines[|lines| - 1].Line? then lines[|lines| - 1].message else ""
  }

  function LatestTime(lines: seq<Entry>): int {
    if lines != [] && lines[|lines| - 1].Line? then lines[|lines| - 1].at else 0
  }

  /** A difference of times as 64 bits hold it. */
  predicate Elapsed(from: int, to: int, d: int) {
    && -0x8000_0000_0000_0000 <= d <= 0x7FFF_FFFF_FFFF_FFFF
    && (d < to - from ==> d == 0x7FFF_FFFF_FFFF_FFFF)
    && (d > to - from ==> d == -0x8000_0000_0000_0000)
  }

  lemma ElapsedIsSince(from: int, to: int)
    ensures forall d :: Elapsed(from, to, d) <==> d == Since(to, from)
  {
  }

  lemma {:induction false} RemembersLatest(window: int, calls: seq<Call>)
    ensures var m := Heard(window, calls);
      m.last == LatestMessage(m.lines) && m.lastAt == LatestTime(m.lines)
  {
    if calls != [] {
      RemembersLatest(window, calls[..|calls| - 1]);
    }
  }

  /** A call adds no line exactly when it says again what the latest line says, less than the window after
      it; a window of zero is thirty minutes, and a negative one never keeps anything back. A line it does
      add is its own. */
  lemma KeptBackExactlyWhen(window: int, calls: seq<Call>, c: Call, d: int)
    requires Elapsed(LatestTime(Heard(window, calls).lines), c.at, d)
    ensures var before, after := Heard(window, calls).lines, Heard(window, calls + [c]).lines;
      && (after == before <==>
            && window >= 0 && c.message == LatestMessage(before)
            && d < if window == 0 then 30 * 60 * 1_000_000_000 else window)
      && (after != before ==>
            |after| == |before| + 1 && before <= after
            && LatestMessage(after) == c.message && LatestTime(after) == c.at)
  {
    RemembersLatest(window, calls);
    HeardOneMore(window, calls, c);
    var m := Heard(window, calls);
    assert |m.lines + [Line(c.at, c.message, m.suppressed, "")]| == |m.lines| + 1;
  }

  /** A line that carries a count carries one of its own message: the one before it is the same. */
  predicate CountIsOwn(lines: seq<Entry>, i: nat)
    requires i < |lines|
  {
    lines[i].Line? && lines[i].more > 0 ==> lines[i].message == LastMessage(lines[..i])
  }

  ghost predicate CountsAreOwn(lines: seq<Entry>) { forall i :: 0 <= i < |lines| ==> CountIsOwn(lines, i) }

  /** Call i ends a row of repeats, and is of the message they repeated. */
  predicate EndsOwnRow(window: int, calls: seq<Call>, i: nat)
    requires i < |calls|
  {
    var m := Heard(window, calls[..i]);
    !Repeats(window, m.last, m.lastAt, calls[i]) && m.suppressed > 0 ==> calls[i].message == m.last
  }

  ghost predicate EveryRowEndsItself(window: int, calls: seq<Call>) {
    forall i :: 0 <= i < |calls| ==> EndsOwnRow(window, calls, i)
  }

  lemma CountsAppend(lines: seq<Entry>, e: Entry)
    ensures CountsAreOwn(lines + [e]) <==>
      CountsAreOwn(lines) && (e.Line? && e.more > 0 ==> e.message == LastMessage(lines))
  {
    var more := lines + [e];
    assert more[..|lines|] == lines;
    forall i | 0 <= i < |lines| ensures CountIsOwn(more, i) <==> CountIsOwn(lines, i) {
      assert more[..i] == lines[..i];
    }
    assert CountIsOwn(more, |lines|) <==> (e.Line? && e.more > 0 ==> e.message == LastMessage(lines));
  }

  lemma {:induction false} RemembersLastLine(window: int, calls: seq<Call>)
    ensures Heard(window, calls).last == LastMessage(Heard(window, calls).lines)
  {
    if calls != [] {
      RemembersLastLine(window, calls[..|calls| - 1]);
      var m := Heard(window, calls[..|calls| - 1]);
      var c := calls[|calls| - 1];
      LedgerAppend(m.lines, Line(c.at, c.message, m.suppressed, ""));
    }
  }

  /** Every count stands on a line of the message it counts exactly when every row of repeats is ended by
      its own message, coming back once the window is over. */
  lemma {:induction false} CountsAreOwnExactlyWhen(window: int, calls: seq<Call>)
    ensures CountsAreOwn(Heard(window, calls).lines) <==> EveryRowEndsItself(window, calls)
  {
    if calls != [] {
      var rest, c := calls[..|calls| - 1], calls[|calls| - 1];
      var m := Heard(window, rest);
      CountsAreOwnExactlyWhen(window, rest);
      RemembersLastLine(window, rest);
      CountsAppend(m.lines, Line(c.at, c.message, m.suppressed, ""));
      forall i | 0 <= i < |rest| ensures EndsOwnRow(window, calls, i) <==> EndsOwnRow(window, rest, i) {
        assert calls[..i] == rest[..i];
      }
      assert EveryRowEndsItself(window, calls) <==> EveryRowEndsItself(window, rest) && EndsOwnRow(window, calls, |rest|);
    }
  }

  lemma HeardOneMore(window: int, calls: seq<Call>, c: Call)
    ensures Heard(window, calls + [c]) == Said(window, Heard(window, calls), c)
  {
    assert (calls + [c])[..|calls|] == calls;
  }

  /** Two calls of one message inside the window, and then one of another. */
  function RowEndedByAnother(start: int): seq<Call> {
    [Call("a", start), Call("a", start + 1), Call("b", start + 2)]
  }

  lemma AnotherTakesTheCount(start: int)
    ensures Heard(0, RowEndedByAnother(start)).lines == [Line(start, "a", 0, ""), Line(start + 2, "b", 1, "")]
  {
    hide Heard;
    var a, b, c := Call("a", start), Call("a", start + 1), Call("b", start + 2);
    var first := Line(start, "a", 0, "");
    NothingHeard(0);
    HeardOneMore(0, [], a);
    HeardOneMore(0, [a], b);
    HeardOneMore(0, [a, b], c);
    assert [] + [a] == [a] && [a] + [b] == [a, b] && [a, b] + [c] == RowEndedByAnother(start);
    assert Heard(0, [a]) == Memory("a", start, 0, [first]);
    assert Heard(0, [a, b]) == Memory("a", start, 1, [first]);
  }

  /** Another message ending a row takes its count: what is written is "b (and 1 more like it)", of an "a". */
  lemma CountOnAnothersLine(start: int)
    ensures var lines := Heard(0, RowEndedByAnother(start)).lines;
      |lines| == 2 && Body(lines[1]) == "b (and 1 more like it)" && LastMessage(lines[..1]) == "a" && !CountsAreOwn(lines)
  {
    hide Heard, Body, CountsAreOwn;
    AnotherTakesTheCount(start);
    var first, last := Line(start, "a", 0, ""), Line(start + 2, "b", 1, "");
    assert [first] + [last] == [first, last] && [first, last][..1] == [first];
    CountsAppend([first], last);
    OneMore(last);
  }

  lemma OneMore(e: Entry)
    requires e.Line? && e.message == "b" && e.more == 1
    ensures Body(e) == "b (and 1 more like it)"
  {
    assert Decimal(1) == "1";
  }

  lemma NothingHeard(window: int)
    ensures Heard(window, []) == NOTHING_SAID
  {
  }

  /** The lines of a ledger, whatever of them reached the disk. */
  function Untold(ledger: seq<Entry>): seq<Entry> {
    seq(|ledger|, i requires 0 <= i < |ledger| => WithText(ledger[i], ""))
  }

  lemma UntoldAppend(ledger: seq<Entry>, e: Entry)
    ensures Untold(ledger + [e]) == Untold(ledger) + [WithText(e, "")]
  {
  }

  // ── the disk ───────────────────────────────────────────────────────────────

  /** What becomes of one operation. A failing write may have put down some of its bytes. */
  datatype Fault = Fine | Fails(partial: nat)

  ghost predicate IsSuffix(s: string, whole: string) { |s| <= |whole| && whole[|whole| - |s|..] == s }

  /** The end of everything ever written is kept: at least `max` bytes of it, or all of it. */
  ghost predicate Retained(kept: string, written: string, max: nat) {
    IsSuffix(kept, written) && |kept| >= Basics.Min(|written|, max)
  }

  lemma RetainedAll(written: string, max: nat)
    ensures Retained(written, written, max)
  {
  }

  /** More text at the end of both keeps the kept text the end of the written. */
  lemma RetainedGrows(kept: string, written: string, text: string, max: nat)
    requires Retained(kept, written, max)
    ensures Retained(kept + text, written + text, max)
  {
    var at := |written| - |kept|;
    assert written == written[..at] + kept;
    assert written + text == written[..at] + (kept + text);
  }

  /** Dropping the older part is safe once the rest alone is at the cap. */
  lemma RetainedWithoutOld(older: string, live: string, written: string, max: nat)
    requires Retained(older + live, written, max) && |live| >= max
    ensures Retained(live, written, max)
  {
    var kept := older + live;
    assert kept[|kept| - |live|..] == live;
  }

  class Disk {
    const faults: nat -> Fault
    var operations: nat
    var live: Option<string>
    var old_: Option<string>
    ghost var written: string

    constructor (faults: nat -> Fault, live: Option<string>, older: Option<string>)
      ensures this.faults == faults && this.live == live && this.old_ == older
      ensures written == Kept()
    {
      this.faults, this.live, this.old_ := faults, live, older;
      operations := 0;
      written := (if older.Some? then older.value else "") + (if live.Some? then live.value else "");
    }

    ghost predicate Healthy() { forall k :: faults(k) == Fine }

    ghost function Older(): string
      reads this
    {
      if old_.Some? then old_.value else ""
    }

    ghost function Live(): string
      reads this
    {
      if live.Some? then live.value else ""
    }

    /** What a reader finds: the older file, then the live one. */
    ghost function Kept(): string
      reads this
    {
      Older() + Live()
    }

    method Next() returns (fault: Fault)
      modifies this`operations
      ensures fault == faults(old(operations)) && operations == old(operations) + 1
    {
      fault := faults(operations);
      operations := operations + 1;
    }

    /** The live file's size; nothing when it is missing or cannot be told. */
    method StatLive() returns (size: Option<nat>)
      modifies this`operations
      ensures size.Some? ==> live.Some? && size.value == |live.value|
      ensures Healthy() && live.Some? ==> size.Some?
    {
      var fault := Next();
      size := if fault.Fine? && live.Some? then Some(|live.value|) else None;
    }

    method RemoveOld() returns (ok: bool)
      modifies this`operations, this`old_
      ensures ok ==> old_ == None
      ensures !ok ==> old_ == old(old_)
      ensures Healthy() ==> ok
    {
      var fault := Next();
      ok := old_.None? || fault.Fine?;
      if ok {
        old_ := None;
      }
    }

    method RenameLive() returns (ok: bool)
      modifies this`operations, this`old_, this`live
      ensures ok && old(live).Some? ==> old_ == old(live) && live == None
      ensures !ok || old(live).None? ==> old_ == old(old_) && live == old(live)
      ensures Healthy() ==> ok
    {
      var fault := Next();
      ok := live.None? || fault.Fine?;
      if ok && live.Some? {
        old_, live := live, None;
      }
    }

    method OpenLive() returns (ok: bool)
      modifies this`operations, this`live
      ensures live == if ok && old(live).None? then Some("") else old(live)
      ensures Healthy() ==> ok
    {
      var fault := Next();
      ok := fault.Fine?;
      if ok && live.None? {
        live := Some("");
      }
    }

    method Append(text: string) returns (n: nat, ok: bool)
      requires live.Some?
      modifies this`operations, this`live, this`written
      ensures n <= |text| && (ok ==> n == |text|)
      ensures live == Some(old(live).value + text[..n]) && written == old(written) + text[..n]
      ensures Healthy() ==> ok
    {
      var fault := Next();
      ok := fault.Fine?;
      n := if ok then |text| else Basics.Min(fault.partial, |text|);
      live := Some(live.value + text[..n]);
      written := written + text[..n];
    }
  }

  // ── the log ────────────────────────────────────────────────────────────────

  class Log {
    const disk: Disk
    const max: nat
    const stamp: int -> string
    const repeatWindow: int
    var isOpen: bool
    var n: nat
    var last: string
    var lastAt: int
    var suppressed: nat
    // Every message ever passed to Printf, every line made of them, and what was on disk before.
    ghost var calls: seq<string>
    ghost var ledger: seq<Entry>
    ghost const start: string

    ghost predicate Valid()
      reads this, disk
    {
      && max > 0
      && (isOpen ==> disk.live.Some? && n == |disk.live.value|)
      && Retained(disk.Kept(), disk.written, max)
      && disk.written == start + Texts(ledger)
      && (forall i :: 0 <= i < |ledger| ==> ledger[i].text <= Rendered(stamp, ledger[i]))
      && last == LastMessage(ledger)
      && calls == Accounted(ledger) + Repeated(last, suppressed)
    }

    /** OpenLog: appends to what is there, rotating first if it is already at the cap. */
    constructor (disk: Disk, max: int, stamp: int -> string, repeatWindow: int)
      modifies disk
      requires disk.written == disk.Kept()
      ensures this.disk == disk && this.stamp == stamp && this.repeatWindow == repeatWindow
      ensures this.max == if max <= 0 then DEFAULT_LOG_BYTES else max
      ensures Valid() && calls == [] && Remembers() == NOTHING_SAID
      ensures start == old(disk.written) == disk.written
      ensures disk.Healthy() ==> isOpen && n < this.max
    {
      this.disk, this.stamp, this.repeatWindow := disk, stamp, repeatWindow;
      this.max := if max <= 0 then DEFAULT_LOG_BYTES else max;
      isOpen, n, last, lastAt, suppressed := false, 0, "", 0, 0;
      calls, ledger, start := [], [], disk.written;
      new;
      RetainedAll(disk.written, this.max);
      Open();
    }

    /** Nothing is lost but the times: every call is a line, part of a count, or still kept back. */
    lemma Conservation()
      requires Valid()
      ensures |calls| == LineCount(ledger) + Mores(ledger) + suppressed
    {
      LinesPlusCounts(ledger);
    }

    predicate IsRepeat(message: string, now: int)
      reads this
    {
      Repeats(repeatWindow, last, lastAt, Call(message, now))
    }

    ghost function Remembers(): Memory
      reads this
    {
      Memory(last, lastAt, suppressed, Untold(ledger))
    }

    function Window(): int { if repeatWindow == 0 then DEFAULT_REPEAT_WINDOW else repeatWindow }

    method Open()
      requires max > 0 && Retained(disk.Kept(), disk.written, max) && !isOpen
      modifies this`isOpen, this`n, disk`operations, disk`live, disk`old_
      ensures Retained(disk.Kept(), disk.written, max)
      ensures isOpen ==> disk.live.Some? && n == |disk.live.value|
      ensures disk.Healthy() ==> isOpen && n < max
    {
      hide Retained;
      var size := disk.StatLive();
      if size.Some? && size.value >= max {
        var rotated := Rotate();
        if !rotated {
          return;
        }
      }
      assert disk.Older() + "" == disk.Older();
      var ok := disk.OpenLive();
      if !ok {
        return;
      }
      size := disk.StatLive();
      if size.None? {
        return;
      }
      isOpen, n := true, size.value;
    }

    /** Keeps exactly one previous file. Called only when the live file alone is at the cap. */
    method Rotate() returns (ok: bool)
      requires Retained(disk.Kept(), disk.written, max) && disk.live.Some? && |disk.live.value| >= max
      modifies this`isOpen, disk`operations, disk`live, disk`old_
      ensures Retained(disk.Kept(), disk.written, max) && !isOpen
      ensures ok ==> disk.old_ == old(disk.live) && disk.live == None
      ensures disk.Healthy() ==> ok
    {
      hide Retained;
      isOpen := false;
      RetainedWithoutOld(disk.Older(), disk.Live(), disk.written, max);
      assert "" + disk.Live() == disk.Live() && disk.Live() + "" == disk.Live();
      ok := disk.RemoveOld();
      if !ok {
        return;
      }
      ok := disk.RenameLive();
    }

    /** One message: kept back as a repeat, or written with the count of what was kept back. */
    method Printf(message: string, now: int)
      requires Valid()
      modifies this`isOpen, this`n, this`last, this`lastAt, this`suppressed, this`calls, this`ledger, disk
      ensures Valid() && calls == old(calls) + [message]
      ensures old(IsRepeat(message, now)) ==>
        && ledger == old(ledger) && suppressed == old(suppressed) + 1
        && disk.Kept() == old(disk.Kept()) && isOpen == old(isOpen) && n == old(n)
      ensures !old(IsRepeat(message, now)) ==>
        && suppressed == 0
        && exists text :: ledger == old(ledger) + [Line(now, message, old(suppressed), text)]
      ensures Remembers() == Said(repeatWindow, old(Remembers()), Call(message, now))
      ensures forall d :: Elapsed(old(lastAt), now, d) ==>
        (ledger == old(ledger) <==>
          repeatWindow >= 0 && message == old(last) && d < if repeatWindow == 0 then 30 * 60 * 1_000_000_000 else repeatWindow)
      ensures last == message && (ledger != old(ledger) ==> lastAt == now) && (ledger == old(ledger) ==> lastAt == old(lastAt))
      ensures !old(IsRepeat(message, now)) && old(suppressed) > 0 ==>
        |ledger| == |old(ledger)| + 1 && (CountIsOwn(ledger, |old(ledger)|) <==> message == old(last))
      ensures disk.Healthy() && old(isOpen) && !old(IsRepeat(message, now)) ==> WholeLine()
      ensures disk.Healthy() && old(isOpen) && old(n) < max ==> isOpen && n < max
    {
      hide Retained, Rendered, Texts, Accounted, LastMessage, Repeated, Since, Disk.Kept, Untold, Elapsed;
      ElapsedIsSince(lastAt, now);
      if repeatWindow >= 0 && message == last && Since(now, lastAt) < Window() {
        RepeatedOnce(Accounted(ledger), last, suppressed);
        calls := calls + [message];
        suppressed := suppressed + 1;
        return;
      }
      ghost var before := ledger;
      Say(message, now);
      assert ledger[..|before|] == before;
    }

    /** The rest of Printf: a message that is no repeat, with the count of those kept back before it. */
    method Say(message: string, now: int)
      requires Valid()
      modifies this`isOpen, this`n, this`last, this`lastAt, this`suppressed, this`calls, this`ledger, disk
      ensures Valid() && calls == old(calls) + [message]
      ensures last == message && lastAt == now && suppressed == 0
      ensures exists text :: ledger == old(ledger) + [Line(now, message, old(suppressed), text)]
      ensures Untold(ledger) == Untold(old(ledger)) + [Line(now, message, old(suppressed), "")]
      ensures disk.Healthy() && old(isOpen) ==> WholeLine() && isOpen && n < max
    {
      hide Retained, Rendered, Texts, Accounted, LastMessage, Repeated, Disk.Kept, Untold;
      calls := calls + [message];
      var more := suppressed;
      suppressed := 0;
      ghost var before, e := ledger, Line(now, message, more, "");
      assert calls == Accounted(before) + Repeated(LastMessage(before), more) + [message];
      last, lastAt := message, now;
      ghost var text := Write(Line(now, message, more, ""));
      LedgerAppend(before, WithText(e, text));
      UntoldAppend(before, WithText(e, text));
      SameRendering(e, text);
      assert OwnCall(WithText(e, text)) == [message];
      NoneRepeated(message);
      assert calls + [] == calls;
    }

    lemma NoneRepeated(message: string)
      ensures Repeated(message, 0) == []
    {
    }

    /** How a line reads does not depend on how much of it was written. */
    lemma SameRendering(e: Entry, text: string)
      ensures Rendered(stamp, WithText(e, text)) == Rendered(stamp, e)
    {
    }

    ghost predicate WholeLine()
      reads this
    {
      ledger != [] && ledger[|ledger| - 1].text == Rendered(stamp, ledger[|ledger| - 1])
    }

    lemma RepeatedOnce(before: seq<string>, message: string, count: nat)
      ensures before + Repeated(message, count + 1) == before + Repeated(message, count) + [message]
    {
    }

    /** writeLocked: the line goes to the file if there is one, which is rotated when it is full. */
    method Write(e: Entry) returns (ghost text: string)
      requires e.text == "" && max > 0
      requires isOpen ==> disk.live.Some? && n == |disk.live.value|
      requires Retained(disk.Kept(), disk.written, max) && disk.written == start + Texts(ledger)
      modifies this`isOpen, this`n, this`ledger, disk
      ensures isOpen ==> disk.live.Some? && n == |disk.live.value|
      ensures Retained(disk.Kept(), disk.written, max) && disk.written == start + Texts(ledger)
      ensures ledger == old(ledger) + [WithText(e, text)] && text <= Rendered(stamp, e)
      ensures disk.Healthy() && old(isOpen) ==> text == Rendered(stamp, e) && isOpen && n < max
    {
      hide Retained, Rendered, Texts;
      if !isOpen {
        text := "";
        LedgerAppend(ledger, WithText(e, text));
        assert disk.written + "" == disk.written;
        ledger := ledger + [WithText(e, text)];
        return;
      }
      var ok;
      ok, text := PutLine(e);
      if ok && n >= max {
        var rotated := Rotate();
        if rotated {
          Open();
        }
      }
    }

    method PutLine(e: Entry) returns (ok: bool, ghost text: string)
      requires isOpen && disk.live.Some? && n == |disk.live.value|
      requires Retained(disk.Kept(), disk.written, max) && disk.written == start + Texts(ledger)
      modifies this`n, this`ledger, disk`operations, disk`live, disk`written
      ensures disk.live.Some? && n == |disk.live.value|
      ensures Retained(disk.Kept(), disk.written, max) && disk.written == start + Texts(ledger)
      ensures ledger == old(ledger) + [WithText(e, text)] && text <= Rendered(stamp, e)
      ensures disk.Healthy() ==> ok && text == Rendered(stamp, e)
    {
      hide Retained, Rendered, Texts, Accounted, LastMessage, Repeated, IsSuffix, Body, Decimal;
      var line := Rendered(stamp, e);
      ghost var older, live, written := disk.Older(), disk.Live(), disk.written;
      var put;
      put, ok := disk.Append(line);
      text := line[..put];
      RetainedGrows(older + live, written, text, max);
      assert disk.Kept() == older + live + text;
      LedgerAppend(ledger, WithText(e, text));
      assert start + Texts(ledger) + text == start + (Texts(ledger) + text);
      ledger := ledger + [WithText(e, text)];
      n := n + put;
    }

    /** Writes out what is still kept back, and closes the file. */
    method Close(now: int)
      requires Valid()
      modifies this`isOpen, this`n, this`suppressed, this`ledger, disk
      ensures Valid() && !isOpen && calls == old(calls)
      ensures old(isOpen) ==> suppressed == 0
      ensures old(isOpen) && old(suppressed) > 0 ==> exists text :: ledger == old(ledger) + [Closing(now, old(suppressed), text)]
      ensures old(suppressed) == 0 ==> ledger == old(ledger)
      ensures disk.Healthy() && old(isOpen) && old(suppressed) > 0 ==> WholeLine()
      ensures !old(isOpen) ==> ledger == old(ledger) && suppressed == old(suppressed)
    {
      hide Retained, Rendered, Texts, Accounted, LastMessage;
      if suppressed > 0 && isOpen {
        var more := suppressed;
        suppressed := 0;
        ghost var before, e := ledger, Closing(now, more, "");
        ghost var text := Write(Closing(now, more, ""));
        LedgerAppend(before, WithText(e, text));
        SameRendering(e, text);
        assert OwnCall(WithText(e, text)) == [];
        assert Accounted(ledger) == Accounted(before) + Repeated(last, more);
        assert calls + [] == calls;
      }
      isOpen := false;
    }
  }
}
