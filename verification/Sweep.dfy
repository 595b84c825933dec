/**
 The bounded sweeps of a host's directories, for certificate files and for keystores. Each may meet what
 it cannot read, run into a limit or be cancelled anywhere; when one says it is complete, nothing
 eligible was missed, and the server that accepts its name holds everything there was to find.
 */
module Sweeps {
  import opened Basics
  import opened Certificates
  import opened Reference
  import opened ChainStore
  import opened Stores
  import opened FileReport
  import opened Run
  import opened Upload

  const SOURCE_FILE := "file"
  const SOURCE_JAVA_KEYSTORE := "java_keystore"

  /** A directory tree as a walk meets it. `listed` is false of a directory
      whose entries cannot be listed. */
  datatype Tree =
    | File(path: string)
    | Link(path: string)
    | Directory(path: string, listed: bool, children: seq<Tree>)
    | Unseen(path: string)

  datatype Alias = Alias(name: string, certificates: seq<Certificate>, hasPrivateKey: bool)

  /** What is at an absolute path once read and parsed: a keystore may be faulted after some aliases. */
  datatype Reading =
    | NotReadable
    | NothingHere
    | Plain(content: Content)
    | Keystore(aliases: seq<Alias>, faulted: bool)

  /** Certificates that belong together: a whole file, or one alias of a keystore. */
  datatype Part = Part(suffix: string, content: Content)

  /** The host: where paths lead, what is there, and the signatures and time as each part is examined. */
  datatype Host = Host(
    abs: string -> string,
    separators: string -> nat,
    eligible: string -> bool,
    size: string -> Option<nat>,
    read: string -> Reading,
    world: (string, nat) -> World,
    pem: seq<Certificate> -> string)

  datatype Bounds = Bounds(maxFileBytes: nat, maxDepth: nat, maxFiles: nat)

  /** How a walk goes on: with the next entry, not at all, or with an error. */
  datatype Signal = Continue | SkipAll | Stopped

  // ── what a complete sweep must have examined ───────────────────────────────

  predicate TooDeep(h: Host, b: Bounds, rootDepth: int, path: string) {
    h.separators(path) - rootDepth >= b.maxDepth
  }

  /** A file whose name and size make it worth opening. */
  predicate Worthwhile(h: Host, b: Bounds, path: string) {
    h.eligible(path) && h.size(path).Some? && 0 < h.size(path).value <= b.maxFileBytes
  }

  /** path is a worthwhile file of this tree, within the depth, reached through no link. */
  ghost predicate Holds(h: Host, b: Bounds, rootDepth: int, t: Tree, path: string)
    decreases t
  {
    match t
    case File(p) => path == p && h.eligible(p) && h.size(p).Some? && 0 < h.size(p).value <= b.maxFileBytes
    case Link(_) => false
    case Directory(p, listed, children) =>
      h.separators(p) - rootDepth < b.maxDepth && listed && AnyHolds(h, b, rootDepth, children, path)
    case Unseen(_) => false
  }

  ghost predicate AnyHolds(h: Host, b: Bounds, rootDepth: int, ts: seq<Tree>, path: string)
    decreases ts
  {
    ts != [] && (Holds(h, b, rootDepth, ts[0], path) || AnyHolds(h, b, rootDepth, ts[1..], path))
  }

  /** The absolute names of what a tree holds. */
  function Held(h: Host, b: Bounds, rootDepth: int, t: Tree): set<string>
    decreases t
  {
    match t
    case File(p) => if Worthwhile(h, b, p) then {h.abs(p)} else {}
    case Link(_) => {}
    case Directory(p, listed, children) =>
      if TooDeep(h, b, rootDepth, p) || !listed then {} else AllHeld(h, b, rootDepth, children)
    case Unseen(_) => {}
  }

  function AllHeld(h: Host, b: Bounds, rootDepth: int, ts: seq<Tree>): set<string>
    decreases ts
  {
    if ts == [] then {} else Held(h, b, rootDepth, ts[0]) + AllHeld(h, b, rootDepth, ts[1..])
  }

  function RootDepth(h: Host, root: Tree): int { h.separators(root.path) }

  function MatchesHeld(h: Host, b: Bounds, matches: seq<Tree>): set<string> {
    if matches == [] then {} else
    var m := matches[|matches| - 1];
    MatchesHeld(h, b, matches[..|matches| - 1]) + Held(h, b, RootDepth(h, m), m)
  }

  /** The absolute names of everything under these roots. */
  function HeldUnder(h: Host, b: Bounds, roots: seq<seq<Tree>>): set<string> {
    if roots == [] then {} else HeldUnder(h, b, roots[..|roots| - 1]) + MatchesHeld(h, b, roots[|roots| - 1])
  }

  lemma {:induction false} HeldIsHolds(h: Host, b: Bounds, rootDepth: int, t: Tree, a: string)
    ensures a in Held(h, b, rootDepth, t) <==> exists path :: h.abs(path) == a && Holds(h, b, rootDepth, t, path)
    decreases t
  {
    match t
    case File(p) =>
      if Worthwhile(h, b, p) {
        assert Holds(h, b, rootDepth, t, p) && h.abs(p) == h.abs(p);
      }
    case Directory(p, listed, children) => AllHeldIsHolds(h, b, rootDepth, children, a);
    case _ =>
  }

  lemma {:induction false} AllHeldIsHolds(h: Host, b: Bounds, rootDepth: int, ts: seq<Tree>, a: string)
    ensures a in AllHeld(h, b, rootDepth, ts) <==> exists path :: h.abs(path) == a && AnyHolds(h, b, rootDepth, ts, path)
    decreases ts
  {
    if ts != [] {
      HeldIsHolds(h, b, rootDepth, ts[0], a);
      AllHeldIsHolds(h, b, rootDepth, ts[1..], a);
      if path :| h.abs(path) == a && Holds(h, b, rootDepth, ts[0], path) {
        assert AnyHolds(h, b, rootDepth, ts, path);
      }
      if path :| h.abs(path) == a && AnyHolds(h, b, rootDepth, ts[1..], path) {
        assert AnyHolds(h, b, rootDepth, ts, path);
      }
    }
  }

  /** Some root holds a file of this absolute name. */
  ghost predicate HeldSomewhere(h: Host, b: Bounds, roots: seq<seq<Tree>>, a: string) {
    exists k, m :: 0 <= k < |roots| && 0 <= m < |roots[k]| && a in Held(h, b, RootDepth(h, roots[k][m]), roots[k][m])
  }

  lemma {:induction false} MatchesHeldOne(h: Host, b: Bounds, matches: seq<Tree>, a: string)
    ensures a in MatchesHeld(h, b, matches) <==>
      exists m :: 0 <= m < |matches| && a in Held(h, b, RootDepth(h, matches[m]), matches[m])
  {
    if matches != [] {
      var rest := matches[..|matches| - 1];
      MatchesHeldOne(h, b, rest, a);
      assert forall m :: 0 <= m < |rest| ==> rest[m] == matches[m];
    }
  }

  lemma {:induction false} HeldUnderSome(h: Host, b: Bounds, roots: seq<seq<Tree>>, a: string)
    ensures a in HeldUnder(h, b, roots) <==> HeldSomewhere(h, b, roots, a)
  {
    hide Held;
    if roots != [] {
      var rest := roots[..|roots| - 1];
      HeldUnderSome(h, b, rest, a);
      MatchesHeldOne(h, b, roots[|rest|], a);
      assert forall k :: 0 <= k < |rest| ==> rest[k] == roots[k];
    }
  }

  // ── a tree in which there is nothing to do ─────────────────────────────────

  /** Nothing on the way was withheld: every directory within the depth could be listed. */
  predicate Clear(h: Host, b: Bounds, rootDepth: int, t: Tree)
    decreases t
  {
    match t
    case Directory(p, listed, children) => TooDeep(h, b, rootDepth, p) || (listed && AllClear(h, b, rootDepth, children))
    case Unseen(_) => false
    case _ => true
  }

  predicate AllClear(h: Host, b: Bounds, rootDepth: int, ts: seq<Tree>)
    decreases ts
  {
    ts == [] || (Clear(h, b, rootDepth, ts[0]) && AllClear(h, b, rootDepth, ts[1..]))
  }

  /** How many files count against the limit: those with a name to look into, whatever their size. */
  function Counted(h: Host, b: Bounds, rootDepth: int, t: Tree): nat
    decreases t
  {
    match t
    case File(p) => if h.eligible(p) then 1 else 0
    case Directory(p, listed, children) =>
      if TooDeep(h, b, rootDepth, p) || !listed then 0 else AllCounted(h, b, rootDepth, children)
    case _ => 0
  }

  function AllCounted(h: Host, b: Bounds, rootDepth: int, ts: seq<Tree>): nat
    decreases ts
  {
    if ts == [] then 0 else Counted(h, b, rootDepth, ts[0]) + AllCounted(h, b, rootDepth, ts[1..])
  }

  /** There is nothing to examine here, and nothing that would say so. */
  predicate Barren(h: Host, b: Bounds, rootDepth: int, t: Tree) {
    Clear(h, b, rootDepth, t) && Held(h, b, rootDepth, t) == {}
  }

  predicate AllBarren(h: Host, b: Bounds, matches: seq<Tree>) {
    forall m :: 0 <= m < |matches| ==> Barren(h, b, RootDepth(h, matches[m]), matches[m])
  }

  predicate RootsBarren(h: Host, b: Bounds, roots: seq<seq<Tree>>) {
    forall k :: 0 <= k < |roots| ==> AllBarren(h, b, roots[k])
  }

  function MatchesCounted(h: Host, b: Bounds, matches: seq<Tree>): nat {
    if matches == [] then 0 else
    var m := matches[|matches| - 1];
    MatchesCounted(h, b, matches[..|matches| - 1]) + Counted(h, b, RootDepth(h, m), m)
  }

  function CountedUnder(h: Host, b: Bounds, roots: seq<seq<Tree>>): nat {
    if roots == [] then 0 else CountedUnder(h, b, roots[..|roots| - 1]) + MatchesCounted(h, b, roots[|roots| - 1])
  }

  // ── what was examined, and what came of it ─────────────────────────────────

  function PartOf(path: string, a: Alias): Part {
    Part(":" + a.name, Content(a.certificates, if a.hasPrivateKey then Some(path) else None))
  }

  /** The parts of the file at this path; a file without certificates has none. */
  function Parts(h: Host, path: string): seq<Part> {
    match h.read(h.abs(path))
    case NotReadable => []
    case NothingHere => []
    case Plain(c) => if c.certificates == [] then [] else [Part("", c)]
    case Keystore(aliases, _) => seq(|aliases|, k requires 0 <= k < |aliases| => PartOf(path, aliases[k]))
  }

  /** The file at this path was there to be read to its end. */
  predicate ReadsWhole(h: Host, path: string) {
    match h.read(h.abs(path))
    case NotReadable => false
    case Keystore(_, faulted) => !faulted
    case _ => true
  }

  /** One part examined: what was found in it, what fell short, how much of it the run took, and the
      signatures checked for it. */
  datatype Record = Record(path: string, part: nat, found: seq<LeafWithChain>, short: Shortfall, taken: nat, verified: seq<Pair>)

  function ObservationOf(h: Host, source: string, path: string, part: Part, f: LeafWithChain): Observation {
    var key := part.content.keyPath;
    Observation(h.pem([f.leaf]), h.pem(f.chain), source, path + part.suffix, key.Some?, if key.Some? then key.value else "")
  }

  function ObservationsOf(h: Host, source: string, path: string, part: Part, found: seq<LeafWithChain>, n: nat): (os: seq<Observation>)
    requires n <= |found|
    ensures |os| == n
  {
    seq(n, i requires 0 <= i < n => ObservationOf(h, source, path, part, found[i]))
  }

  /** What the record says was found is what an examination of that part may find. */
  ghost predicate Faithful(h: Host, r: Record) {
    && r.part < |Parts(h, r.path)|
    && FoundFor(h.world(h.abs(r.path), r.part), Parts(h, r.path)[r.part].content, r.short, r.found)
    && NoDuplicates(r.verified)
    && r.taken <= |r.found|
  }

  lemma IsFaithful(h: Host, path: string, part: nat, content: Content, found: seq<LeafWithChain>, short: Shortfall, taken: nat, verified: seq<Pair>)
    requires part < |Parts(h, path)| && Parts(h, path)[part].content == content
    requires FoundFor(h.world(h.abs(path), part), content, short, found) && NoDuplicates(verified) && taken <= |found|
    ensures Faithful(h, Record(path, part, found, short, taken, verified))
  {
  }

  predicate Whole(r: Record) { r.taken == |r.found| && !r.short.truncated && !r.short.interrupted }

  ghost predicate AllFaithful(h: Host, records: seq<Record>) {
    forall i :: 0 <= i < |records| ==> Faithful(h, records[i])
  }

  ghost function AllObservations(h: Host, source: string, records: seq<Record>): seq<Observation>
    requires AllFaithful(h, records)
  {
    if records == [] then [] else
    var r := records[|records| - 1];
    AllObservations(h, source, records[..|records| - 1]) +
      ObservationsOf(h, source, r.path, Parts(h, r.path)[r.part], r.found, r.taken)
  }

  /** The records account for the result: its observations are theirs, each part of a file has one at
      most, each is faithful, and a result that is complete has only whole ones. */
  ghost predicate Accounts(h: Host, source: string, records: seq<Record>, observations: seq<Observation>, completed: bool) {
    && AllFaithful(h, records)
    && observations == AllObservations(h, source, records)
    && (forall i, j :: 0 <= i < j < |records| ==> !(h.abs(records[i].path) == h.abs(records[j].path) && records[i].part == records[j].part))
    && (completed ==> forall i :: 0 <= i < |records| ==> Whole(records[i]))
  }

  /** No record yet of this part of the file, nor of a later one. */
  ghost predicate NotYet(h: Host, records: seq<Record>, abs: string, part: nat) {
    forall i :: 0 <= i < |records| ==> !(h.abs(records[i].path) == abs && records[i].part >= part)
  }

  lemma AccountsMore(h: Host, source: string, records: seq<Record>, observations: seq<Observation>, completed: bool, r: Record, completed': bool)
    requires Accounts(h, source, records, observations, completed)
    requires NotYet(h, records, h.abs(r.path), r.part) && Faithful(h, r)
    requires completed' ==> completed && Whole(r)
    ensures Accounts(h, source, records + [r],
      observations + ObservationsOf(h, source, r.path, Parts(h, r.path)[r.part], r.found, r.taken), completed')
    ensures NotYet(h, records + [r], h.abs(r.path), r.part + 1)
  {
    assert (records + [r])[..|records|] == records;
  }

  predicate CutShort(short: Shortfall) { short.outOfBudget || short.tooDeep }

  /** Whatever was cut short is complained of. */
  ghost predicate Owned(source: string, records: seq<Record>, errors: seq<Error>) {
    forall i :: 0 <= i < |records| && CutShort(records[i].short) ==> Error(source, records[i].path, ChainsCut) in errors
  }

  lemma OwnedMore(source: string, was: seq<Record>, more: seq<Record>, errors: seq<Error>, errors': seq<Error>)
    requires Owned(source, was, errors) && errors <= errors'
    requires forall i :: 0 <= i < |more| && CutShort(more[i].short) ==> Error(source, more[i].path, ChainsCut) in errors'
    ensures Owned(source, was + more, errors')
  {
    assert forall e :: e in errors ==> e in errors';
  }

  lemma AccountsLess(h: Host, source: string, records: seq<Record>, observations: seq<Observation>, completed: bool)
    requires Accounts(h, source, records, observations, completed)
    ensures Accounts(h, source, records, observations, false)
  {
  }

  ghost predicate HasRecord(h: Host, records: seq<Record>, path: string, part: nat) {
    exists i :: 0 <= i < |records| && h.abs(records[i].path) == h.abs(path) && records[i].part == part
  }

  /** The file was read to its end, and every part of it examined. */
  ghost predicate Done(h: Host, records: seq<Record>, path: string) {
    ReadsWhole(h, path) && forall k :: 0 <= k < |Parts(h, path)| ==> HasRecord(h, records, path, k)
  }

  lemma RecordStays(h: Host, records: seq<Record>, more: seq<Record>, path: string, part: nat)
    requires HasRecord(h, records, path, part)
    ensures HasRecord(h, records + more, path, part)
  {
    var i :| 0 <= i < |records| && h.abs(records[i].path) == h.abs(path) && records[i].part == part;
    assert (records + more)[i] == records[i];
  }

  lemma DoneStays(h: Host, records: seq<Record>, more: seq<Record>, path: string)
    requires Done(h, records, path)
    ensures Done(h, records + more, path)
  {
    forall k | 0 <= k < |Parts(h, path)| ensures HasRecord(h, records + more, path, k) {
      RecordStays(h, records, more, path, k);
    }
  }

  /** Records of the parts of one file in order, one each, make it done. */
  lemma AllPartsDone(h: Host, records: seq<Record>, more: seq<Record>, path: string, other: string)
    requires ReadsWhole(h, path) && h.abs(other) == h.abs(path) && |more| == |Parts(h, path)|
    requires forall k :: 0 <= k < |more| ==> more[k].path == path && more[k].part == k
    ensures Done(h, records + more, other)
  {
    forall k | 0 <= k < |Parts(h, other)| ensures HasRecord(h, records + more, other, k) {
      assert (records + more)[|records| + k] == more[k];
    }
  }

  lemma NoChecks()
    ensures Costs(Checks([])) == []
  {
  }

  /** Every signature checked for these records. */
  ghost function Checks(records: seq<Record>): seq<Pair> {
    if records == [] then [] else Checks(records[..|records| - 1]) + records[|records| - 1].verified
  }

  lemma ChecksMore(records: seq<Record>, r: Record)
    ensures Checks(records + [r]) == Checks(records) + r.verified
    ensures Costs(Checks(records + [r])) == Costs(Checks(records)) + Costs(r.verified)
  {
    assert (records + [r])[..|records|] == records;
  }

  /** All that one budget paid for is within it. */
  lemma ChecksPaidFor(budget: Budget, records: seq<Record>)
    requires budget.Valid() && budget.ledger == Costs(Checks(records))
    ensures Sum(Costs(Checks(records))) == VERIFY_BUDGET - budget.left
    ensures |Checks(records)| <= VERIFY_BUDGET
  {
    ChecksWithinBudget(budget.ledger);
  }

  // ── the sweep ──────────────────────────────────────────────────────────────

  class Sweep {
    const source: string
    const host: Host
    const bounds: Bounds
    const ctx: Context
    const limit: RunCap
    const res: Result
    var seen: nat
    var examined: set<string>
    ghost var records: seq<Record>
    // What the sweep has done to its result, as a collector's script, and the run's state before it.
    ghost var steps: seq<Step>
    ghost const start: Cap

    ghost predicate Valid()
      reads this, limit, res
    {
      && Accounts(host, source, records, res.observations, res.completed)
      && Owned(source, records, res.errors)
      && AllDone()
      && Follows()
    }

    /** The records are of examined files, and a complete sweep is done with each of those. */
    ghost predicate AllDone()
      reads this`records, this`examined, res
    {
      && (forall i :: 0 <= i < |records| ==> host.abs(records[i].path) in examined)
      && (res.completed ==> forall path :: host.abs(path) in examined ==> Done(host, records, path))
    }

    /** The result and the run are where playing the steps puts them. */
    ghost predicate Follows()
      reads this`steps, limit, res
    {
      && (limit.Value(), res.Value()) == Played(start, Fresh(source), steps)
      && res.source == source
      && (forall o :: o in Offers(steps) ==> o.source == source)
      && (limit.full || res.capped ==> !res.completed)
    }

    constructor (source: string, host: Host, bounds: Bounds, ctx: Context, limit: RunCap)
      requires source == SOURCE_FILE || source == SOURCE_JAVA_KEYSTORE
      requires !limit.full
      ensures Valid() && this.source == source && this.host == host && this.bounds == bounds
      ensures this.ctx == ctx && this.limit == limit
      ensures fresh(res) && res.Value() == Fresh(source) && examined == {} && seen == 0
      ensures start == limit.Value() && steps == []
    {
      this.source, this.host, this.bounds, this.ctx, this.limit := source, host, bounds, ctx, limit;
      res := new Result(source);
      seen, examined, records := 0, {}, [];
      steps, start := [], limit.Value();
    }

    // What may be done to the result.

    method Observe(o: Observation) returns (recorded: bool)
      requires Follows() && o.source == source
      modifies this`steps, res, limit
      ensures Follows()
      ensures recorded ==> res.observations == old(res.observations) + [o] && res.completed == old(res.completed)
      ensures !recorded ==> res.observations == old(res.observations) && !res.completed
      ensures old(res.errors) <= res.errors
    {
      recorded := res.Observe(limit, o);
      StepAppended(Offer(o));
      steps := steps + [Offer(o)];
    }

    method MarkIncomplete()
      requires Follows()
      modifies this`steps, res
      ensures Follows() && res.observations == old(res.observations) && !res.completed
      ensures res.errors == old(res.errors)
    {
      res.MarkIncomplete();
      StepAppended(Missed);
      steps := steps + [Missed];
    }

    method Note(e: Error)
      requires Follows()
      modifies this`steps, res
      ensures Follows() && res.observations == old(res.observations) && res.completed == old(res.completed)
      ensures res.errors == old(res.errors) + [e]
    {
      res.Note(e);
      StepAppended(Remark(e));
      steps := steps + [Remark(e)];
    }

    lemma StepAppended(step: Step)
      ensures var (cap, r) := Played(start, Fresh(source), steps);
        Played(start, Fresh(source), steps + [step]) == After(cap, r, step)
      ensures Offers(steps + [step]) == Offers(steps) + if step.Offer? then [step.o] else []
    {
      assert (steps + [step])[..|steps|] == steps;
    }

    /** What any part of a sweep leaves true: more may be examined, and what is incomplete stays so. */
    twostate predicate Grows()
      reads this, res
    {
      && old(examined) <= examined
      && (res.completed ==> old(res.completed))
      && forall e :: e in old(res.errors) ==> e in res.errors
    }

    method Incomplete(reason: Option<Error>)
      requires Valid()
      modifies this`steps, res
      ensures Valid() && Grows() && !res.completed
      ensures reason.Some? ==> reason.value in res.errors
    {
      MarkIncomplete();
      if reason.Some? {
        Note(reason.value);
      }
    }

    /** What a store's limits left undone, once per file: what was not seen makes the sweep incomplete,
        a shorter chain does not. */
    method NoteShortfall(path: string, short: Shortfall)
      requires Follows()
      modifies this`steps, res
      ensures Follows() && res.observations == old(res.observations)
      ensures res.completed == (old(res.completed) && !short.interrupted && !short.truncated)
      ensures res.errors == old(res.errors) + Complaints(path, short)
      ensures short.truncated ==> Error(source, path, StoreCut) in res.errors
      ensures short.outOfBudget || short.tooDeep ==> Error(source, path, ChainsCut) in res.errors
      ensures !short.truncated && !short.outOfBudget && !short.tooDeep ==> res.errors == old(res.errors)
    {
      if short.interrupted {
        MarkIncomplete();
      }
      if short.truncated {
        MarkIncomplete();
        Note(Error(source, path, StoreCut));
      }
      if short.outOfBudget || short.tooDeep {
        Note(Error(source, path, ChainsCut));
      }
    }

    /** One complaint for what went unseen, and one for chains cut short; an interruption has none here. */
    function Complaints(path: string, short: Shortfall): seq<Error> {
      (if short.truncated then [Error(source, path, StoreCut)] else []) +
      (if short.outOfBudget || short.tooDeep then [Error(source, path, ChainsCut)] else [])
    }

    /** Observes what was found, as far as the run has room. */
    method ObserveAll(path: string, part: Part, found: seq<LeafWithChain>) returns (taken: nat)
      requires Follows()
      modifies this`steps, res, limit
      ensures Follows()
      ensures taken <= |found|
      ensures res.observations == old(res.observations) + ObservationsOf(host, source, path, part, found, taken)
      ensures res.completed ==> old(res.completed) && taken == |found|
      ensures old(res.errors) <= res.errors
    {
      taken := 0;
      while taken < |found|
        invariant taken <= |found|
        invariant res.observations == old(res.observations) + ObservationsOf(host, source, path, part, found, taken)
        invariant res.completed ==> old(res.completed)
        invariant old(res.errors) <= res.errors
        invariant Follows()
      {
        var recorded := Observe(ObservationOf(host, source, path, part, found[taken]));
        if !recorded {
          return;
        }
        taken := taken + 1;
      }
    }

    // Examining a file.

    /** Notes down what came of one part. `complete` is what the file's shortfall will leave of it. */
    ghost method Put(r: Record, observed: seq<Observation>, before: bool, complete: bool)
      requires Accounts(host, source, records, observed, before)
      requires NotYet(host, records, host.abs(r.path), r.part) && Faithful(host, r)
      requires complete ==> before && Whole(r)
      modifies this`records
      ensures records == old(records) + [r]
      ensures NotYet(host, records, host.abs(r.path), r.part + 1)
      ensures Accounts(host, source, records,
        observed + ObservationsOf(host, source, r.path, Parts(host, r.path)[r.part], r.found, r.taken), complete)
    {
      AccountsMore(host, source, records, observed, before, r, complete);
      records := records + [r];
    }

    /** A certificate file: its leaves, with a store and budget of its own. */
    method ExaminePlain(path: string, content: Content)
      requires Follows() && Accounts(host, source, records, res.observations, res.completed)
      requires Parts(host, path) == [Part("", content)]
      requires NotYet(host, records, host.abs(path), 0)
      modifies this`records, this`steps, res, limit, ctx
      ensures Follows() && Accounts(host, source, records, res.observations, res.completed)
      ensures res.completed ==> old(res.completed)
      ensures old(res.errors) <= res.errors
      ensures |records| == |old(records)| + 1 && old(records) <= records
      ensures CutShort(records[|old(records)|].short) ==> Error(source, path, ChainsCut) in res.errors
      ensures records[|old(records)|].path == path && records[|old(records)|].part == 0
      ensures |Checks(records[|old(records)|..])| <= VERIFY_BUDGET
    {
      hide Accounts, FoundFor, Follows, Faithful, NoDuplicates, NotYet, Checks, Costs, Parts, ObservationsOf;
      var budget := new Budget();
      ghost var before, observed := res.completed, res.observations;
      ghost var verified;
      var found, short;
      found, short, verified := FileReport.Examine(host.world(host.abs(path), 0), ctx, budget, content);
      NoteShortfall(path, short);
      ghost var noted := res.errors;
      assert CutShort(short) ==> noted[|noted| - 1] == Error(source, path, ChainsCut);
      var part := Part("", content);
      var taken := ObserveAll(path, part, found);
      PrefixKeeps(noted, res.errors);
      IsFaithful(host, path, 0, content, found, short, taken, verified);
      ghost var r := Record(path, 0, found, short, taken, verified);
      Put(r, observed, before, res.completed);
      assert records[|old(records)|..] == [] + [r];
      NoChecks();
      ChecksMore([], r);
      ChecksPaidFor(budget, [r]);
    }

    /** A keystore: alias after alias, on one budget and towards one shortfall. What is left of a keystore
        that is cut short counts as not seen. */
    method ExamineKeystore(path: string, aliases: seq<Alias>)
      requires Follows() && Accounts(host, source, records, res.observations, res.completed)
      requires Parts(host, path) == seq(|aliases|, k requires 0 <= k < |aliases| => PartOf(path, aliases[k]))
      requires NotYet(host, records, host.abs(path), 0)
      modifies this`records, this`steps, res, limit, ctx
      ensures Follows() && Accounts(host, source, records, res.observations, res.completed)
      ensures res.completed ==> old(res.completed) && |records| == |old(records)| + |aliases|
      ensures old(res.errors) <= res.errors
      ensures old(records) <= records
      ensures OfFile(path, records[|old(records)|..])
      ensures CutNoted(path, records[|old(records)|..])
      ensures |Checks(records[|old(records)|..])| <= VERIFY_BUDGET
    {
      hide Accounts, FoundFor, Follows, Faithful, NoDuplicates, NotYet, Checks, Costs, Parts, ObservationsOf, Budget.Valid, Context.Cancelled;
      var budget := new Budget();
      var short := NO_SHORTFALL;
      ghost var more: seq<Record> := [];
      ghost var was := records;
      assert was == was + more;
      NoChecks();
      for k := 0 to |aliases|
        invariant Follows() && budget.Valid() && fresh(budget)
        invariant Accounts(host, source, records, res.observations, Unspoiled(short))
        invariant records == was + more && OfFile(path, more) && |more| == k
        invariant NotYet(host, records, host.abs(path), k)
        invariant forall l :: 0 <= l < k && CutShort(more[l].short) ==> CutShort(short)
        invariant budget.ledger == Costs(Checks(more))
        invariant res.completed ==> old(res.completed)
        invariant old(res.errors) <= res.errors
      {
        var stop := ctx.Err();
        if stop {
          AccountsLess(host, source, records, res.observations, Unspoiled(short));
          MarkIncomplete();
          break;
        }
        var goesOn;
        ghost var r;
        short, goesOn, r := ExamineAlias(path, k, PartOf(path, aliases[k]), budget, short);
        ChecksMore(more, r);
        more := more + [r];
        if !goesOn {
          break;
        }
      }
      NoteShortfall(path, short);
      ChecksPaidFor(budget, more);
      assert records[|was|..] == more;
    }

    /** One alias, on what is left of the keystore's budget. */
    method ExamineAlias(path: string, k: nat, part: Part, budget: Budget, short: Shortfall)
      returns (short': Shortfall, goesOn: bool, ghost r: Record)
      requires Follows() && budget.Valid()
      requires k < |Parts(host, path)| && Parts(host, path)[k] == part
      requires Accounts(host, source, records, res.observations, Unspoiled(short)) && NotYet(host, records, host.abs(path), k)
      modifies this`records, this`steps, res, limit, ctx, budget
      ensures Follows() && budget.Valid() && budget.ledger == old(budget.ledger) + Costs(r.verified)
      ensures records == old(records) + [r] && r.path == path && r.part == k
      ensures Accounts(host, source, records, res.observations, Unspoiled(short')) && NotYet(host, records, host.abs(path), k + 1)
      ensures short' == short.Add(r.short)
      ensures res.completed ==> old(res.completed) && goesOn
      ensures old(res.errors) <= res.errors
    {
      hide Accounts, FoundFor, Follows, Faithful, NoDuplicates, NotYet, Costs, Parts, ObservationsOf, Budget.Valid, Context.Cancelled;
      ghost var before, observed := Unspoiled(short), res.observations;
      ghost var verified;
      var found, cut;
      found, cut, verified := FileReport.Examine(host.world(host.abs(path), k), ctx, budget, part.content);
      short' := short.Add(cut);
      var taken := ObserveAll(path, part, found);
      IsFaithful(host, path, k, part.content, found, cut, taken, verified);
      r := Record(path, k, found, cut, taken, verified);
      Put(r, observed, before, Unspoiled(short'));
      goesOn := taken == |found|;
    }

    /** Nothing so far stops the result from being complete once `short` is noted. */
    predicate Unspoiled(short: Shortfall)
      reads res
    {
      res.completed && !short.interrupted && !short.truncated
    }

    ghost predicate CutNoted(path: string, more: seq<Record>)
      reads res
    {
      forall k :: 0 <= k < |more| && CutShort(more[k].short) ==> Error(source, path, ChainsCut) in res.errors
    }

    ghost predicate OfFile(path: string, more: seq<Record>) {
      forall k :: 0 <= k < |more| ==> more[k].path == path && more[k].part == k
    }

    /** One file, once by its absolute path: opened, and what its certificates amount to observed. */
    method Examine(path: string)
      requires Valid()
      modifies this`examined, this`records, this`steps, res, limit, ctx
      ensures Valid() && Grows() && examined == old(examined) + {host.abs(path)}
      ensures old(records) <= records && |Checks(records[|old(records)|..])| <= VERIFY_BUDGET
      ensures host.abs(path) !in old(examined) && !ReadsWhole(host, path) ==> Error(source, path, Unreadable) in res.errors
    {
      hide Accounts, Follows, Done, Checks, AllFaithful, Owned, ReadsWhole, Parts;
      var abs := host.abs(path);
      ghost var was, noted := records, res.errors;
      assert records[|was|..] == [];
      NoChecks();
      if abs in examined {
        return;
      }
      Read(path);
      PrefixKeeps(noted, res.errors);
      OwnedMore(source, was, records[|was|..], noted, res.errors);
      assert records == was + records[|was|..];
      NowDone(was, path);
      examined := examined + {abs};
    }

    /** The file is read, and each part of it examined. */
    method Read(path: string)
      requires Follows() && Accounts(host, source, records, res.observations, res.completed)
      requires NotYet(host, records, host.abs(path), 0)
      modifies this`records, this`steps, res, limit, ctx
      ensures Follows() && Accounts(host, source, records, res.observations, res.completed)
      ensures res.completed ==> old(res.completed) && ReadsWhole(host, path) && |records| == |old(records)| + |Parts(host, path)|
      ensures old(res.errors) <= res.errors && old(records) <= records
      ensures OfFile(path, records[|old(records)|..]) && CutNoted(path, records[|old(records)|..])
      ensures |Checks(records[|old(records)|..])| <= VERIFY_BUDGET
      ensures !ReadsWhole(host, path) ==> Error(source, path, Unreadable) in res.errors
    {
      hide Accounts, Follows, NotYet, Checks, AllFaithful;
      ghost var was := records;
      assert records[|was|..] == [];
      NoChecks();
      match host.read(host.abs(path)) {
        case NotReadable =>
          GaveUp();
          Note(Error(source, path, Unreadable));
        case NothingHere =>
        case Plain(content) =>
          if |content.certificates| > 0 {
            ExaminePlain(path, content);
          }
        case Keystore(aliases, faulted) =>
          if faulted {
            GaveUp();
            Note(Error(source, path, Unreadable));
          }
          ghost var faults := res.errors;
          assert faulted ==> faults[|faults| - 1] == Error(source, path, Unreadable);
          ExamineKeystore(path, aliases);
          PrefixKeeps(faults, res.errors);
      }
    }

    lemma PrefixKeeps(before: seq<Error>, after: seq<Error>)
      requires before <= after
      ensures forall e :: e in before ==> e in after
    {
    }

    method GaveUp()
      requires Follows() && Accounts(host, source, records, res.observations, res.completed)
      modifies this`steps, res
      ensures Follows() && Accounts(host, source, records, res.observations, res.completed)
      ensures !res.completed && res.errors == old(res.errors)
    {
      AccountsLess(host, source, records, res.observations, res.completed);
      MarkIncomplete();
    }

    lemma NowDone(was: seq<Record>, path: string)
      requires was <= records && OfFile(path, records[|was|..])
      requires res.completed ==> ReadsWhole(host, path) && |records| == |was| + |Parts(host, path)|
      requires forall p :: host.abs(p) in examined && res.completed ==> Done(host, was, p)
      ensures res.completed ==> forall p :: host.abs(p) in examined + {host.abs(path)} ==> Done(host, records, p)
    {
      hide Done, ReadsWhole, Parts;
      if res.completed {
        var more := records[|was|..];
        assert records == was + more;
        forall p | host.abs(p) in examined + {host.abs(path)} ensures Done(host, records, p) {
          if host.abs(p) == host.abs(path) {
            AllPartsDone(host, was, more, path, p);
          } else {
            DoneStays(host, was, more, p);
          }
        }
      }
    }

    // ── walking ──────────────────────────────────────────────────────────────

    /** Only names of this set were newly examined, and in a sweep still complete, if the walk goes on, all. */
    twostate predicate Covers(names: set<string>, goesOn: bool)
      reads this`examined, res
    {
      && examined <= old(examined) + names
      && (goesOn && res.completed ==> examined == old(examined) + names)
    }

    /** Nothing was found and nothing complained of. */
    twostate predicate Untouched()
      reads this`examined, res
    {
      res.Value() == old(res.Value()) && examined == old(examined)
    }

    /** Nobody cancels, and the limit on files leaves room for this many more. */
    predicate Unhindered(count: nat)
      reads this`seen
    {
      ctx.cancelAt == None && seen + count <= bounds.maxFiles
    }

    /** filepath.WalkDir over one entry. A walk that goes on has examined everything worthwhile, or the
        sweep is incomplete; one that skips the rest has made it so. Nothing else is ever examined. */
    method Walk(t: Tree, rootDepth: int) returns (signal: Signal)
      requires Valid()
      modifies this`examined, this`records, this`steps, this`seen, res, limit, ctx
      ensures Valid() && Grows()
      ensures Covers(Held(host, bounds, rootDepth, t), signal == Continue)
      ensures signal == SkipAll ==> !res.completed
      ensures seen <= old(seen) + Counted(host, bounds, rootDepth, t)
      ensures old(Unhindered(Counted(host, bounds, rootDepth, t))) && Barren(host, bounds, rootDepth, t) ==>
        signal == Continue && Untouched()
      decreases t
    {
      hide Accounts, Follows;
      var stop := ctx.Err();
      if stop {
        return Stopped;
      }
      match t
      case Link(_) =>
        return Continue;
      case Unseen(path) =>
        Incomplete(Some(Error(source, path, Unreadable)));
        return Continue;
      case File(path) =>
        signal := VisitFile(path);
      case Directory(path, listed, children) =>
        if host.separators(path) - rootDepth >= bounds.maxDepth {
          return Continue;
        }
        if !listed {
          stop := ctx.Err();
          if stop {
            return Stopped;
          }
          Incomplete(Some(Error(source, path, Unreadable)));
          return Continue;
        }
        signal := WalkAll(children, rootDepth);
    }

    method WalkAll(ts: seq<Tree>, rootDepth: int) returns (signal: Signal)
      requires Valid()
      modifies this`examined, this`records, this`steps, this`seen, res, limit, ctx
      ensures Valid() && Grows()
      ensures Covers(AllHeld(host, bounds, rootDepth, ts), signal == Continue)
      ensures signal == SkipAll ==> !res.completed
      ensures seen <= old(seen) + AllCounted(host, bounds, rootDepth, ts)
      ensures
        old(Unhindered(AllCounted(host, bounds, rootDepth, ts)))
        && AllClear(host, bounds, rootDepth, ts) && AllHeld(host, bounds, rootDepth, ts) == {} ==>
        signal == Continue && Untouched()
      decreases ts
    {
      hide Accounts, Follows;
      if |ts| == 0 {
        return Continue;
      }
      signal := Walk(ts[0], rootDepth);
      if signal == Continue {
        signal := WalkAll(ts[1..], rootDepth);
      }
    }

    /** A file by its name and size, within the limit on files. */
    method VisitFile(path: string) returns (signal: Signal)
      requires Valid()
      modifies this`examined, this`records, this`steps, this`seen, res, limit, ctx
      ensures Valid() && Grows()
      ensures Covers(if Worthwhile(host, bounds, path) then {host.abs(path)} else {}, signal == Continue)
      ensures signal == SkipAll ==> !res.completed
      ensures signal != Stopped
      ensures seen <= old(seen) + if host.eligible(path) then 1 else 0
      ensures !Worthwhile(host, bounds, path) && (host.eligible(path) ==> old(seen) < bounds.maxFiles) ==>
        signal == Continue && Untouched()
    {
      hide Accounts;
      if !host.eligible(path) {
        return Continue;
      }
      if seen >= bounds.maxFiles {
        Incomplete(None);
        return SkipAll;
      }
      seen := seen + 1;
      var size := host.size(path);
      if size.None? || size.value > bounds.maxFileBytes || size.value == 0 {
        return Continue;
      }
      Examine(path);
      return if limit.full then SkipAll else Continue;
    }

    /** The whole sweep: what each configured root matches on this host, in order. The keystore sweep asks
        between roots whether to go on. */
    method Collect(roots: seq<seq<Tree>>)
      requires Valid()
      modifies this`examined, this`records, this`steps, this`seen, res, limit, ctx
      ensures Valid()
      ensures Covers(HeldUnder(host, bounds, roots), true)
      ensures old(Unhindered(CountedUnder(host, bounds, roots))) && RootsBarren(host, bounds, roots) ==> Untouched()
    {
      hide Accounts, Follows, Done, Owned, AllDone, MatchesHeld, MatchesCounted, AllBarren, HeldUnder, CountedUnder;
      NothingUnder();
      assert roots[..0] == [];
      for k := 0 to |roots|
        invariant Valid()
        invariant Covers(HeldUnder(host, bounds, roots[..k]), true)
        invariant seen <= old(seen) + CountedUnder(host, bounds, roots[..k])
        invariant old(Unhindered(CountedUnder(host, bounds, roots))) && RootsBarren(host, bounds, roots) ==> Untouched()
      {
        HeldPrefix(roots, k);
        if source == SOURCE_JAVA_KEYSTORE {
          var stop := ctx.Err();
          if stop {
            Incomplete(None);
            return;
          }
        }
        WalkMatches(roots[k]);
      }
      assert roots[..|roots|] == roots;
    }

    lemma NothingUnder()
      ensures HeldUnder(host, bounds, []) == {} && CountedUnder(host, bounds, []) == 0
    {
    }

    /** What the first roots hold is part of what all do, and so for how much of it counts. */
    lemma {:induction false} HeldPrefix(roots: seq<seq<Tree>>, k: nat)
      requires k < |roots|
      ensures HeldUnder(host, bounds, roots[..k + 1]) == HeldUnder(host, bounds, roots[..k]) + MatchesHeld(host, bounds, roots[k])
      ensures CountedUnder(host, bounds, roots[..k + 1]) ==
        CountedUnder(host, bounds, roots[..k]) + MatchesCounted(host, bounds, roots[k])
      ensures HeldUnder(host, bounds, roots[..k + 1]) <= HeldUnder(host, bounds, roots)
      ensures CountedUnder(host, bounds, roots[..k + 1]) <= CountedUnder(host, bounds, roots)
      decreases |roots| - k
    {
      assert roots[..k + 1][..k] == roots[..k];
      if k + 1 == |roots| {
        assert roots[..k + 1] == roots;
      } else {
        HeldPrefix(roots, k + 1);
      }
    }

    method WalkMatches(matches: seq<Tree>)
      requires Valid()
      modifies this`examined, this`records, this`steps, this`seen, res, limit, ctx
      ensures Valid() && Grows()
      ensures Covers(MatchesHeld(host, bounds, matches), true)
      ensures seen <= old(seen) + MatchesCounted(host, bounds, matches)
      ensures old(Unhindered(MatchesCounted(host, bounds, matches))) && AllBarren(host, bounds, matches) ==> Untouched()
    {
      hide Accounts, Follows, Done, Held, Counted, Barren;
      for m := 0 to |matches|
        invariant Valid() && Grows()
        invariant Covers(MatchesHeld(host, bounds, matches[..m]), true)
        invariant seen <= old(seen) + MatchesCounted(host, bounds, matches[..m])
        invariant old(Unhindered(MatchesCounted(host, bounds, matches))) && AllBarren(host, bounds, matches) ==> Untouched()
      {
        MatchesPrefix(matches, m);
        var signal := Walk(matches[m], RootDepth(host, matches[m]));
        if signal == Stopped {
          Incomplete(Some(Error(source, matches[m].path, Other("context canceled"))));
        }
      }
      assert matches[..|matches|] == matches;
    }

    lemma {:induction false} MatchesPrefix(matches: seq<Tree>, m: nat)
      requires m < |matches|
      ensures var t := matches[m];
        && MatchesHeld(host, bounds, matches[..m + 1]) ==
             MatchesHeld(host, bounds, matches[..m]) + Held(host, bounds, RootDepth(host, t), t)
        && MatchesCounted(host, bounds, matches[..m + 1]) ==
             MatchesCounted(host, bounds, matches[..m]) + Counted(host, bounds, RootDepth(host, t), t)
        && MatchesCounted(host, bounds, matches[..m + 1]) <= MatchesCounted(host, bounds, matches)
      decreases |matches| - m
    {
      assert matches[..m + 1][..m] == matches[..m];
      if m + 1 == |matches| {
        assert matches[..m + 1] == matches;
      } else {
        MatchesPrefix(matches, m + 1);
      }
    }

    /** What has been examined is exactly what these roots hold. */
    ghost predicate Complete(roots: seq<seq<Tree>>)
      reads this`examined
    {
      examined == HeldUnder(host, bounds, roots)
    }
  }

  // ── what completeness means ────────────────────────────────────────────────

  /** No complaint says of the file at this path, whatever it is called, that chains were cut short. */
  ghost predicate Uncut(h: Host, source: string, errors: seq<Error>, path: string) {
    forall p :: h.abs(p) == h.abs(path) ==> Error(source, p, ChainsCut) !in errors
  }

  /** These observations hold every reference leaf in the file at this path, and something of whatever in it
      has a key and a certificate. `whole` asks for whole chains. */
  ghost predicate Reported(h: Host, observations: seq<Observation>, path: string, whole: bool) {
    match h.read(h.abs(path))
    case NotReadable => false
    case NothingHere => true
    case Plain(c) => PartReported(h, observations, path, 0, c.certificates, c.keyPath.Some?, whole)
    case Keystore(aliases, faulted) =>
      && !faulted
      && forall k :: 0 <= k < |aliases| ==>
           PartReported(h, observations, path, k, aliases[k].certificates, aliases[k].hasPrivateKey, whole)
  }

  /** With a key something is reported: the first certificate when there is nothing but CAs. */
  ghost predicate PartReported(h: Host, observations: seq<Observation>, path: string, k: nat, certs: seq<Certificate>, keyed: bool, whole: bool) {
    && (forall leaf :: leaf in LeavesAmong(h.world(h.abs(path), k), certs) ==> ObservedAt(h, observations, path, k, certs, leaf, whole))
    && (keyed && certs != [] ==>
          if AllCA(certs) then ObservedAt(h, observations, path, k, certs, certs[0], whole)
          else exists c :: c in certs && ObservedAt(h, observations, path, k, certs, c, whole))
  }

  /** Some observation is of this certificate, and names the file by a path that leads to it. */
  ghost predicate ObservedAt(h: Host, observations: seq<Observation>, path: string, k: nat, certs: seq<Certificate>, c: Certificate, whole: bool) {
    exists o, p :: o in observations && h.abs(p) == h.abs(path) && Stands(h, o, p, k) && Tells(h, o, path, k, certs, c, whole)
  }

  /** The observation says where the certificate is, and where its key is if there is one: for a plain file,
      in it or beside it; for an alias, in the keystore itself. */
  ghost predicate Stands(h: Host, o: Observation, p: string, k: nat) {
    match h.read(h.abs(p))
    case Plain(c) =>
      && o.location == p
      && o.privateKeyPresent == c.keyPath.Some?
      && o.privateKeyLocation == (if c.keyPath.Some? then c.keyPath.value else "")
    case Keystore(aliases, _) =>
      && k < |aliases|
      && o.location == p + ":" + aliases[k].name
      && o.privateKeyPresent == aliases[k].hasPrivateKey
      && o.privateKeyLocation == (if aliases[k].hasPrivateKey then p else "")
    case _ => false
  }

  /** The observation carries the certificate, and the start of its reference chain or all of it. */
  ghost predicate Tells(h: Host, o: Observation, path: string, k: nat, certs: seq<Certificate>, c: Certificate, whole: bool) {
    && o.certificatePEM == h.pem([c])
    && exists chain :: o.chainPEM == h.pem(chain) && IsChain(h.world(h.abs(path), k), certs, c, chain, whole)
  }

  ghost predicate IsChain(w: World, certs: seq<Certificate>, c: Certificate, chain: seq<Certificate>, whole: bool) {
    var all := WholeChain(w, certs, c);
    && chain <= all
    && |chain| <= MAX_CHAIN_DEPTH
    && (whole ==> chain == all)
  }

  // From the records to these.

  lemma {:induction false} RecordIsObserved(h: Host, source: string, records: seq<Record>, i: nat, j: nat) returns (o: Observation)
    requires AllFaithful(h, records) && i < |records| && j < records[i].taken
    ensures o in AllObservations(h, source, records)
    ensures var r := records[i]; o == ObservationOf(h, source, r.path, Parts(h, r.path)[r.part], r.found[j])
  {
    hide FoundFor, NoDuplicates;
    var rest, r := records[..|records| - 1], records[|records| - 1];
    if i < |rest| {
      o := RecordIsObserved(h, source, rest, i, j);
    } else {
      o := ObservationsOf(h, source, r.path, Parts(h, r.path)[r.part], r.found, r.taken)[j];
    }
  }

  lemma ObservationStands(h: Host, source: string, path: string, k: nat, f: LeafWithChain)
    requires k < |Parts(h, path)|
    ensures Stands(h, ObservationOf(h, source, path, Parts(h, path)[k], f), path, k)
  {
    match h.read(h.abs(path))
    case Keystore(aliases, _) => assert path + (":" + aliases[k].name) == path + ":" + aliases[k].name;
    case Plain(_) => assert path + "" == path;
  }

  lemma FoundChain(w: World, c: Content, r: Record, j: nat)
    requires FoundFor(w, c, r.short, r.found) && j < |r.found| && Whole(r)
    ensures IsChain(w, c.certificates, r.found[j].leaf, r.found[j].chain, !CutShort(r.short))
  {
    hide WholeChain, LeavesAmong;
    assert ChainRight(w, c.certificates, r.short, r.found[j].leaf, r.found[j].chain);
  }

  lemma RecordTells(h: Host, source: string, records: seq<Record>, i: nat, j: nat, path: string, whole: bool)
    requires AllFaithful(h, records) && i < |records| && j < records[i].taken && Whole(records[i])
    requires h.abs(records[i].path) == h.abs(path) && (whole ==> !CutShort(records[i].short))
    ensures var r := records[i];
      ObservedAt(h, AllObservations(h, source, records), path, r.part, Parts(h, r.path)[r.part].content.certificates, r.found[j].leaf, whole)
  {
    hide FoundFor, WholeChain, Stands, AllObservations, NoDuplicates, Parts;
    var r := records[i];
    assert Faithful(h, r);
    var certs, f := Parts(h, r.path)[r.part].content.certificates, r.found[j];
    var o := RecordIsObserved(h, source, records, i, j);
    ObservationStands(h, source, r.path, r.part, f);
    FoundChain(h.world(h.abs(r.path), r.part), Parts(h, r.path)[r.part].content, r, j);
    assert o.chainPEM == h.pem(f.chain) && IsChain(h.world(h.abs(path), r.part), certs, f.leaf, f.chain, whole);
    assert Tells(h, o, path, r.part, certs, f.leaf, whole);
  }

  lemma SameParts(h: Host, a: string, b: string, k: nat)
    requires h.abs(a) == h.abs(b) && k < |Parts(h, a)|
    ensures |Parts(h, a)| == |Parts(h, b)|
    ensures Parts(h, a)[k].content.certificates == Parts(h, b)[k].content.certificates
    ensures Parts(h, a)[k].content.keyPath.Some? == Parts(h, b)[k].content.keyPath.Some?
  {
  }

  lemma WholeYieldsAll(w: World, c: Content, r: Record)
    requires FoundFor(w, c, r.short, r.found) && Whole(r)
    ensures forall leaf :: leaf in LeavesAmong(w, c.certificates) ==> exists j :: 0 <= j < r.taken && r.found[j].leaf == leaf
    ensures c.keyPath.Some? && c.certificates != [] ==> r.taken > 0 && r.found[0].leaf in c.certificates
    ensures c.keyPath.Some? && c.certificates != [] && AllCA(c.certificates) ==> r.taken > 0 && r.found[0].leaf == c.certificates[0]
  {
    hide ChainRight;
    forall leaf | leaf in LeavesAmong(w, c.certificates) ensures exists j :: 0 <= j < r.taken && r.found[j].leaf == leaf {
      assert leaf in LeafOf(r.found);
      var j :| 0 <= j < |LeafOf(r.found)| && LeafOf(r.found)[j] == leaf;
      assert r.found[j].leaf == leaf;
    }
    if c.keyPath.Some? && c.certificates != [] && AllCA(c.certificates) {
      assert LeafOf(r.found)[0] == c.certificates[0];
    }
  }

  lemma RecordReports(h: Host, source: string, records: seq<Record>, observations: seq<Observation>, errors: seq<Error>, path: string, i: nat)
    requires Accounts(h, source, records, observations, true) && Owned(source, records, errors)
    requires i < |records| && h.abs(records[i].path) == h.abs(path)
    ensures records[i].part < |Parts(h, path)|
    ensures var c := Parts(h, path)[records[i].part].content;
      PartReported(h, observations, path, records[i].part, c.certificates, c.keyPath.Some?, Uncut(h, source, errors, path))
  {
    hide FoundFor, LeavesAmong, Parts, NoDuplicates, AllObservations, ObservedAt, AllCA;
    var r, whole := records[i], Uncut(h, source, errors, path);
    assert Faithful(h, r) && Whole(r);
    assert whole ==> !CutShort(r.short);
    SameParts(h, r.path, path, r.part);
    var c := Parts(h, path)[r.part].content;
    WholeYieldsAll(h.world(h.abs(r.path), r.part), Parts(h, r.path)[r.part].content, r);
    forall leaf | leaf in LeavesAmong(h.world(h.abs(path), r.part), c.certificates)
      ensures ObservedAt(h, observations, path, r.part, c.certificates, leaf, whole)
    {
      var j :| 0 <= j < r.taken && r.found[j].leaf == leaf;
      RecordTells(h, source, records, i, j, path, whole);
    }
    if c.keyPath.Some? && c.certificates != [] {
      RecordTells(h, source, records, i, 0, path, whole);
    }
  }

  /** A complete account reports what it has done with. */
  lemma DoneIsReported(h: Host, source: string, records: seq<Record>, observations: seq<Observation>, errors: seq<Error>, path: string)
    requires Accounts(h, source, records, observations, true) && Owned(source, records, errors) && Done(h, records, path)
    ensures Reported(h, observations, path, Uncut(h, source, errors, path))
  {
    hide FoundFor, PartReported, Accounts, Owned;
    var whole := Uncut(h, source, errors, path);
    forall k | 0 <= k < |Parts(h, path)|
      ensures var c := Parts(h, path)[k].content;
        PartReported(h, observations, path, k, c.certificates, c.keyPath.Some?, whole)
    {
      assert HasRecord(h, records, path, k);
      var i :| 0 <= i < |records| && h.abs(records[i].path) == h.abs(path) && records[i].part == k;
      RecordReports(h, source, records, observations, errors, path, i);
    }
    match h.read(h.abs(path))
    case Plain(c) =>
      if c.certificates == [] {
        NothingToReport(h, observations, path, c.keyPath.Some?, whole);
      } else {
        assert Parts(h, path)[0].content == c;
      }
    case Keystore(aliases, _) =>
      forall k | 0 <= k < |aliases|
        ensures PartReported(h, observations, path, k, aliases[k].certificates, aliases[k].hasPrivateKey, whole)
      {
        assert Parts(h, path)[k] == PartOf(path, aliases[k]);
      }
    case _ =>
  }

  lemma NothingToReport(h: Host, observations: seq<Observation>, path: string, keyed: bool, whole: bool)
    ensures PartReported(h, observations, path, 0, [], keyed, whole)
  {
    assert LeavesAmong(h.world(h.abs(path), 0), []) == [];
  }

  /** A root holds a file of this absolute name. */
  ghost predicate HoldsUnder(h: Host, b: Bounds, roots: seq<seq<Tree>>, a: string) {
    exists k, m, path :: 0 <= k < |roots| && 0 <= m < |roots[k]| && h.abs(path) == a &&
      Holds(h, b, h.separators(roots[k][m].path), roots[k][m], path)
  }

  /** A complete sweep has examined exactly the files its roots hold: nothing behind a link, nothing below
      the depth, nothing empty, too large or of unknown size, and of the rest everything. */
  lemma ExaminedExactlyWhatIsHeld(s: Sweep, roots: seq<seq<Tree>>, a: string)
    requires s.Complete(roots)
    ensures a in s.examined <==> HoldsUnder(s.host, s.bounds, roots, a)
  {
    var h, b := s.host, s.bounds;
    hide Held, Holds;
    HeldUnderSome(h, b, roots, a);
    if a in s.examined {
      var k, m :| 0 <= k < |roots| && 0 <= m < |roots[k]| && a in Held(h, b, RootDepth(h, roots[k][m]), roots[k][m]);
      HeldIsHolds(h, b, RootDepth(h, roots[k][m]), roots[k][m], a);
    }
    if HoldsUnder(h, b, roots, a) {
      var k, m, path :| 0 <= k < |roots| && 0 <= m < |roots[k]| && h.abs(path) == a &&
        Holds(h, b, h.separators(roots[k][m].path), roots[k][m], path);
      HeldIsHolds(h, b, RootDepth(h, roots[k][m]), roots[k][m], a);
    }
  }

  /** One root, which is a file whose size cannot be had. */
  function UnsizedRoot(path: string): seq<seq<Tree>> { [[Tree.File(path)]] }

  lemma UnsizedIsBarren(h: Host, b: Bounds, path: string)
    requires h.eligible(path) && h.size(path) == None
    ensures RootsBarren(h, b, UnsizedRoot(path)) && CountedUnder(h, b, UnsizedRoot(path)) == 1
    ensures !HoldsUnder(h, b, UnsizedRoot(path), h.abs(path))
  {
    var roots := UnsizedRoot(path);
    assert roots[..0] == [] && roots[0][..0] == [];
    assert MatchesCounted(h, b, roots[0]) == 1;
  }

  /** Such a file is passed over, whatever is in it, and the sweep is complete. */
  method PassOverUnsized(h: Host, b: Bounds, path: string) returns (examined: set<string>, outcome: Outcome)
    requires h.eligible(path) && h.size(path) == None && b.maxFiles > 0
    ensures outcome == Fresh(SOURCE_FILE) && outcome.completed && h.abs(path) !in examined
  {
    hide Accounts, RootsBarren, CountedUnder, HeldUnder, Sweep.Follows, Sweep.AllDone;
    var ctx := new Context(None);
    var limit := new RunCap(1, 1);
    var s := new Sweep(SOURCE_FILE, h, b, ctx, limit);
    UnsizedIsBarren(h, b, path);
    s.Collect(UnsizedRoot(path));
    examined, outcome := s.examined, s.res.Value();
  }

  /** What a finished sweep that says it is complete has reported: every worthwhile file under its roots. */
  lemma CompleteMeansReported(s: Sweep, roots: seq<seq<Tree>>, k: nat, m: nat, path: string)
    requires s.Valid() && s.res.completed && s.Complete(roots)
    requires k < |roots| && m < |roots[k]|
    requires Holds(s.host, s.bounds, s.host.separators(roots[k][m].path), roots[k][m], path)
    ensures Reported(s.host, s.res.observations, path, Uncut(s.host, s.source, s.res.errors, path))
  {
    var a := s.host.abs(path);
    HeldIsHolds(s.host, s.bounds, RootDepth(s.host, roots[k][m]), roots[k][m], a);
    HeldUnderSome(s.host, s.bounds, roots, a);
    assert Done(s.host, s.records, path);
    DoneIsReported(s.host, s.source, s.records, s.res.observations, s.res.errors, path);
  }

  // ── nothing twice ──────────────────────────────────────────────────────────

  datatype Placement = Placement(abs: string, part: nat, leaf: Certificate)

  /** Where, and in which certificate, each observation originates. */
  ghost function Placements(h: Host, records: seq<Record>): seq<Placement>
    requires AllFaithful(h, records)
  {
    if records == [] then [] else
    var r := records[|records| - 1];
    Placements(h, records[..|records| - 1]) +
      seq(r.taken, j requires 0 <= j < r.taken => Placement(h.abs(r.path), r.part, r.found[j].leaf))
  }

  lemma {:induction false} PlacementIsOfRecord(h: Host, records: seq<Record>, x: int)
    requires AllFaithful(h, records) && 0 <= x < |Placements(h, records)|
    ensures exists i :: (0 <= i < |records| && Placements(h, records)[x].part == records[i].part
      && Placements(h, records)[x].abs == h.abs(records[i].path))
  {
    var rest := records[..|records| - 1];
    if x < |Placements(h, rest)| {
      PlacementIsOfRecord(h, rest, x);
      var i :| 0 <= i < |rest| && Placements(h, rest)[x].abs == h.abs(rest[i].path) && Placements(h, rest)[x].part == rest[i].part;
      assert records[i] == rest[i];
    }
  }

  /** No certificate of one part of one file is observed twice, whatever roots overlap and however often
      the file repeats it; and each observation carries its own certificate. */
  lemma {:induction false} NothingTwice(h: Host, source: string, records: seq<Record>, observations: seq<Observation>, completed: bool)
    requires Accounts(h, source, records, observations, completed)
    ensures |Placements(h, records)| == |observations|
    ensures NoDuplicates(Placements(h, records))
    ensures forall x :: 0 <= x < |observations| ==>
      observations[x].certificatePEM == h.pem([Placements(h, records)[x].leaf]) && observations[x].source == source
  {
    hide FoundFor, Parts;
    if records != [] {
      var rest, r := records[..|records| - 1], records[|records| - 1];
      NothingTwice(h, source, rest, AllObservations(h, source, rest), completed);
      var before, all := Placements(h, rest), Placements(h, records);
      assert Faithful(h, r);
      FoundDiffer(h.world(h.abs(r.path), r.part), Parts(h, r.path)[r.part].content, r);
      forall x, y | 0 <= x < y < |all| ensures all[x] != all[y] {
        if x < |before| <= y {
          PlacementIsOfRecord(h, rest, x);
        }
      }
    }
  }

  lemma FoundDiffer(w: World, c: Content, r: Record)
    requires FoundFor(w, c, r.short, r.found)
    ensures forall i, j :: 0 <= i < j < |r.found| ==> r.found[i].leaf != r.found[j].leaf
  {
  }

  // ── from the directory to the server ───────────────────────────────────────

  /** A sweep plays its part in a run: it is the collector whose turn it was. */
  ghost predicate PlaysAs(s: Sweep, cap: Cap, cs: seq<Collector>, i: nat)
    requires i < |cs|
    reads s, s.limit, s.res
  {
    && s.Valid() && cs[i].source == s.source
    && !RunOver(cap, cs[..i]).0.full && s.start == RunOver(cap, cs[..i]).0
    && ScriptOf(cap, cs, i) == s.steps
  }

  /** What the run has as that collector's outcome is the sweep's result. */
  lemma OutcomeIsTheSweeps(s: Sweep, cap: Cap, cs: seq<Collector>, i: nat)
    requires i < |cs| && PlaysAs(s, cap, cs, i)
    ensures RunOver(cap, cs).1[i] == s.res.Value()
  {
    RunOverPrefix(cap, cs, i);
  }

  /** Absence on the server is absence on the host: when the server holds a final page that names the
      sweep, every certificate to be found under its roots is among what the server holds from it. */
  lemma ServerKnowsAll(s: Sweep, roots: seq<seq<Tree>>, cap: Cap, cs: seq<Collector>, i: nat, accepted: seq<Page>, page: Page, k: nat, m: nat, path: string)
    requires Empty(cap) && WellSourced(cap, cs) && i < |cs| && PlaysAs(s, cap, cs, i)
    requires s.res.completed ==> s.Complete(roots)
    requires accepted <= Pages(RunOver(cap, cs).1)
    requires page in accepted && page.final && s.source in page.completedSources
    requires k < |roots| && m < |roots[k]|
    requires Holds(s.host, s.bounds, s.host.separators(roots[k][m].path), roots[k][m], path)
    ensures Reported(s.host, FromSource(Received(accepted), s.source), path, Uncut(s.host, s.source, page.errors, path))
  {
    hide Reported, Pages, RunOver, Played, Offers, FromSource, Received, Holds, Sweep.Valid, Sweep.Complete;
    var j := AbsenceSafety(cap, cs, accepted, page, s.source);
    assert i == j;
    OutcomeIsTheSweeps(s, cap, cs, i);
    CompletedMeansAllRecorded(cap, cs, i);
    CompleteMeansReported(s, roots, k, m, path);
    PageErrorsCover(s, cap, cs, i, accepted, page);
    UncutOnPage(s.host, s.source, s.res.errors, page.errors, path);
    ReportedUncut(s.host, s.res.observations, path, Uncut(s.host, s.source, page.errors, path), Uncut(s.host, s.source, s.res.errors, path));
  }

  /** The final page carries the sweep's own errors. */
  lemma PageErrorsCover(s: Sweep, cap: Cap, cs: seq<Collector>, i: nat, accepted: seq<Page>, page: Page)
    requires i < |cs| && PlaysAs(s, cap, cs, i)
    requires accepted <= Pages(RunOver(cap, cs).1) && page in accepted && page.final
    ensures forall e :: e in s.res.errors ==> e in page.errors
  {
    hide Pages, RunOver, Played, Sweep.Valid;
    var outcomes := RunOver(cap, cs).1;
    OutcomeIsTheSweeps(s, cap, cs, i);
    assert page in Pages(outcomes);
    forall e | e in s.res.errors ensures e in page.errors {
      assert e in outcomes[i].errors;
      ErrorsAreOnTheFinalPage(outcomes, page, e);
    }
  }

  lemma UncutOnPage(h: Host, source: string, errors: seq<Error>, more: seq<Error>, path: string)
    requires forall e :: e in errors ==> e in more
    ensures Uncut(h, source, more, path) ==> Uncut(h, source, errors, path)
  {
  }

  /** Asking for whole chains asks for more. */
  lemma ReportedUncut(h: Host, observations: seq<Observation>, path: string, whole: bool, sure: bool)
    requires Reported(h, observations, path, sure) && (whole ==> sure)
    ensures Reported(h, observations, path, whole)
  {
    hide LeavesAmong, Stands, AllCA;
    forall k, certs, c | ObservedAt(h, observations, path, k, certs, c, sure) ensures ObservedAt(h, observations, path, k, certs, c, whole) {
      var o, p :| o in observations && h.abs(p) == h.abs(path) && Stands(h, o, p, k) && Tells(h, o, path, k, certs, c, sure);
      TellsUncut(h, o, path, k, certs, c, whole, sure);
    }
  }

  lemma TellsUncut(h: Host, o: Observation, path: string, k: nat, certs: seq<Certificate>, c: Certificate, whole: bool, sure: bool)
    requires Tells(h, o, path, k, certs, c, sure) && (whole ==> sure)
    ensures Tells(h, o, path, k, certs, c, whole)
  {
    var chain :| o.chainPEM == h.pem(chain) && IsChain(h.world(h.abs(path), k), certs, c, chain, sure);
    assert IsChain(h.world(h.abs(path), k), certs, c, chain, whole);
  }
}
