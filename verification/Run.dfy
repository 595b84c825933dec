/**
 One run over the collectors, under one latching limit. A collector is the script of what it does to
 its result: observations it offers, and reasons its sweep is not complete.
 */
module Run {
  import opened Basics

  datatype Observation = Observation(
    certificatePEM: string,
    chainPEM: string,
    source: string,
    location: string,
    privateKeyPresent: bool,
    privateKeyLocation: string)

  datatype Reason = LimitReached | NotRun | Unreadable | StoreCut | ChainsCut | Other(text: string)

  datatype Error = Error(collector: string, location: string, reason: Reason)

  /** One collector's result, as it is reported. */
  datatype Outcome = Outcome(
    source: string,
    observations: seq<Observation>,
    errors: seq<Error>,
    completed: bool,
    capped: bool)

  /** What a collector may do to its result: offer an observation, say that its sweep is not complete,
      or add an error. */
  datatype Step =
    | Offer(o: Observation)
    | Missed
    | Remark(e: Error)

  /** A collector's script may depend on what the earlier collectors found. */
  datatype Collector = Collector(source: string, script: seq<Outcome> -> seq<Step>)

  function Size(o: Observation): nat { |o.certificatePEM| + |o.chainPEM| }

  function Sizes(os: seq<Observation>): nat {
    if os == [] then 0 else Sizes(os[..|os| - 1]) + Size(os[|os| - 1])
  }

  /** The run's limits and what it has reported so far. */
  datatype Cap = Cap(maxCount: nat, maxBytes: nat, count: nat, bytes: nat, full: bool) {
    predicate HasRoom(o: Observation) {
      !full && count + 1 <= maxCount && bytes + Size(o) <= maxBytes
    }

    predicate Fits(os: seq<Observation>) { |os| <= maxCount && Sizes(os) <= maxBytes }
  }

  function Fresh(source: string): Outcome { Outcome(source, [], [], true, false) }

  function Skipped(source: string): Outcome {
    Outcome(source, [], [Error(source, "", NotRun)], false, true)
  }

  // ── what a step, a script and a run do, on values ──────────────────────────

  function Refused(r: Outcome): Outcome {
    if r.capped then r
    else r.(capped := true, completed := false, errors := r.errors + [Error(r.source, "", LimitReached)])
  }

  function After(cap: Cap, r: Outcome, step: Step): (Cap, Outcome) {
    match step
    case Offer(o) =>
      if cap.HasRoom(o)
      then (cap.(count := cap.count + 1, bytes := cap.bytes + Size(o)), r.(observations := r.observations + [o]))
      else (cap.(full := true), Refused(r))
    case Missed => (cap, r.(completed := false))
    case Remark(e) => (cap, r.(errors := r.errors + [e]))
  }

  function Played(cap: Cap, r: Outcome, steps: seq<Step>): (Cap, Outcome) {
    if steps == [] then (cap, r) else
    var (cap', r') := Played(cap, r, steps[..|steps| - 1]);
    After(cap', r', steps[|steps| - 1])
  }

  function Collected(cap: Cap, c: Collector, earlier: seq<Outcome>): (Cap, Outcome) {
    if cap.full then (cap, Skipped(c.source)) else Played(cap, Fresh(c.source), c.script(earlier))
  }

  function RunOver(cap: Cap, cs: seq<Collector>): (r: (Cap, seq<Outcome>))
    ensures |r.1| == |cs|
  {
    if cs == [] then (cap, []) else
    var (before, earlier) := RunOver(cap, cs[..|cs| - 1]);
    var (after, outcome) := Collected(before, cs[|cs| - 1], earlier);
    (after, earlier + [outcome])
  }

  /** Everything a script offers. */
  function Offers(steps: seq<Step>): seq<Observation> {
    if steps == [] then [] else
    var before := Offers(steps[..|steps| - 1]);
    match steps[|steps| - 1]
    case Offer(o) => before + [o]
    case _ => before
  }

  predicate SawEverything(steps: seq<Step>) { forall i :: 0 <= i < |steps| ==> !steps[i].Missed? }

  /** What collector i would do in this run, and so everything the run is asked to record. */
  function ScriptOf(cap: Cap, cs: seq<Collector>, i: nat): seq<Step>
    requires i < |cs|
  {
    cs[i].script(RunOver(cap, cs[..i]).1)
  }

  function Offered(cap: Cap, cs: seq<Collector>): seq<Observation> {
    if cs == [] then [] else
    Offered(cap, cs[..|cs| - 1]) + Offers(cs[|cs| - 1].script(RunOver(cap, cs[..|cs| - 1]).1))
  }

  function Recorded(outcomes: seq<Outcome>): seq<Observation> {
    if outcomes == [] then [] else Recorded(outcomes[..|outcomes| - 1]) + outcomes[|outcomes| - 1].observations
  }

  /** recorded is the longest prefix of the stream that fits the limits. */
  ghost predicate LongestFitting(cap: Cap, recorded: seq<Observation>, stream: seq<Observation>) {
    && recorded <= stream
    && cap.Fits(recorded)
    && (recorded < stream ==> !cap.Fits(stream[..|recorded| + 1]))
  }

  // ── one script ─────────────────────────────────────────────────────────────

  /** cap stands where `done` recorded observations of the stream `asked` put it. */
  ghost predicate StandsAt(cap: Cap, done: seq<Observation>, asked: seq<Observation>) {
    && cap.count == |done| && cap.bytes == Sizes(done)
    && done <= asked && cap.Fits(done)
    && (cap.full <==> done < asked)
    && (cap.full ==> !cap.Fits(asked[..|done| + 1]))
  }

  lemma {:induction false} SizesOfPrefix(os: seq<Observation>, i: nat)
    requires i <= |os|
    ensures Sizes(os[..i]) <= Sizes(os)
    decreases |os| - i
  {
    if i == |os| {
      assert os[..i] == os;
    } else {
      SizesOfPrefix(os, i + 1);
      assert os[..i + 1][..i] == os[..i];
    }
  }

  lemma StandsAfterOffer(cap: Cap, r: Outcome, o: Observation, done: seq<Observation>, asked: seq<Observation>)
    requires StandsAt(cap, done, asked)
    ensures var (cap', r') := After(cap, r, Offer(o));
      StandsAt(cap', if cap.HasRoom(o) then done + [o] else done, asked + [o])
  {
    assert (done + [o])[..|done|] == done;
    if cap.HasRoom(o) {
      assert done == asked;
    } else if !cap.full {
      assert done == asked;
      assert (asked + [o])[..|done| + 1] == done + [o];
    } else {
      assert (asked + [o])[..|done| + 1] == asked[..|done| + 1];
    }
  }

  /** Playing a script records a first part of what it offers, all of it exactly when the run did not
      fill up, and leaves it complete only if all was recorded and nothing was missed. */
  lemma {:induction false} PlayedResult(cap: Cap, source: string, steps: seq<Step>)
    requires !cap.full
    ensures var (cap', r) := Played(cap, Fresh(source), steps);
      && cap'.maxCount == cap.maxCount && cap'.maxBytes == cap.maxBytes
      && r.source == source
      && r.observations <= Offers(steps)
      && (r.capped <==> cap'.full)
      && (r.capped <==> |r.observations| < |Offers(steps)|)
      && (r.completed <==> !r.capped && SawEverything(steps))
  {
    if steps != [] {
      var rest, step := steps[..|steps| - 1], steps[|steps| - 1];
      PlayedResult(cap, source, rest);
      assert SawEverything(steps) <==> SawEverything(rest) && !step.Missed?;
    }
  }

  /** How often a list of errors says that the run's limit was reached. */
  function LimitNotes(errors: seq<Error>): nat {
    if errors == [] then 0 else
    LimitNotes(errors[..|errors| - 1]) + if errors[|errors| - 1].reason == LimitReached then 1 else 0
  }

  /** The collector does not speak of the limit itself, and these are the errors it does speak of. */
  predicate Reticent(steps: seq<Step>) {
    forall i :: 0 <= i < |steps| && steps[i].Remark? ==> steps[i].e.reason != LimitReached
  }

  /** A result says that the limit was reached exactly once if it was cut short by it, and else never. */
  lemma {:induction false} LimitIsSaidOnce(cap: Cap, source: string, steps: seq<Step>)
    requires Reticent(steps)
    ensures var (_, r) := Played(cap, Fresh(source), steps);
      && LimitNotes(r.errors) == (if r.capped then 1 else 0)
      && (r.capped ==> Error(source, "", LimitReached) in r.errors)
      && r.source == source
  {
    if steps != [] {
      var rest, step := steps[..|steps| - 1], steps[|steps| - 1];
      LimitIsSaidOnce(cap, source, rest);
      var (mid, r) := Played(cap, Fresh(source), rest);
      if step.Remark? {
        assert (r.errors + [step.e])[..|r.errors|] == r.errors;
      } else if step.Offer? && !r.capped {
        var limit := Error(source, "", LimitReached);
        assert (r.errors + [limit])[..|r.errors|] == r.errors;
        assert (r.errors + [limit])[|r.errors|] == limit;
      }
    }
  }

  lemma {:induction false} PlayedStands(cap: Cap, source: string, steps: seq<Step>, done: seq<Observation>, asked: seq<Observation>)
    requires StandsAt(cap, done, asked)
    ensures var (cap', r) := Played(cap, Fresh(source), steps);
      StandsAt(cap', done + r.observations, asked + Offers(steps))
  {
    if steps == [] {
      assert done + [] == done && asked + [] == asked;
    } else {
      var rest, step := steps[..|steps| - 1], steps[|steps| - 1];
      PlayedStands(cap, source, rest, done, asked);
      if step.Offer? {
        var (mid, r) := Played(cap, Fresh(source), rest);
        StandsAfterOffer(mid, r, step.o, done + r.observations, asked + Offers(rest));
        assert done + r.observations + [step.o] == done + (r.observations + [step.o]);
        assert asked + Offers(rest) + [step.o] == asked + Offers(steps);
      }
    }
  }

  // ── a whole run ────────────────────────────────────────────────────────────

  predicate Empty(cap: Cap) { cap.count == 0 && cap.bytes == 0 && !cap.full }

  lemma {:induction false} RunStands(cap: Cap, cs: seq<Collector>)
    requires Empty(cap)
    ensures var (cap', outcomes) := RunOver(cap, cs);
      && StandsAt(cap', Recorded(outcomes), Offered(cap, cs))
      && cap'.maxCount == cap.maxCount && cap'.maxBytes == cap.maxBytes
  {
    if cs != [] {
      var rest, c := cs[..|cs| - 1], cs[|cs| - 1];
      RunStands(cap, rest);
      var (mid, earlier) := RunOver(cap, rest);
      var (after, outcome) := Collected(mid, c, earlier);
      var done, asked := Recorded(earlier), Offered(cap, rest);
      assert (earlier + [outcome])[..|earlier|] == earlier;
      var more := Offers(c.script(earlier));
      if mid.full {
        assert done + [] == done;
        assert (asked + more)[..|done| + 1] == asked[..|done| + 1];
      } else {
        PlayedResult(mid, c.source, c.script(earlier));
        PlayedStands(mid, c.source, c.script(earlier), done, asked);
      }
    }
  }

  /** Whatever the collectors offer and whatever the limits, the run records the longest prefix of
      what it is offered that stays within both, and says it filled up exactly when that is short. */
  lemma RunRecordsLongestFitting(cap: Cap, cs: seq<Collector>)
    requires Empty(cap)
    ensures var (cap', outcomes) := RunOver(cap, cs);
      && LongestFitting(cap, Recorded(outcomes), Offered(cap, cs))
      && (cap'.full <==> Recorded(outcomes) != Offered(cap, cs))
  {
    RunStands(cap, cs);
  }

  lemma {:induction false} RunOverPrefix(cap: Cap, cs: seq<Collector>, i: nat)
    requires i < |cs|
    ensures RunOver(cap, cs[..i]).1 == RunOver(cap, cs).1[..i]
    ensures RunOver(cap, cs).1[i] == Collected(RunOver(cap, cs[..i]).0, cs[i], RunOver(cap, cs[..i]).1).1
  {
    var rest := cs[..|cs| - 1];
    if i == |rest| {
      assert cs[..i] == rest;
    } else {
      RunOverPrefix(cap, rest, i);
      assert rest[..i] == cs[..i];
    }
  }

  /** A source is complete exactly when it ran, missed nothing, and everything it offered was recorded. */
  lemma CompletedMeansAllRecorded(cap: Cap, cs: seq<Collector>, i: nat)
    requires Empty(cap) && i < |cs|
    ensures var r := RunOver(cap, cs).1[i];
      && r.source == cs[i].source
      && (r.completed <==>
            && !RunOver(cap, cs[..i]).0.full
            && r.observations == Offers(ScriptOf(cap, cs, i))
            && SawEverything(ScriptOf(cap, cs, i)))
  {
    RunOverPrefix(cap, cs, i);
    RunStands(cap, cs[..i]);
    var (mid, earlier) := RunOver(cap, cs[..i]);
    if !mid.full {
      PlayedResult(mid, cs[i].source, cs[i].script(earlier));
    }
  }

  /** A collector whose turn comes when the run is full is not run, and its result says so. */
  lemma NotRunIsSaid(cap: Cap, cs: seq<Collector>, i: nat)
    requires i < |cs| && RunOver(cap, cs[..i]).0.full
    ensures RunOver(cap, cs).1[i] == Outcome(cs[i].source, [], [Error(cs[i].source, "", NotRun)], false, true)
  {
    RunOverPrefix(cap, cs, i);
  }

  /** Some result was cut short by the run's limits exactly when the limit was reached. */
  lemma {:induction false} CappedMeansFull(cap: Cap, cs: seq<Collector>)
    requires Empty(cap)
    ensures var (cap', outcomes) := RunOver(cap, cs);
      cap'.full <==> exists i :: 0 <= i < |outcomes| && outcomes[i].capped
  {
    if cs != [] {
      var rest, c := cs[..|cs| - 1], cs[|cs| - 1];
      CappedMeansFull(cap, rest);
      RunStands(cap, rest);
      var (mid, earlier) := RunOver(cap, rest);
      var (after, outcome) := Collected(mid, c, earlier);
      var outcomes := earlier + [outcome];
      if mid.full {
        assert outcomes[|earlier|].capped;
      } else {
        PlayedResult(mid, c.source, c.script(earlier));
        assert forall i :: 0 <= i < |earlier| ==> !outcomes[i].capped;
        assert outcomes[|earlier|] == outcome;
      }
    }
  }

  // ── the run as the agent performs it ───────────────────────────────────────

  class RunCap {
    const maxCount: nat
    const maxBytes: nat
    var count: nat
    var bytes: nat
    var full: bool

    constructor (maxCount: nat, maxBytes: nat)
      ensures Value() == Cap(maxCount, maxBytes, 0, 0, false)
    {
      this.maxCount, this.maxBytes := maxCount, maxBytes;
      count, bytes, full := 0, 0, false;
    }

    function Value(): Cap
      reads this
    {
      Cap(maxCount, maxBytes, count, bytes, full)
    }
  }

  class Result {
    const source: string
    var observations: seq<Observation>
    var errors: seq<Error>
    var completed: bool
    var capped: bool

    constructor (source: string)
      ensures Value() == Fresh(source) && this.source == source
    {
      this.source := source;
      observations, errors, completed, capped := [], [], true, false;
    }

    function Value(): Outcome
      reads this
    {
      Outcome(source, observations, errors, completed, capped)
    }

    /** Adds o while the run has room for it; the first refusal marks the result incomplete and says
        so once. Outside a run there is no limit. */
    method Observe(limit: RunCap?, o: Observation) returns (recorded: bool)
      modifies this, limit
      ensures limit == null ==> recorded && Value() == old(Value()).(observations := old(observations) + [o])
      ensures limit != null ==>
        && (limit.Value(), Value()) == After(old(limit.Value()), old(Value()), Offer(o))
        && recorded == old(limit.Value()).HasRoom(o)
    {
      if limit == null {
        observations := observations + [o];
        return true;
      }
      var size := Size(o);
      if limit.full || limit.count + 1 > limit.maxCount || limit.bytes + size > limit.maxBytes {
        limit.full := true;
        if !capped {
          capped, completed := true, false;
          errors := errors + [Error(source, "", LimitReached)];
        }
        return false;
      }
      limit.count := limit.count + 1;
      limit.bytes := limit.bytes + size;
      observations := observations + [o];
      return true;
    }

    method MarkIncomplete()
      modifies this
      ensures Value() == old(Value()).(completed := false)
    {
      completed := false;
    }

    method Note(e: Error)
      modifies this
      ensures Value() == old(Value()).(errors := old(errors) + [e])
    {
      errors := errors + [e];
    }
  }

  /** One collector at work under the run's limit. */
  method Collect(c: Collector, earlier: seq<Outcome>, limit: RunCap) returns (outcome: Outcome)
    modifies limit
    ensures (limit.Value(), outcome) == Played(old(limit.Value()), Fresh(c.source), c.script(earlier))
  {
    var steps := c.script(earlier);
    var res := new Result(c.source);
    for i := 0 to |steps|
      invariant fresh(res) && res.source == c.source
      invariant (limit.Value(), res.Value()) == Played(old(limit.Value()), Fresh(c.source), steps[..i])
    {
      assert steps[..i + 1][..i] == steps[..i];
      match steps[i]
      case Offer(o) =>
        var _ := res.Observe(limit, o);
      case Missed =>
        res.MarkIncomplete();
      case Remark(e) =>
        res.Note(e);
    }
    assert steps[..|steps|] == steps;
    outcome := res.Value();
  }

  /** The collectors this host has not disabled, in their order. */
  function Enabled(cs: seq<Collector>, disabled: seq<string>): seq<Collector> {
    if cs == [] then [] else
    var before := Enabled(cs[..|cs| - 1], disabled);
    if cs[|cs| - 1].source in disabled then before else before + [cs[|cs| - 1]]
  }

  method RunWithin(all: seq<Collector>, disabled: seq<string>, limit: RunCap) returns (outcomes: seq<Outcome>)
    modifies limit
    ensures (limit.Value(), outcomes) == RunOver(old(limit.Value()), Enabled(all, disabled))
  {
    outcomes := [];
    for i := 0 to |all|
      invariant (limit.Value(), outcomes) == RunOver(old(limit.Value()), Enabled(all[..i], disabled))
    {
      assert all[..i + 1][..i] == all[..i];
      ghost var enabled := Enabled(all[..i], disabled);
      assert (enabled + [all[i]])[..|enabled|] == enabled;
      if all[i].source in disabled {
        continue;
      }
      if limit.full {
        outcomes := outcomes + [Skipped(all[i].source)];
        continue;
      }
      var outcome := Collect(all[i], outcomes, limit);
      outcomes := outcomes + [outcome];
    }
    assert all[..|all|] == all;
  }

  method ReachedRunLimit(outcomes: seq<Outcome>) returns (reached: bool)
    ensures reached <==> exists i :: 0 <= i < |outcomes| && outcomes[i].capped
  {
    for i := 0 to |outcomes|
      invariant forall j :: 0 <= j < i ==> !outcomes[j].capped
    {
      if outcomes[i].capped {
        return true;
      }
    }
    return false;
  }
}
