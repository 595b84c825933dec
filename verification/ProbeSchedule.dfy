/**
 Probing many sockets at once: one worker a target, a gate of fixed width, and a slot of its own for
 each worker to write. Any interleaving of the workers and of a cancellation is allowed.
 */
module ProbeSchedule {
  import opened Basics
  import opened Run
  import opened Listeners
  import opened Upload

  datatype Worker = NotStarted | AtGate | Probing | Finished

  /** `next` targets have been started; `stopped` says the cancellation was seen before the rest were. */
  datatype State = State(workers: seq<Worker>, slots: seq<ProbeOutcome>, next: nat, stopped: bool)

  /** What probing each target gives, and how wide the gate is. */
  datatype Job = Job(outcomes: seq<ProbeOutcome>, concurrency: nat)

  datatype Step = Start | Cancel | Enter(i: nat) | Finish(i: nat)

  function Initial(job: Job): State {
    State(seq(|job.outcomes|, _ => NotStarted), seq(|job.outcomes|, _ => NO_OUTCOME), 0, false)
  }

  ghost function Inside(s: State): set<nat> { set i: nat | i < |s.workers| && s.workers[i].Probing? }

  /** A step may be taken now. The gate admits a worker only while it has room. */
  ghost predicate Enabled(job: Job, s: State, step: Step) {
    match step
    case Start => !s.stopped && s.next < |s.workers|
    case Cancel => !s.stopped && s.next < |s.workers|
    case Enter(i) => i < |s.workers| && s.workers[i].AtGate? && |Inside(s)| < job.concurrency
    case Finish(i) => i < |s.workers| && s.workers[i].Probing? && |s.workers| == |s.slots| == |job.outcomes|
  }

  function After(job: Job, s: State, step: Step): State {
    match step
    case Start =>
      if s.next < |s.workers| then s.(workers := s.workers[s.next := AtGate], next := s.next + 1) else s
    case Cancel => s.(stopped := true)
    case Enter(i) => if i < |s.workers| then s.(workers := s.workers[i := Probing]) else s
    case Finish(i) =>
      if i < |s.workers| && i < |s.slots| && i < |job.outcomes|
      then s.(workers := s.workers[i := Finished], slots := s.slots[i := job.outcomes[i]]) else s
  }

  function Reached(job: Job, steps: seq<Step>): State {
    if steps == [] then Initial(job) else After(job, Reached(job, steps[..|steps| - 1]), steps[|steps| - 1])
  }

  /** Each step was enabled when it was taken. */
  ghost predicate Legal(job: Job, steps: seq<Step>) {
    steps == [] ||
    (Legal(job, steps[..|steps| - 1]) && Enabled(job, Reached(job, steps[..|steps| - 1]), steps[|steps| - 1]))
  }

  /** s is where these steps, each taken when it was enabled, lead. */
  ghost predicate Runs(job: Job, steps: seq<Step>, s: State) { Legal(job, steps) && s == Reached(job, steps) }

  /** The wait is over: nothing more will be started, and everything started has finished. */
  ghost predicate Done(s: State) {
    && (s.stopped || s.next >= |s.workers|)
    && forall i :: 0 <= i < |s.workers| ==> s.workers[i].NotStarted? || s.workers[i].Finished?
  }

  // ── in every interleaving ──────────────────────────────────────────────────

  /** The gate is never over-full, and a slot holds its own target's outcome once its worker has
      finished and nothing before. */
  ghost predicate Safe(job: Job, s: State) {
    && |s.workers| == |s.slots| == |job.outcomes|
    && s.next <= |s.workers|
    && (s.stopped ==> s.next < |s.workers|)
    && |Inside(s)| <= job.concurrency
    && (forall i :: 0 <= i < |s.workers| ==> (s.workers[i].NotStarted? <==> i >= s.next))
    && (forall i :: 0 <= i < |s.slots| ==>
          s.slots[i] == if s.workers[i].Finished? then job.outcomes[i] else NO_OUTCOME)
  }

  lemma InsideAfter(job: Job, s: State, step: Step)
    requires Safe(job, s) && Enabled(job, s, step)
    ensures |Inside(After(job, s, step))| <= job.concurrency
  {
    var s' := After(job, s, step);
    match step
    case Start => assert Inside(s') == Inside(s);
    case Cancel => assert Inside(s') == Inside(s);
    case Enter(i) => assert Inside(s') == Inside(s) + {i};
    case Finish(i) => assert Inside(s') == Inside(s) - {i};
  }

  lemma StepIsSafe(job: Job, s: State, step: Step)
    requires Safe(job, s) && Enabled(job, s, step)
    ensures Safe(job, After(job, s, step))
  {
    InsideAfter(job, s, step);
    hide Inside;
  }

  lemma {:induction false} EveryRunIsSafe(job: Job, steps: seq<Step>, s: State)
    requires Runs(job, steps, s)
    ensures Safe(job, s)
    decreases |steps|
  {
    if steps == [] {
      assert Inside(s) == {};
    } else {
      var earlier := steps[..|steps| - 1];
      EveryRunIsSafe(job, earlier, Reached(job, earlier));
      StepIsSafe(job, Reached(job, earlier), steps[|steps| - 1]);
    }
  }

  /** A gate with room for anyone never leaves the sweep stuck: until it is over, some step is enabled. */
  lemma NeverStuck(job: Job, steps: seq<Step>, s: State)
    requires job.concurrency > 0 && Runs(job, steps, s) && !Done(s)
    ensures exists step :: Enabled(job, s, step)
  {
    EveryRunIsSafe(job, steps, s);
    if !s.stopped && s.next < |s.workers| {
      assert Enabled(job, s, Start);
    } else {
      var i: nat :| i < |s.workers| && !s.workers[i].NotStarted? && !s.workers[i].Finished?;
      if s.workers[i].Probing? {
        assert Enabled(job, s, Finish(i));
      } else if |Inside(s)| < job.concurrency {
        assert Enabled(job, s, Enter(i));
      } else {
        var j :| j in Inside(s);
        assert Enabled(job, s, Finish(j));
      }
    }
  }

  /** What is left to do: each step takes at least one off. */
  function Remaining(workers: seq<Worker>): nat {
    if workers == [] then 0 else
    Remaining(workers[..|workers| - 1]) +
      match workers[|workers| - 1]
      case NotStarted => 3
      case AtGate => 2
      case Probing => 1
      case Finished => 0
  }

  lemma {:induction false} RemainingUpdate(workers: seq<Worker>, i: nat, w: Worker)
    requires i < |workers|
    ensures Remaining(workers[i := w]) == Remaining(workers) - Remaining([workers[i]]) + Remaining([w])
  {
    var rest, last := workers[..|workers| - 1], workers[|workers| - 1];
    assert Remaining([last]) == Remaining([last][..0]) + Remaining([last]);
    if i == |rest| {
      assert workers[i := w][..|rest|] == rest;
    } else {
      RemainingUpdate(rest, i, w);
      assert workers[i := w][..|rest|] == rest[i := w];
    }
  }

  function Measure(s: State): nat { Remaining(s.workers) + if s.stopped then 0 else 1 }

  /** Every sweep ends: a step always leaves less to do. */
  lemma EveryStepProgresses(job: Job, s: State, step: Step)
    requires Safe(job, s) && Enabled(job, s, step)
    ensures Measure(After(job, s, step)) < Measure(s)
  {
    assert Remaining([NotStarted]) == 3 && Remaining([AtGate]) == 2 && Remaining([Probing]) == 1 && Remaining([Finished]) == 0;
    match step
    case Start => RemainingUpdate(s.workers, s.next, AtGate);
    case Cancel =>
    case Enter(i) => RemainingUpdate(s.workers, i, Probing);
    case Finish(i) => RemainingUpdate(s.workers, i, Finished);
  }

  /** When a sweep is over, the slots hold the outcomes of the targets started, in target order, as if
      they had been probed one by one; all of them unless a cancellation kept some from starting. */
  lemma SameAsOneByOne(job: Job, steps: seq<Step>, s: State)
    requires Runs(job, steps, s) && Done(s)
    ensures s.next <= |job.outcomes| == |s.slots|
    ensures s.slots[..s.next] == job.outcomes[..s.next]
    ensures forall i :: s.next <= i < |s.slots| ==> s.slots[i] == NO_OUTCOME
    ensures s.stopped <==> s.next < |job.outcomes|
  {
    EveryRunIsSafe(job, steps, s);
  }

  // ── into the result ────────────────────────────────────────────────────────

  /** What merging these slots does to the collector's result. */
  function Merged(slots: seq<ProbeOutcome>): seq<Run.Step> {
    if slots == [] then [] else Merged(slots[..|slots| - 1]) + MergedOne(slots[|slots| - 1])
  }

  function MergedOne(out: ProbeOutcome): seq<Run.Step> {
    Offered(out.observations) + Remarked(out.errs) + if out.incomplete then [Missed] else []
  }

  function Offered(os: seq<Observation>): seq<Run.Step> { seq(|os|, i requires 0 <= i < |os| => Offer(os[i])) }

  function Remarked(es: seq<Error>): seq<Run.Step> { seq(|es|, i requires 0 <= i < |es| => Remark(es[i])) }

  /** The script of one listener sweep: whether its targets are the host's own sockets and all of them,
      whether a cancellation stopped it, and what the slots hold. `notes` say why the targets are what
      they are. */
  function Sweep(notes: seq<Error>, ownSockets: bool, cutToLimit: bool, s: State): seq<Run.Step> {
    Remarked(notes) + (if ownSockets then [] else [Missed]) + (if cutToLimit then [Missed] else [])
    + (if s.stopped then [Missed] else []) + Merged(s.slots)
  }

  lemma {:induction false} MergedSawEverything(slots: seq<ProbeOutcome>)
    ensures SawEverything(Merged(slots)) <==> forall i :: 0 <= i < |slots| ==> !slots[i].incomplete
  {
    if slots != [] {
      var rest, last := slots[..|slots| - 1], slots[|slots| - 1];
      MergedSawEverything(rest);
      SawBoth(Merged(rest), MergedOne(last));
      SawBoth(Offered(last.observations) + Remarked(last.errs), if last.incomplete then [Missed] else []);
      SawBoth(Offered(last.observations), Remarked(last.errs));
      assert last.incomplete ==> [Missed][0].Missed?;
    }
  }

  lemma SawBoth(a: seq<Run.Step>, b: seq<Run.Step>)
    ensures SawEverything(a + b) <==> SawEverything(a) && SawEverything(b)
  {
    assert forall i :: 0 <= i < |a| ==> (a + b)[i] == a[i];
    assert forall i :: 0 <= i < |b| ==> (a + b)[|a| + i] == b[i];
  }

  /** A listener sweep may be read as complete only if its targets were the host's own sockets, none was
      cut or left unstarted, and every one of them was probed to a definite end. */
  lemma CompleteMeansEverySocketAnswered(job: Job, steps: seq<Step>, s: State, notes: seq<Error>, ownSockets: bool, cutToLimit: bool)
    requires Runs(job, steps, s) && Done(s)
    ensures SawEverything(Sweep(notes, ownSockets, cutToLimit, s)) <==>
      && ownSockets && !cutToLimit && s.next == |job.outcomes|
      && forall i :: 0 <= i < |job.outcomes| ==> !job.outcomes[i].incomplete
  {
    SameAsOneByOne(job, steps, s);
    MergedSawEverything(s.slots);
    var a := if ownSockets then [] else [Missed];
    var b := if cutToLimit then [Missed] else [];
    var c := if s.stopped then [Missed] else [];
    SawBoth(Remarked(notes) + a + b + c, Merged(s.slots));
    SawBoth(Remarked(notes) + a + b, c);
    SawBoth(Remarked(notes) + a, b);
    SawBoth(Remarked(notes), a);
    assert [Missed][0].Missed?;
    if s.next == |job.outcomes| {
      assert s.slots == job.outcomes by {
        assert s.slots[..s.next] == s.slots && job.outcomes[..s.next] == job.outcomes;
      }
    }
  }

  // ── from the sockets to the server ─────────────────────────────────────────

  lemma {:induction false} OffersOfBoth(a: seq<Run.Step>, b: seq<Run.Step>)
    ensures Offers(a + b) == Offers(a) + Offers(b)
  {
    if b == [] {
      assert a + b == a;
    } else {
      assert (a + b)[..|a + b| - 1] == a + b[..|b| - 1];
      OffersOfBoth(a, b[..|b| - 1]);
    }
  }

  lemma {:induction false} OffersOfOffered(os: seq<Observation>)
    ensures Offers(Offered(os)) == os
  {
    if os != [] {
      assert Offered(os)[..|os| - 1] == Offered(os[..|os| - 1]);
      OffersOfOffered(os[..|os| - 1]);
    }
  }

  /** Everything in a slot is offered. */
  lemma {:induction false} MergedOffersAll(slots: seq<ProbeOutcome>, t: nat, o: Observation)
    requires t < |slots| && o in slots[t].observations
    ensures o in Offers(Merged(slots))
  {
    hide Offers;
    var rest, last := slots[..|slots| - 1], slots[|slots| - 1];
    OffersOfBoth(Merged(rest), MergedOne(last));
    if t < |rest| {
      MergedOffersAll(rest, t, o);
    } else {
      var remarks := Remarked(last.errs) + if last.incomplete then [Missed] else [];
      assert MergedOne(last) == Offered(last.observations) + remarks;
      OffersOfBoth(Offered(last.observations), remarks);
      OffersOfOffered(last.observations);
    }
  }

  lemma SweepOffersAll(notes: seq<Error>, ownSockets: bool, cutToLimit: bool, s: State, t: nat, o: Observation)
    requires t < |s.slots| && o in s.slots[t].observations
    ensures o in Offers(Sweep(notes, ownSockets, cutToLimit, s))
  {
    MergedOffersAll(s.slots, t, o);
    OffersOfBoth(Remarked(notes) + (if ownSockets then [] else [Missed]) + (if cutToLimit then [Missed] else []) + (if s.stopped then [Missed] else []),
                 Merged(s.slots));
  }

  /** Each target's outcome is what probing it under these names amounts to. */
  ghost predicate AllProbed(job: Job, serverNames: seq<string>, probes: nat -> (nat -> Probe), asked: nat -> nat) {
    forall t :: 0 <= t < |job.outcomes| ==> Probed(serverNames, probes(t), asked(t), job.outcomes[t])
  }

  /** Absence on the server is absence from the sockets: when the server holds a final page that names the
      listener, every socket of the host was probed, each one with anything there answered under every
      name, and each certificate it presented is among what the server holds from the listener. */
  lemma ServerKnowsEverySocket(
      cap: Cap, cs: seq<Collector>, i: nat, accepted: seq<Page>, page: Page,
      job: Job, steps: seq<Step>, s: State, notes: seq<Error>, ownSockets: bool, cutToLimit: bool,
      serverNames: seq<string>, probes: nat -> (nat -> Probe), asked: nat -> nat, t: nat, n: nat)
    requires Empty(cap) && WellSourced(cap, cs) && i < |cs|
    requires accepted <= Pages(RunOver(cap, cs).1)
    requires page in accepted && page.final && cs[i].source in page.completedSources
    requires Runs(job, steps, s) && Done(s) && AllProbed(job, serverNames, probes, asked)
    requires ScriptOf(cap, cs, i) == Sweep(notes, ownSockets, cutToLimit, s)
    ensures ownSockets && !cutToLimit && s.next == |job.outcomes|
    ensures t < |job.outcomes| && n <= |serverNames| && !probes(t)(0).NotThere? ==>
      && !probes(t)(n).Unknown?
      && (probes(t)(n).Found? ==>
            Records(FromSource(Received(accepted), cs[i].source), probes(t)(n).o.certificatePEM))
  {
    hide Pages, RunOver, Offers, FromSource, Received, Sweep, FirstDraws, Reached, Legal;
    var j := AbsenceSafety(cap, cs, accepted, page, cs[i].source);
    assert i == j;
    CompleteMeansEverySocketAnswered(job, steps, s, notes, ownSockets, cutToLimit);
    if t < |job.outcomes| && n <= |serverNames| && !probes(t)(0).NotThere? {
      var out := job.outcomes[t];
      DefiniteEnd(serverNames, probes(t), asked(t), out, n);
      if probes(t)(n).Found? {
        SameAsOneByOne(job, steps, s);
        assert s.slots[..s.next][t] == job.outcomes[..s.next][t];
        var k :| 0 <= k < |out.observations| && out.observations[k].certificatePEM == probes(t)(n).o.certificatePEM;
        SweepOffersAll(notes, ownSockets, cutToLimit, s, t, out.observations[k]);
      }
    }
  }
}
