/**
 Paging a run to the server. A page may be lost, refused, or accepted without the agent hearing of
 it; the server believes a source's silence only from an accepted final page that names it.
 */
module Upload {
  import opened Basics
  import opened Run

  const MAX_OBSERVATIONS_PER_PAGE: nat := 500

  datatype Page = Page(final: bool, observations: seq<Observation>, completedSources: seq<string>, errors: seq<Error>)

  /** What becomes of one upload. A success the agent hears of is one the server accepted. */
  datatype Delivery = Acknowledged | AcceptedUnheard | Lost

  // ── the pages of a run ─────────────────────────────────────────────────────

  function Chunks<T>(all: seq<T>, size: nat): seq<seq<T>>
    requires size > 0
  {
    if |all| > size then [all[..size]] + Chunks(all[size..], size)
    else if |all| > 0 then [all]
    else []
  }

  /** Paging loses nothing, repeats nothing and keeps the order; no page is empty or too large. */
  lemma {:induction false} ChunksPartition<T>(all: seq<T>, size: nat)
    requires size > 0
    ensures Concat(Chunks(all, size)) == all
    ensures forall c :: c in Chunks(all, size) ==> 0 < |c| <= size
  {
    hide Concat;
    if |all| > size {
      var rest := Chunks(all[size..], size);
      ChunksPartition(all[size..], size);
      ConcatStep(all[..size], rest);
      assert all == all[..size] + all[size..];
      assert forall c :: c in [all[..size]] + rest ==> c == all[..size] || c in rest;
    } else if |all| > 0 {
      ConcatStep(all, []);
      assert [all] + [] == [all] && all + [] == all;
    } else {
      ConcatNothing<T>();
    }
  }

  lemma ConcatStep<T>(part: seq<T>, parts: seq<seq<T>>)
    ensures Concat([part] + parts) == part + Concat(parts)
    ensures parts == [] ==> Concat([part] + parts) == part
  {
    assert ([part] + parts)[1..] == parts;
  }

  lemma ConcatNothing<T>()
    ensures Concat<T>([]) == []
  {
  }

  function Concat<T>(parts: seq<seq<T>>): seq<T> {
    if parts == [] then [] else parts[0] + Concat(parts[1..])
  }

  function AllErrors(outcomes: seq<Outcome>): seq<Error> {
    if outcomes == [] then [] else AllErrors(outcomes[..|outcomes| - 1]) + outcomes[|outcomes| - 1].errors
  }

  /** Only a collector that finished its whole sweep. */
  function CompletedSources(outcomes: seq<Outcome>): seq<string> {
    if outcomes == [] then [] else
    var before, r := CompletedSources(outcomes[..|outcomes| - 1]), outcomes[|outcomes| - 1];
    if r.completed then before + [r.source] else before
  }

  function Bodies(outcomes: seq<Outcome>): (bodies: seq<seq<Observation>>)
    ensures bodies != []
  {
    var chunks := Chunks(Recorded(outcomes), MAX_OBSERVATIONS_PER_PAGE);
    if chunks == [] then [[]] else chunks
  }

  function PageAt(outcomes: seq<Outcome>, i: nat): Page
    requires i < |Bodies(outcomes)|
  {
    if i == |Bodies(outcomes)| - 1
    then Page(true, Bodies(outcomes)[i], CompletedSources(outcomes), AllErrors(outcomes))
    else Page(false, Bodies(outcomes)[i], [], [])
  }

  function Pages(outcomes: seq<Outcome>): (pages: seq<Page>)
    ensures |pages| == |Bodies(outcomes)|
  {
    seq(|Bodies(outcomes)|, i requires 0 <= i < |Bodies(outcomes)| => PageAt(outcomes, i))
  }

  // ── the exchange ───────────────────────────────────────────────────────────

  class Server {
    const deliveries: nat -> Delivery
    var attempts: nat
    var accepted: seq<Page>

    constructor (deliveries: nat -> Delivery)
      ensures this.deliveries == deliveries && attempts == 0 && accepted == []
    {
      this.deliveries := deliveries;
      attempts, accepted := 0, [];
    }

    ghost predicate HearsAll(first: nat, n: nat) {
      forall k: nat :: first <= k < first + n ==> deliveries(k).Acknowledged?
    }

    method Inventory(page: Page) returns (ok: bool)
      modifies this
      ensures attempts == old(attempts) + 1
      ensures accepted == if deliveries(old(attempts)).Lost? then old(accepted) else old(accepted) + [page]
      ensures ok == deliveries(old(attempts)).Acknowledged?
    {
      var delivery := deliveries(attempts);
      attempts := attempts + 1;
      if !delivery.Lost? {
        accepted := accepted + [page];
      }
      ok := delivery.Acknowledged?;
    }
  }

  method Chunk(all: seq<Observation>, size: nat) returns (chunks: seq<seq<Observation>>)
    requires size > 0
    ensures chunks == Chunks(all, size)
  {
    chunks := [];
    var rest := all;
    while |rest| > size
      invariant chunks + Chunks(rest, size) == Chunks(all, size)
    {
      assert chunks + Chunks(rest, size) == chunks + [rest[..size]] + Chunks(rest[size..], size);
      chunks := chunks + [rest[..size]];
      rest := rest[size..];
    }
    if |rest| > 0 {
      chunks := chunks + [rest];
    }
  }

  /** Uploads one run, page after page, stopping at the first failure. Whatever is lost, the server
      holds a first part of the run's pages; all of them when every upload is acknowledged. */
  method Report(server: Server, outcomes: seq<Outcome>) returns (ok: bool)
    modifies server
    ensures old(server.accepted) <= server.accepted
    ensures server.accepted[|old(server.accepted)|..] <= Pages(outcomes)
    ensures ok <==> server.HearsAll(old(server.attempts), |Pages(outcomes)|)
    ensures ok ==> server.accepted == old(server.accepted) + Pages(outcomes)
  {
    var observations, errors, completed := [], [], [];
    for i := 0 to |outcomes|
      invariant observations == Recorded(outcomes[..i])
      invariant errors == AllErrors(outcomes[..i])
      invariant completed == CompletedSources(outcomes[..i])
    {
      assert outcomes[..i + 1][..i] == outcomes[..i];
      observations := observations + outcomes[i].observations;
      errors := errors + outcomes[i].errors;
      if outcomes[i].completed {
        completed := completed + [outcomes[i].source];
      }
    }
    assert outcomes[..|outcomes|] == outcomes;
    var bodies := Chunk(observations, MAX_OBSERVATIONS_PER_PAGE);
    if |bodies| == 0 {
      bodies := [[]];
    }
    ok := Send(server, bodies, completed, errors, Pages(outcomes));
  }

  /** Page after page, up to the first that is not acknowledged. */
  method Send(server: Server, bodies: seq<seq<Observation>>, completed: seq<string>, errors: seq<Error>, ghost pages: seq<Page>)
    returns (ok: bool)
    requires |pages| == |bodies|
    requires forall i :: 0 <= i < |bodies| - 1 ==> pages[i] == Page(false, bodies[i], [], [])
    requires |bodies| > 0 ==> pages[|bodies| - 1] == Page(true, bodies[|bodies| - 1], completed, errors)
    modifies server
    ensures old(server.accepted) <= server.accepted
    ensures server.accepted[|old(server.accepted)|..] <= pages
    ensures ok <==> server.HearsAll(old(server.attempts), |pages|)
    ensures ok ==> server.accepted == old(server.accepted) + pages
  {
    for i := 0 to |bodies|
      invariant server.attempts == old(server.attempts) + i
      invariant server.accepted == old(server.accepted) + pages[..i]
      invariant server.HearsAll(old(server.attempts), i)
    {
      var final := i == |bodies| - 1;
      var page := Page(final, bodies[i], if final then completed else [], if final then errors else []);
      assert pages[..i + 1] == pages[..i] + [page];
      ok := server.Inventory(page);
      if !ok {
        ghost var n := |server.accepted| - |old(server.accepted)|;
        assert server.accepted == old(server.accepted) + pages[..n];
        return;
      }
    }
    assert pages[..|bodies|] == pages;
    ok := true;
  }

  // ── when silence may be read as absence ────────────────────────────────────

  function Received(pages: seq<Page>): seq<Observation> {
    if pages == [] then [] else pages[0].observations + Received(pages[1..])
  }

  function FromSource(os: seq<Observation>, source: string): seq<Observation> {
    if os == [] then [] else
    var before := FromSource(os[..|os| - 1], source);
    if os[|os| - 1].source == source then before + [os[|os| - 1]] else before
  }

  lemma {:induction false} FromSourceConcat(a: seq<Observation>, b: seq<Observation>, source: string)
    ensures FromSource(a + b, source) == FromSource(a, source) + FromSource(b, source)
  {
    if b == [] {
      assert a + b == a;
    } else {
      assert (a + b)[..|a + b| - 1] == a + b[..|b| - 1];
      FromSourceConcat(a, b[..|b| - 1], source);
    }
  }

  /** All observations are of one source: filtering by it keeps all, by another keeps none. */
  lemma {:induction false} FromOneSource(os: seq<Observation>, source: string, other: string)
    requires forall o :: o in os ==> o.source == source
    ensures FromSource(os, other) == if source == other then os else []
  {
    if os != [] {
      FromOneSource(os[..|os| - 1], source, other);
      assert os[|os| - 1] in os;
    }
  }

  /** The collectors have distinct names, and each marks what it offers with its own. */
  ghost predicate WellSourced(cap: Cap, cs: seq<Collector>) {
    && (forall i, j :: 0 <= i < j < |cs| ==> cs[i].source != cs[j].source)
    && (forall i :: 0 <= i < |cs| ==> forall o :: o in Offers(ScriptOf(cap, cs, i)) ==> o.source == cs[i].source)
  }

  lemma {:induction false} ReceivedPrefix(pages: seq<Page>, bodies: seq<seq<Observation>>)
    requires |pages| == |bodies|
    requires forall i :: 0 <= i < |pages| ==> pages[i].observations == bodies[i]
    ensures Received(pages) == Concat(bodies)
  {
    if pages != [] {
      ReceivedPrefix(pages[1..], bodies[1..]);
    }
  }

  /** A server that holds a final page of this run holds all of the run, in order, each page once. */
  lemma FinalPageComesLast(outcomes: seq<Outcome>, accepted: seq<Page>, page: Page)
    requires accepted <= Pages(outcomes)
    requires page in accepted && page.final
    ensures accepted == Pages(outcomes)
    ensures Received(accepted) == Recorded(outcomes)
    ensures page.completedSources == CompletedSources(outcomes)
  {
    var k :| 0 <= k < |accepted| && accepted[k] == page;
    assert accepted[k] == Pages(outcomes)[k] == PageAt(outcomes, k);
    assert accepted == Pages(outcomes);
    ReceivedPrefix(accepted, Bodies(outcomes));
    ChunksPartition(Recorded(outcomes), MAX_OBSERVATIONS_PER_PAGE);
    assert Concat<Observation>([[]]) == [];
  }

  lemma {:induction false} NamedIffCompleted(outcomes: seq<Outcome>, source: string)
    ensures source in CompletedSources(outcomes) <==>
      exists i :: 0 <= i < |outcomes| && outcomes[i].completed && outcomes[i].source == source
  {
    if outcomes != [] {
      var rest, r := outcomes[..|outcomes| - 1], outcomes[|outcomes| - 1];
      NamedIffCompleted(rest, source);
      assert outcomes[|rest|] == r;
      if source in CompletedSources(rest) {
        var i :| 0 <= i < |rest| && rest[i].completed && rest[i].source == source;
        assert outcomes[i].completed;
      }
    }
  }

  ghost predicate OwnSourceOnly(r: Outcome) { forall o :: o in r.observations ==> o.source == r.source }

  lemma {:induction false} NothingFromOthers(outcomes: seq<Outcome>, source: string)
    requires forall k :: 0 <= k < |outcomes| ==> OwnSourceOnly(outcomes[k]) && outcomes[k].source != source
    ensures FromSource(Recorded(outcomes), source) == []
  {
    if outcomes != [] {
      var rest, r := outcomes[..|outcomes| - 1], outcomes[|outcomes| - 1];
      NothingFromOthers(rest, source);
      FromSourceConcat(Recorded(rest), r.observations, source);
      FromOneSource(r.observations, r.source, source);
    }
  }

  /** Of what was recorded, what carries one collector's name is that collector's own result. */
  lemma {:induction false} RecordedOfSource(outcomes: seq<Outcome>, i: nat)
    requires i < |outcomes|
    requires forall k :: 0 <= k < |outcomes| ==> OwnSourceOnly(outcomes[k])
    requires forall k :: 0 <= k < |outcomes| && k != i ==> outcomes[k].source != outcomes[i].source
    ensures FromSource(Recorded(outcomes), outcomes[i].source) == outcomes[i].observations
  {
    var rest, r := outcomes[..|outcomes| - 1], outcomes[|outcomes| - 1];
    var source := outcomes[i].source;
    FromSourceConcat(Recorded(rest), r.observations, source);
    FromOneSource(r.observations, r.source, source);
    if i < |rest| {
      RecordedOfSource(rest, i);
    } else {
      NothingFromOthers(rest, source);
    }
  }

  lemma OutcomesAreTheirOwn(cap: Cap, cs: seq<Collector>, i: nat)
    requires Empty(cap) && WellSourced(cap, cs) && i < |cs|
    ensures FromSource(Recorded(RunOver(cap, cs).1), cs[i].source) == RunOver(cap, cs).1[i].observations
  {
    var outcomes := RunOver(cap, cs).1;
    forall k | 0 <= k < |outcomes| ensures OwnSourceOnly(outcomes[k]) && outcomes[k].source == cs[k].source {
      CompletedMeansAllRecorded(cap, cs, k);
      OutcomeIsPartOfOffers(cap, cs, k);
    }
    RecordedOfSource(outcomes, i);
  }

  lemma OutcomeIsPartOfOffers(cap: Cap, cs: seq<Collector>, i: nat)
    requires Empty(cap) && i < |cs|
    ensures RunOver(cap, cs).1[i].observations <= Offers(ScriptOf(cap, cs, i))
  {
    RunOverPrefix(cap, cs, i);
    var (mid, earlier) := RunOver(cap, cs[..i]);
    if !mid.full {
      PlayedResult(mid, cs[i].source, cs[i].script(earlier));
    }
  }

  /** Absence safety, end to end: if the server holds a final page that names a source, then that
      source's collector missed nothing, and what the server holds under its name is exactly what the
      collector offered, each observation once and in order. */
  lemma AbsenceSafety(cap: Cap, cs: seq<Collector>, accepted: seq<Page>, page: Page, source: string) returns (i: nat)
    requires Empty(cap) && WellSourced(cap, cs)
    requires accepted <= Pages(RunOver(cap, cs).1)
    requires page in accepted && page.final && source in page.completedSources
    ensures i < |cs| && cs[i].source == source
    ensures RunOver(cap, cs).1[i].completed && SawEverything(ScriptOf(cap, cs, i))
    ensures FromSource(Received(accepted), source) == Offers(ScriptOf(cap, cs, i))
  {
    var outcomes := RunOver(cap, cs).1;
    FinalPageComesLast(outcomes, accepted, page);
    NamedIffCompleted(outcomes, source);
    i :| 0 <= i < |outcomes| && outcomes[i].completed && outcomes[i].source == source;
    CompletedMeansAllRecorded(cap, cs, i);
    OutcomesAreTheirOwn(cap, cs, i);
  }

  /** The other way round: a source that was cut short or missed something is never named. */
  lemma UnseenIsNeverNamed(cap: Cap, cs: seq<Collector>, accepted: seq<Page>, page: Page, i: nat)
    requires Empty(cap) && WellSourced(cap, cs) && i < |cs|
    requires accepted <= Pages(RunOver(cap, cs).1)
    requires page in accepted && page.final
    requires Offers(ScriptOf(cap, cs, i)) != RunOver(cap, cs).1[i].observations || !SawEverything(ScriptOf(cap, cs, i))
    ensures cs[i].source !in page.completedSources
  {
    if cs[i].source in page.completedSources {
      var j := AbsenceSafety(cap, cs, accepted, page, cs[i].source);
      assert i == j;
      OutcomesAreTheirOwn(cap, cs, i);
      FinalPageComesLast(RunOver(cap, cs).1, accepted, page);
    }
  }

  lemma {:induction false} AllErrorsAreTheirs(outcomes: seq<Outcome>, e: Error)
    ensures e in AllErrors(outcomes) <==> exists i :: 0 <= i < |outcomes| && e in outcomes[i].errors
  {
    if outcomes != [] {
      var rest := outcomes[..|outcomes| - 1];
      AllErrorsAreTheirs(rest, e);
      assert forall i :: 0 <= i < |rest| ==> rest[i] == outcomes[i];
    }
  }

  /** The final page carries every error of every collector and no other; the pages before it carry none. */
  lemma ErrorsAreOnTheFinalPage(outcomes: seq<Outcome>, page: Page, e: Error)
    requires page in Pages(outcomes)
    ensures e in page.errors <==> page.final && exists i :: 0 <= i < |outcomes| && e in outcomes[i].errors
  {
    var k :| 0 <= k < |Pages(outcomes)| && Pages(outcomes)[k] == page;
    assert page == PageAt(outcomes, k);
    AllErrorsAreTheirs(outcomes, e);
  }

  lemma {:induction false} EnabledIsNotDisabled(all: seq<Collector>, disabled: seq<string>)
    ensures forall c :: c in Enabled(all, disabled) <==> c in all && c.source !in disabled
  {
    if all != [] {
      EnabledIsNotDisabled(all[..|all| - 1], disabled);
    }
  }

  /** A source this host has disabled is never named, so its silence is never read as absence. */
  lemma DisabledIsNeverNamed(cap: Cap, all: seq<Collector>, disabled: seq<string>, accepted: seq<Page>, page: Page, source: string)
    requires Empty(cap) && source in disabled
    requires accepted <= Pages(RunOver(cap, Enabled(all, disabled)).1)
    requires page in accepted && page.final
    ensures source !in page.completedSources
  {
    var cs := Enabled(all, disabled);
    var outcomes := RunOver(cap, cs).1;
    FinalPageComesLast(outcomes, accepted, page);
    NamedIffCompleted(outcomes, source);
    EnabledIsNotDisabled(all, disabled);
    forall i | 0 <= i < |outcomes| ensures outcomes[i].source != source {
      CompletedMeansAllRecorded(cap, cs, i);
      assert cs[i] in cs;
    }
  }
}
