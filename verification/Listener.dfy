/**
 Asking the host's own sockets for their certificates: several probes to a socket, several sockets at
 once. What is not known must never look like something that is not there.
 */
module Listeners {
  import opened Basics
  import opened Run

  /** What one probe learned. */
  datatype Probe =
    | Found(o: Observation)
    | NotThere
    | Unknown(e: Error)

  datatype ProbeOutcome = ProbeOutcome(observations: seq<Observation>, errs: seq<Error>, incomplete: bool)

  const NO_OUTCOME := ProbeOutcome([], [], false)

  const MAX_UNANSWERED_NAMES: nat := 3

  // ── one socket ─────────────────────────────────────────────────────────────

  /** Probe i drew this certificate. */
  predicate Draws(probe: nat -> Probe, i: nat, certificate: string) {
    probe(i).Found? && probe(i).o.certificatePEM == certificate
  }

  /** Probe i drew a certificate that no earlier one did. */
  predicate FirstDraw(probe: nat -> Probe, i: nat) {
    probe(i).Found? && forall j: nat :: j < i ==> !Draws(probe, j, probe(i).o.certificatePEM)
  }

  /** What the first n probes found, each certificate under the first name that drew it. */
  function FirstDraws(probe: nat -> Probe, n: nat): seq<Observation> {
    if n == 0 then [] else
    FirstDraws(probe, n - 1) + if FirstDraw(probe, n - 1) then [probe(n - 1).o] else []
  }

  function Unknowns(probe: nat -> Probe, n: nat): seq<Error> {
    if n == 0 then [] else
    Unknowns(probe, n - 1) + if probe(n - 1).Unknown? then [probe(n - 1).e] else []
  }

  /** How many of the first n probes went unanswered since the last that found a certificate. */
  function Unanswered(probe: nat -> Probe, n: nat): nat {
    if n == 0 then 0 else
    match probe(n - 1)
    case Found(_) => 0
    case NotThere => Unanswered(probe, n - 1)
    case Unknown(_) => Unanswered(probe, n - 1) + 1
  }

  /** After n probes there is nothing more to ask: nothing here speaks TLS, or too much is unanswered. */
  predicate StopsAfter(probe: nat -> Probe, n: nat) {
    (n == 1 && probe(0).NotThere?) || Unanswered(probe, n) >= MAX_UNANSWERED_NAMES
  }

  /** The position after the last of the first n probes that found a certificate. */
  function SinceFound(probe: nat -> Probe, n: nat): nat {
    if n == 0 then 0 else if probe(n - 1).Found? then n else SinceFound(probe, n - 1)
  }

  /** These are unknown probes among the first n, in order, and no certificate was found since `from`,
      which is no later than any of them. */
  ghost predicate Unbroken(probe: nat -> Probe, from: nat, n: nat, unknown: seq<nat>) {
    && Increasing(unknown)
    && (forall k :: 0 <= k < |unknown| ==> from <= unknown[k] < n && probe(unknown[k]).Unknown?)
    && (forall i: nat :: from <= i < n ==> !probe(i).Found?)
  }

  ghost predicate NoneMissed(probe: nat -> Probe, from: nat, n: nat, unknown: seq<nat>) {
    forall i: nat :: from <= i < n && probe(i).Unknown? ==> i in unknown
  }

  lemma OneMoreUnanswered(probe: nat -> Probe, from: nat, n: nat, before: seq<nat>)
    requires n > 0 && from <= n - 1 && !probe(n - 1).Found?
    requires Unbroken(probe, from, n - 1, before) && NoneMissed(probe, from, n - 1, before)
    ensures var unknown := if probe(n - 1).Unknown? then before + [n - 1] else before;
      Unbroken(probe, from, n, unknown) && NoneMissed(probe, from, n, unknown)
  {
    if probe(n - 1).Unknown? {
      var unknown := before + [n - 1];
      assert unknown[|before|] == n - 1;
      assert forall i :: i in before ==> i in unknown;
    }
  }

  /** What is unanswered is exactly the unknown probes since the last that found a certificate. */
  lemma {:induction false} UnansweredMeansUnknown(probe: nat -> Probe, n: nat) returns (unknown: seq<nat>)
    ensures var s := SinceFound(probe, n);
      && s <= n && (s > 0 ==> probe(s - 1).Found?)
      && Unbroken(probe, s, n, unknown) && NoneMissed(probe, s, n, unknown)
    ensures |unknown| == Unanswered(probe, n)
  {
    if n == 0 || probe(n - 1).Found? {
      unknown := [];
    } else {
      hide Unbroken, NoneMissed;
      var before := UnansweredMeansUnknown(probe, n - 1);
      unknown := if probe(n - 1).Unknown? then before + [n - 1] else before;
      OneMoreUnanswered(probe, SinceFound(probe, n), n, before);
    }
  }

  /** Any such stretch of unknown probes is counted in full. */
  lemma {:induction false} UnbrokenIsCounted(probe: nat -> Probe, from: nat, n: nat, unknown: seq<nat>)
    requires Unbroken(probe, from, n, unknown)
    ensures |unknown| <= Unanswered(probe, n)
    decreases n
  {
    if unknown != [] {
      var rest, last := unknown[..|unknown| - 1], unknown[|unknown| - 1];
      UnbrokenIsCounted(probe, from, n - 1, if last == n - 1 then rest else unknown);
    }
  }

  /** Names are given up on exactly when the full number of probes went unknown with no certificate
      found from the first of them on. */
  lemma GivingUpTakesUnknowns(probe: nat -> Probe, n: nat)
    ensures Unanswered(probe, n) >= MAX_UNANSWERED_NAMES <==>
      exists from, unknown :: Unbroken(probe, from, n, unknown) && |unknown| == MAX_UNANSWERED_NAMES
  {
    if Unanswered(probe, n) >= MAX_UNANSWERED_NAMES {
      var unknown := UnansweredMeansUnknown(probe, n);
      assert Unbroken(probe, SinceFound(probe, n), n, unknown[..MAX_UNANSWERED_NAMES]);
    }
    forall from, unknown | Unbroken(probe, from, n, unknown) && |unknown| == MAX_UNANSWERED_NAMES
      ensures Unanswered(probe, n) >= MAX_UNANSWERED_NAMES
    {
      UnbrokenIsCounted(probe, from, n, unknown);
    }
  }

  ghost predicate Records(os: seq<Observation>, certificate: string) {
    exists k :: 0 <= k < |os| && os[k].certificatePEM == certificate
  }

  ghost predicate Drawn(probe: nat -> Probe, n: nat, certificate: string) {
    exists i: nat :: i < n && Draws(probe, i, certificate)
  }

  lemma RecordsAppend(os: seq<Observation>, o: Observation, certificate: string)
    ensures Records(os + [o], certificate) <==> Records(os, certificate) || o.certificatePEM == certificate
  {
    if Records(os, certificate) {
      var k :| 0 <= k < |os| && os[k].certificatePEM == certificate;
      assert (os + [o])[k].certificatePEM == certificate;
    }
    assert (os + [o])[|os|] == o;
  }

  /** What is recorded is exactly what some probe drew. */
  lemma {:induction false} RecordsWhatWasDrawn(probe: nat -> Probe, n: nat, certificate: string)
    ensures Records(FirstDraws(probe, n), certificate) <==> Drawn(probe, n, certificate)
  {
    if n > 0 {
      RecordsWhatWasDrawn(probe, n - 1, certificate);
      var before := FirstDraws(probe, n - 1);
      DrawnStep(probe, n, certificate);
      assert before + [] == before;
      if FirstDraw(probe, n - 1) {
        RecordsAppend(before, probe(n - 1).o, certificate);
      } else if Draws(probe, n - 1, certificate) {
        assert Drawn(probe, n - 1, certificate);
      }
    }
  }

  lemma DrawnStep(probe: nat -> Probe, n: nat, certificate: string)
    requires n > 0
    ensures Drawn(probe, n, certificate) <==> Drawn(probe, n - 1, certificate) || Draws(probe, n - 1, certificate)
  {
    if Drawn(probe, n, certificate) {
      var i: nat :| i < n && Draws(probe, i, certificate);
    }
  }

  /** No certificate is recorded twice. */
  lemma {:induction false} NoneRecordedTwice(probe: nat -> Probe, n: nat)
    ensures var os := FirstDraws(probe, n);
      forall k, l :: 0 <= k < l < |os| ==> os[k].certificatePEM != os[l].certificatePEM
  {
    if n > 0 {
      NoneRecordedTwice(probe, n - 1);
      assert FirstDraws(probe, n - 1) + [] == FirstDraws(probe, n - 1);
      if FirstDraw(probe, n - 1) {
        var before, certificate := FirstDraws(probe, n - 1), probe(n - 1).o.certificatePEM;
        RecordsWhatWasDrawn(probe, n - 1, certificate);
        assert !Drawn(probe, n - 1, certificate);
        forall k | 0 <= k < |before| ensures before[k].certificatePEM != certificate {
          if before[k].certificatePEM == certificate {
            assert Records(before, certificate);
          }
        }
      }
    }
  }

  /** out is what the first `asked` probes of a socket amount to, and there was nothing more to ask. */
  ghost predicate Probed(serverNames: seq<string>, probe: nat -> Probe, asked: nat, out: ProbeOutcome) {
    && 1 <= asked <= |serverNames| + 1
    && out.observations == FirstDraws(probe, asked)
    && (out.incomplete <==> exists i: nat :: i < asked && probe(i).Unknown?)
    && (!out.incomplete && !probe(0).NotThere? ==> asked == |serverNames| + 1)
  }

  /** A socket probed to a definite end either has nothing there, or answered under every name, and each
      certificate it ever presented is recorded. */
  lemma DefiniteEnd(serverNames: seq<string>, probe: nat -> Probe, asked: nat, out: ProbeOutcome, n: nat)
    requires Probed(serverNames, probe, asked, out) && !out.incomplete
    requires !probe(0).NotThere? && n <= |serverNames|
    ensures !probe(n).Unknown?
    ensures probe(n).Found? ==> Records(out.observations, probe(n).o.certificatePEM)
  {
    if probe(n).Found? {
      assert Draws(probe, n, probe(n).o.certificatePEM);
      RecordsWhatWasDrawn(probe, asked, probe(n).o.certificatePEM);
    }
  }

  /** One probe without a name, then one for each name, until there is nothing more to ask. `asked`
      counts the probes made. */
  method ProbeTarget(serverNames: seq<string>, probe: nat -> Probe) returns (out: ProbeOutcome, ghost asked: nat)
    ensures 1 <= asked <= |serverNames| + 1
    ensures out.observations == FirstDraws(probe, asked)
    ensures out.errs == Unknowns(probe, asked)
    ensures out.incomplete <==> exists i: nat :: i < asked && probe(i).Unknown?
    ensures forall n: nat :: n < asked ==> !StopsAfter(probe, n)
    ensures asked < |serverNames| + 1 ==> StopsAfter(probe, asked)
    ensures !out.incomplete && !probe(0).NotThere? ==> asked == |serverNames| + 1
    ensures Probed(serverNames, probe, asked, out)
  {
    out, asked := NO_OUTCOME, 0;
    var names := [""] + serverNames;
    var unanswered := 0;
    var recorded: set<string> := {};
    for i := 0 to |names|
      invariant asked == i
      invariant out.observations == FirstDraws(probe, i) && out.errs == Unknowns(probe, i)
      invariant out.incomplete <==> exists j: nat :: j < i && probe(j).Unknown?
      invariant unanswered == Unanswered(probe, i) < MAX_UNANSWERED_NAMES
      invariant forall c :: c in recorded <==> Drawn(probe, i, c)
      invariant forall n: nat :: n <= i ==> !StopsAfter(probe, n)
    {
      asked := i + 1;
      match probe(i)
      case Found(o) =>
        unanswered := 0;
        assert FirstDraw(probe, i) <==> o.certificatePEM !in recorded;
        if o.certificatePEM !in recorded {
          recorded := recorded + {o.certificatePEM};
          out := out.(observations := out.observations + [o]);
        }
        assert Draws(probe, i, o.certificatePEM);
      case NotThere =>
        if i == 0 {
          return;
        }
      case Unknown(e) =>
        out := out.(incomplete := true, errs := out.errs + [e]);
        assert probe(i).Unknown?;
        unanswered := unanswered + 1;
        if unanswered >= MAX_UNANSWERED_NAMES {
          return;
        }
    }
  }
}
