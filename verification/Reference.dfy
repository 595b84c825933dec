/**
 The meaning of a certificate chain, with no memo, no budget and no cancellation: what
 Store.ChainFor and Store.Leaves are measured against.
 */
module Reference {
  import opened Basics
  import opened Certificates

  /** Everything a chain depends on besides the certificates: which signatures verify, and the time. */
  datatype World = World(checkSignature: (Certificate, Certificate) -> bool, now: int)

  predicate SelfSigned(w: World, c: Certificate) {
    c.subject == c.issuer && w.checkSignature(c, c)
  }

  predicate ValidNow(w: World, c: Certificate) { c.notBefore <= w.now <= c.notAfter }

  function Rank(w: World, c: Certificate): nat {
    (if ValidNow(w, c) then 2 else 0) + (if SelfSigned(w, c) then 1 else 0)
  }

  /** ca truly issued cert, and is not already below it in the chain. */
  predicate Issued(w: World, ca: Certificate, cert: Certificate, visited: set<Certificate>) {
    && MayIssue(ca)
    && ca.subject == cert.issuer
    && ca !in visited
    && w.checkSignature(cert, ca)
  }

  /** Position i of `all` holds the issuer the rules choose: the highest rank, then the earliest. */
  ghost predicate IsBest(w: World, all: seq<Certificate>, cert: Certificate, visited: set<Certificate>, i: nat) {
    && i < |all|
    && Issued(w, all[i], cert, visited)
    && forall j :: 0 <= j < |all| && Issued(w, all[j], cert, visited) ==>
         Rank(w, all[j]) < Rank(w, all[i]) || (Rank(w, all[j]) == Rank(w, all[i]) && i <= j)
  }

  /** The issuer chosen among cs by scanning from the left, keeping the first of the highest rank. */
  function BestIssuer(w: World, cs: seq<Certificate>, cert: Certificate, visited: set<Certificate>): Option<Certificate> {
    if cs == [] then None else
    var best := BestIssuer(w, cs[..|cs| - 1], cert, visited);
    var c := cs[|cs| - 1];
    if Issued(w, c, cert, visited) && (best.None? || Rank(w, best.value) < Rank(w, c)) then Some(c) else best
  }

  lemma BestIssuerStep(w: World, cs: seq<Certificate>, i: nat, cert: Certificate, visited: set<Certificate>)
    requires i < |cs|
    ensures BestIssuer(w, cs[..i + 1], cert, visited) ==
      var best := BestIssuer(w, cs[..i], cert, visited);
      if Issued(w, cs[i], cert, visited) && (best.None? || Rank(w, best.value) < Rank(w, cs[i])) then Some(cs[i]) else best
  {
    assert cs[..i + 1][..i] == cs[..i];
  }

  /** The scan finds exactly the best issuer: None means nothing issued cert. */
  lemma {:induction false} BestIssuerIsBest(w: World, all: seq<Certificate>, cert: Certificate, visited: set<Certificate>)
    ensures var b := BestIssuer(w, all, cert, visited);
      match b
      case None => forall j :: 0 <= j < |all| ==> !Issued(w, all[j], cert, visited)
      case Some(c) => exists i: nat :: IsBest(w, all, cert, visited, i) && all[i] == c
  {
    if all != [] {
      var rest, c := all[..|all| - 1], all[|all| - 1];
      BestIssuerIsBest(w, rest, cert, visited);
      assert forall j :: 0 <= j < |rest| ==> all[j] == rest[j];
      var b := BestIssuer(w, rest, cert, visited);
      if Issued(w, c, cert, visited) && (b.None? || Rank(w, b.value) < Rank(w, c)) {
        assert IsBest(w, all, cert, visited, |all| - 1);
      } else if b.Some? {
        var i: nat :| IsBest(w, rest, cert, visited, i) && rest[i] == b.value;
        assert IsBest(w, all, cert, visited, i) && all[i] == b.value;
      }
    }
  }

  ghost function Unvisited(all: seq<Certificate>, visited: set<Certificate>): set<Certificate> {
    set c | c in all && c !in visited
  }

  /** The next certificate up: none above a self-signed one, else the best unvisited issuer. */
  function NextAbove(w: World, all: seq<Certificate>, cert: Certificate, visited: set<Certificate>): Option<Certificate> {
    if SelfSigned(w, cert) then None else BestIssuer(w, all, cert, visited)
  }

  lemma NextAboveIsUnvisited(w: World, all: seq<Certificate>, cert: Certificate, visited: set<Certificate>)
    ensures var next := NextAbove(w, all, cert, visited);
      next.Some? ==> next.value in all && next.value !in visited
  {
    BestIssuerIsBest(w, all, cert, visited);
  }

  /** The chain above cert: best unvisited issuer after best unvisited issuer, up to a self-signed one. */
  ghost function ChainAbove(w: World, all: seq<Certificate>, cert: Certificate, visited: set<Certificate>): seq<Certificate>
    decreases Unvisited(all, visited)
  {
    var next := NextAbove(w, all, cert, visited);
    if next.None? then [] else
    NextAboveIsUnvisited(w, all, cert, visited);
    assert next.value in Unvisited(all, visited) && next.value !in Unvisited(all, visited + {next.value});
    [next.value] + ChainAbove(w, all, next.value, visited + {next.value})
  }

  lemma ChainAboveStep(w: World, all: seq<Certificate>, cert: Certificate, visited: set<Certificate>)
    ensures var next := NextAbove(w, all, cert, visited);
      ChainAbove(w, all, cert, visited) ==
        if next.None? then [] else [next.value] + ChainAbove(w, all, next.value, visited + {next.value})
  {
  }

  /** The one copy of cert that `all` indexes, or cert itself when its DER is not indexed. */
  function Canonical(all: seq<Certificate>, cert: Certificate): (c: Certificate)
    ensures c == cert || (c in all && c.raw == cert.raw)
  {
    if all == [] then cert
    else if all[|all| - 1].raw == cert.raw then all[|all| - 1]
    else Canonical(all[..|all| - 1], cert)
  }

  ghost function ReferenceChain(w: World, all: seq<Certificate>, cert: Certificate): seq<Certificate> {
    var c := Canonical(all, cert);
    ChainAbove(w, all, c, {c})
  }

  /** c's key signed some other indexed certificate that names it as issuer. */
  ghost predicate SignedAnother(w: World, all: seq<Certificate>, c: Certificate) {
    && MayIssue(c)
    && exists child :: child in all && child != c && child.issuer == c.subject && w.checkSignature(child, c)
  }

  ghost predicate IsLeaf(w: World, all: seq<Certificate>, c: Certificate) {
    !c.isCA && !SignedAnother(w, all, c)
  }

  /** The end-entity certificates of cs, in input order. */
  ghost function Leaves(w: World, all: seq<Certificate>, cs: seq<Certificate>): (leaves: seq<Certificate>)
    ensures |leaves| <= |cs|
  {
    if cs == [] then [] else
    var before := Leaves(w, all, cs[..|cs| - 1]);
    if IsLeaf(w, all, cs[|cs| - 1]) then before + [cs[|cs| - 1]] else before
  }

  lemma {:induction false} LeavesOfPrefix(w: World, all: seq<Certificate>, cs: seq<Certificate>, i: nat)
    requires i <= |cs|
    ensures Leaves(w, all, cs[..i]) <= Leaves(w, all, cs)
    decreases |cs| - i
  {
    if i == |cs| {
      assert cs[..i] == cs;
    } else {
      assert cs[..i + 1][..i] == cs[..i];
      LeavesOfPrefix(w, all, cs, i + 1);
    }
  }

  // ── a walk described by its steps ──────────────────────────────────────────

  function Below(cert: Certificate, chain: seq<Certificate>, k: nat): Certificate
    requires k <= |chain|
  {
    if k == 0 then cert else chain[k - 1]
  }

  ghost function VisitedBelow(start: set<Certificate>, chain: seq<Certificate>, k: nat): set<Certificate>
    requires k <= |chain|
  {
    start + set c | c in chain[..k]
  }

  /** Member k is the best issuer of the one below it, which is not self-signed. */
  ghost predicate ClimbsAt(w: World, all: seq<Certificate>, cert: Certificate, start: set<Certificate>, chain: seq<Certificate>, k: nat)
    requires k < |chain|
  {
    && !SelfSigned(w, Below(cert, chain, k))
    && exists i: nat :: IsBest(w, all, Below(cert, chain, k), VisitedBelow(start, chain, k), i) && all[i] == chain[k]
  }

  /** The top is self-signed, or nothing unvisited issued it. */
  ghost predicate StopsAtTop(w: World, all: seq<Certificate>, cert: Certificate, start: set<Certificate>, chain: seq<Certificate>) {
    var top := Below(cert, chain, |chain|);
    || SelfSigned(w, top)
    || forall j :: 0 <= j < |all| ==> !Issued(w, all[j], top, VisitedBelow(start, chain, |chain|))
  }

  /** A maximal climb: what "walk upward through the best issuers" means, step by step. */
  ghost predicate IsWalk(w: World, all: seq<Certificate>, cert: Certificate, start: set<Certificate>, chain: seq<Certificate>) {
    && (forall k :: 0 <= k < |chain| ==> ClimbsAt(w, all, cert, start, chain, k))
    && StopsAtTop(w, all, cert, start, chain)
  }

  lemma TailViews(cert: Certificate, start: set<Certificate>, chain: seq<Certificate>, k: nat)
    requires k < |chain|
    ensures Below(chain[0], chain[1..], k) == Below(cert, chain, k + 1)
    ensures VisitedBelow(start + {chain[0]}, chain[1..], k) == VisitedBelow(start, chain, k + 1)
  {
    assert chain[..k + 1] == [chain[0]] + chain[1..][..k];
  }

  lemma TailIsWalk(w: World, all: seq<Certificate>, cert: Certificate, start: set<Certificate>, chain: seq<Certificate>)
    requires chain != []
    ensures IsWalk(w, all, cert, start, chain) <==>
      ClimbsAt(w, all, cert, start, chain, 0) && IsWalk(w, all, chain[0], start + {chain[0]}, chain[1..])
  {
    var next, rest := chain[0], chain[1..];
    TailViews(cert, start, chain, |rest|);
    assert StopsAtTop(w, all, next, start + {next}, rest) == StopsAtTop(w, all, cert, start, chain);
    forall k | 0 <= k < |rest|
      ensures ClimbsAt(w, all, next, start + {next}, rest, k) == ClimbsAt(w, all, cert, start, chain, k + 1)
    {
      TailViews(cert, start, chain, k);
    }
    forall k | 0 < k < |chain|
      ensures ClimbsAt(w, all, cert, start, chain, k) == ClimbsAt(w, all, next, start + {next}, rest, k - 1)
    {
      assert ClimbsAt(w, all, next, start + {next}, rest, k - 1) == ClimbsAt(w, all, cert, start, chain, k - 1 + 1);
    }
  }

  lemma FirstStep(w: World, all: seq<Certificate>, cert: Certificate, start: set<Certificate>, chain: seq<Certificate>)
    requires chain != []
    ensures ClimbsAt(w, all, cert, start, chain, 0) <==>
      !SelfSigned(w, cert) && BestIssuer(w, all, cert, start) == Some(chain[0])
  {
    assert VisitedBelow(start, chain, 0) == start;
    BestIssuerIsBest(w, all, cert, start);
    var b := BestIssuer(w, all, cert, start);
    if b.Some? {
      var i: nat :| IsBest(w, all, cert, start, i) && all[i] == b.value;
      forall j: nat | IsBest(w, all, cert, start, j) ensures j == i {
        assert Issued(w, all[i], cert, start) && Issued(w, all[j], cert, start);
      }
    }
  }

  /** A sequence of certificates is the reference chain exactly when it climbs by best issuers, step
      by step, and stops where a chain must stop. */
  lemma {:induction false} ChainAboveIsTheWalk(w: World, all: seq<Certificate>, cert: Certificate, start: set<Certificate>, chain: seq<Certificate>)
    ensures chain == ChainAbove(w, all, cert, start) <==> IsWalk(w, all, cert, start, chain)
    decreases |chain|
  {
    if chain == [] {
      assert VisitedBelow(start, chain, 0) == start;
      BestIssuerIsBest(w, all, cert, start);
    } else {
      TailIsWalk(w, all, cert, start, chain);
      FirstStep(w, all, cert, start, chain);
      ChainAboveIsTheWalk(w, all, chain[0], start + {chain[0]}, chain[1..]);
      assert chain == [chain[0]] + chain[1..];
    }
  }

  // ── which issuer is chosen, in the certificates' own terms ─────────────────

  /** Position i holds an unvisited certificate that truly issued cert, and of any other such: it is within
      its dates if the other is; where both or neither are, it is self-signed if the other is; and where
      they agree in both it stands no later. */
  ghost predicate Preferred(w: World, all: seq<Certificate>, cert: Certificate, visited: set<Certificate>, i: nat) {
    && i < |all|
    && Candidate(w, all[i], cert, visited)
    && forall j :: 0 <= j < |all| && Candidate(w, all[j], cert, visited) ==>
         var c, d := all[i], all[j];
         var cInDate, dInDate := c.notBefore <= w.now <= c.notAfter, d.notBefore <= w.now <= d.notAfter;
         var cOwn := c.subject == c.issuer && w.checkSignature(c, c);
         var dOwn := d.subject == d.issuer && w.checkSignature(d, d);
         && (dInDate ==> cInDate)
         && (cInDate == dInDate ==> (dOwn ==> cOwn))
         && (cInDate == dInDate && cOwn == dOwn ==> i <= j)
  }

  ghost predicate Candidate(w: World, ca: Certificate, cert: Certificate, visited: set<Certificate>) {
    && (ca.isCA || !ca.basicConstraintsValid)
    && ca.subject == cert.issuer
    && w.checkSignature(cert, ca)
    && ca !in visited
  }

  lemma PreferredIsBest(w: World, all: seq<Certificate>, cert: Certificate, visited: set<Certificate>, i: nat)
    ensures Preferred(w, all, cert, visited, i) <==> IsBest(w, all, cert, visited, i)
  {
    assert forall c :: Candidate(w, c, cert, visited) <==> Issued(w, c, cert, visited);
  }

  /** The issuer chosen is the preferred one: valid now before anything else, then self-signed, then first. */
  lemma BestIssuerIsPreferred(w: World, all: seq<Certificate>, cert: Certificate, visited: set<Certificate>)
    ensures var b := BestIssuer(w, all, cert, visited);
      match b
      case None => forall j :: 0 <= j < |all| ==> !Candidate(w, all[j], cert, visited)
      case Some(c) => exists i: nat :: Preferred(w, all, cert, visited, i) && all[i] == c
  {
    BestIssuerIsBest(w, all, cert, visited);
    assert forall c :: Candidate(w, c, cert, visited) <==> Issued(w, c, cert, visited);
    if BestIssuer(w, all, cert, visited).Some? {
      var i: nat :| IsBest(w, all, cert, visited, i) && all[i] == BestIssuer(w, all, cert, visited).value;
      PreferredIsBest(w, all, cert, visited, i);
    }
  }

  /** Each member is the preferred issuer of the one below, which is not self-signed. */
  ghost predicate ClimbsByPreference(w: World, all: seq<Certificate>, cert: Certificate, chain: seq<Certificate>) {
    forall k :: 0 <= k < |chain| ==> ClimbsPreferred(w, all, cert, chain, k)
  }

  ghost predicate ClimbsPreferred(w: World, all: seq<Certificate>, cert: Certificate, chain: seq<Certificate>, k: nat)
    requires k < |chain|
  {
    var below := Below(cert, chain, k);
    && !(below.subject == below.issuer && w.checkSignature(below, below))
    && exists i: nat :: Preferred(w, all, below, VisitedBelow({cert}, chain, k), i) && all[i] == chain[k]
  }

  /** Every part of a reference chain that starts at its foot climbs by preference. */
  lemma PrefixClimbsByPreference(w: World, all: seq<Certificate>, cert: Certificate, chain: seq<Certificate>)
    requires chain <= ReferenceChain(w, all, cert)
    ensures ClimbsByPreference(w, all, Canonical(all, cert), chain)
  {
    hide Preferred;
    var c, full := Canonical(all, cert), ReferenceChain(w, all, cert);
    ChainAboveIsTheWalk(w, all, c, {c}, full);
    forall k | 0 <= k < |chain| ensures ClimbsPreferred(w, all, c, chain, k) {
      assert ClimbsAt(w, all, c, {c}, full, k);
      assert chain[..k] == full[..k] && chain[k] == full[k];
      var below, visited := Below(c, chain, k), VisitedBelow({c}, chain, k);
      var i: nat :| IsBest(w, all, below, visited, i) && all[i] == chain[k];
      PreferredIsBest(w, all, below, visited, i);
    }
  }

  /** What makes a certificate a leaf, in its own terms: one that is no CA is one unless it says nothing
      about being a CA and signed another, as a version 1 root has. */
  lemma LeafExactlyWhen(w: World, all: seq<Certificate>, c: Certificate)
    ensures IsLeaf(w, all, c) <==>
      !c.isCA && (c.basicConstraintsValid ||
        forall child :: child in all && child.issuer == c.subject && w.checkSignature(child, c) ==> child == c)
  {
  }

  // ── soundness ──────────────────────────────────────────────────────────────

  /** No two indexed certificates share a DER. */
  ghost predicate UniqueByDer(all: seq<Certificate>) {
    forall i, j :: 0 <= i < j < |all| ==> all[i].raw != all[j].raw
  }

  /** Every link is a matching name and a true signature by a certificate that may issue; nothing
      follows a self-signed certificate; no DER repeats or equals the leaf's. */
  ghost predicate Sound(w: World, all: seq<Certificate>, cert: Certificate, chain: seq<Certificate>) {
    && (forall k :: 0 <= k < |chain| ==>
          && chain[k] in all
          && MayIssue(chain[k])
          && chain[k].subject == Below(cert, chain, k).issuer
          && w.checkSignature(Below(cert, chain, k), chain[k])
          && !SelfSigned(w, Below(cert, chain, k))
          && chain[k].raw != cert.raw)
    && (forall j, k :: 0 <= j < k < |chain| ==> chain[j].raw != chain[k].raw)
  }

  /** Any prefix of the reference chain is sound: a shorter chain is never a wrong one. */
  lemma ReferencePrefixIsSound(w: World, all: seq<Certificate>, cert: Certificate, chain: seq<Certificate>)
    requires UniqueByDer(all)
    requires chain <= ReferenceChain(w, all, cert)
    ensures Sound(w, all, Canonical(all, cert), chain)
  {
    var c := Canonical(all, cert);
    var full := ReferenceChain(w, all, cert);
    ChainAboveIsTheWalk(w, all, c, {c}, full);
    forall k | 0 <= k < |chain|
      ensures chain[k] in all && MayIssue(chain[k])
      ensures chain[k].subject == Below(c, chain, k).issuer
      ensures w.checkSignature(Below(c, chain, k), chain[k])
      ensures !SelfSigned(w, Below(c, chain, k))
      ensures chain[k] !in VisitedBelow({c}, chain, k)
    {
      assert ClimbsAt(w, all, c, {c}, full, k);
      assert chain[..k] == full[..k];
    }
    CanonicalIsCopy(all, cert);
    forall k | 0 <= k < |chain| ensures chain[k].raw != c.raw {
      assert chain[k] !in VisitedBelow({c}, chain, k);
    }
    forall j, k | 0 <= j < k < |chain| ensures chain[j].raw != chain[k].raw {
      assert chain[k] !in VisitedBelow({c}, chain, k);
      assert chain[j] in chain[..k];
    }
  }

  /** Canonical picks the indexed copy whenever there is one. */
  lemma {:induction false} CanonicalIsCopy(all: seq<Certificate>, cert: Certificate)
    ensures forall c :: c in all && c.raw == cert.raw && UniqueByDer(all) ==> Canonical(all, cert) == c
    ensures forall c :: c in all && c.raw == cert.raw ==> Canonical(all, cert) in all
  {
    if all != [] {
      var rest := all[..|all| - 1];
      CanonicalIsCopy(rest, cert);
      assert all == rest + [all[|all| - 1]];
    }
  }
}
