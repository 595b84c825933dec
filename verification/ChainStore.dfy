/**
 The store of one file's certificates: an index, a memo of signature checks, a budget that other
 stores may share, and a context that may be cancelled at any poll. Store.ChainFor and Store.Leaves
 refine the Reference, and where a limit stops them they say so and fall short in one way only.
 */
module ChainStore {
  import opened Basics
  import opened Certificates
  import opened Reference

  /** Cancellation as the code sees it: a stream of polls that, once it says stop, goes on saying it. */
  class Context {
    const cancelAt: Option<nat>
    var polls: nat

    constructor (cancelAt: Option<nat>)
      ensures this.cancelAt == cancelAt && polls == 0
    {
      this.cancelAt := cancelAt;
      polls := 0;
    }

    /** Some poll so far has seen the cancellation. */
    predicate Cancelled()
      reads this
    {
      cancelAt.Some? && polls > cancelAt.value
    }

    method Err() returns (stopped: bool)
      modifies this
      ensures polls == old(polls) + 1
      ensures stopped == Cancelled()
    {
      polls := polls + 1;
      stopped := cancelAt.Some? && polls > cancelAt.value;
    }
  }

  /** Signature checking that several stores share. The ledger lists every charge ever made. */
  class Budget {
    var left: nat
    ghost var ledger: seq<nat>

    ghost predicate Valid()
      reads this
    {
      && left + Sum(ledger) == VERIFY_BUDGET
      && forall i :: 0 <= i < |ledger| ==> ledger[i] >= 1
    }

    constructor ()
      ensures Valid() && left == VERIFY_BUDGET && ledger == []
    {
      left := VERIFY_BUDGET;
      ledger := [];
    }

    method Spend(cost: nat)
      requires Valid() && 1 <= cost <= left
      modifies this
      ensures Valid() && left == old(left) - cost && ledger == old(ledger) + [cost]
    {
      SumAppend(ledger, [cost]);
      assert Sum([cost]) == cost;
      left := left - cost;
      ledger := ledger + [cost];
    }
  }

  datatype Pair = Pair(child: Certificate, issuer: Certificate)

  function Cost(p: Pair): nat { VerifyCost(p.issuer.key) }

  ghost function Costs(ps: seq<Pair>): (cs: seq<nat>)
    ensures |cs| == |ps|
  {
    seq(|ps|, i requires 0 <= i < |ps| => Cost(ps[i]))
  }

  /** Every charge is at least one unit, so no more checks are made than there are units. */
  lemma {:induction false} ChecksWithinBudget(ledger: seq<nat>)
    requires forall i :: 0 <= i < |ledger| ==> ledger[i] >= 1
    ensures |ledger| <= Sum(ledger)
  {
    if ledger != [] {
      ChecksWithinBudget(ledger[..|ledger| - 1]);
    }
  }

  datatype Shortfall = Shortfall(truncated: bool, outOfBudget: bool, tooDeep: bool, interrupted: bool) {
    /** Both shortfalls at once. */
    function Add(other: Shortfall): Shortfall {
      Shortfall(truncated || other.truncated, outOfBudget || other.outOfBudget,
                tooDeep || other.tooDeep, interrupted || other.interrupted)
    }

    /** Every signature asked about was settled: what came back is what an unlimited walk gives,
        up to the fixed sizes. */
    predicate Settled() { !outOfBudget && !interrupted }
  }

  const NO_SHORTFALL := Shortfall(false, false, false, false)

  datatype LeafWithChain = LeafWithChain(leaf: Certificate, chain: seq<Certificate>)

  function LeafOf(found: seq<LeafWithChain>): (leaves: seq<Certificate>)
    ensures |leaves| == |found|
  {
    seq(|found|, i requires 0 <= i < |found| => found[i].leaf)
  }

  // ── the index ──────────────────────────────────────────────────────────────

  function Raws(cs: seq<Certificate>): set<Bytes> { set c | c in cs :: c.raw }

  lemma RawsAppend(cs: seq<Certificate>, c: Certificate)
    ensures Raws(cs + [c]) == Raws(cs) + {c.raw}
  {
  }

  /** The distinct certificates of a list that may hold nils and repeats, by DER, first copy kept. */
  function Distinct(certs: seq<Option<Certificate>>): (cs: seq<Certificate>)
    ensures |cs| <= |certs|
  {
    if certs == [] then [] else
    var before := Distinct(certs[..|certs| - 1]);
    var last := certs[|certs| - 1];
    if last.None? || last.value.raw in Raws(before) then before else before + [last.value]
  }

  /** Distinct keeps one certificate of every DER and invents none. */
  lemma {:induction false} DistinctKeepsOneOfEach(certs: seq<Option<Certificate>>)
    ensures UniqueByDer(Distinct(certs))
    ensures forall c :: c in Distinct(certs) ==> Some(c) in certs
    ensures forall o :: o in certs && o.Some? ==> o.value.raw in Raws(Distinct(certs))
  {
    if certs != [] {
      var rest, last := certs[..|certs| - 1], certs[|certs| - 1];
      DistinctKeepsOneOfEach(rest);
      var before := Distinct(rest);
      assert certs == rest + [last];
      if last.Some? && last.value.raw !in Raws(before) {
        RawsAppend(before, last.value);
        UniqueAppend(before, last.value);
      }
    }
  }

  /** Position i holds c, and none before it has its DER. */
  ghost predicate IsFirst(certs: seq<Option<Certificate>>, i: nat, c: Certificate) {
    && i < |certs| && certs[i] == Some(c)
    && forall j :: 0 <= j < i && certs[j].Some? ==> certs[j].value.raw != c.raw
  }

  lemma StillFirst(rest: seq<Option<Certificate>>, last: Option<Certificate>, i: nat, c: Certificate)
    requires IsFirst(rest, i, c)
    ensures IsFirst(rest + [last], i, c)
  {
  }

  lemma NewIsFirst(rest: seq<Option<Certificate>>, c: Certificate)
    requires c.raw !in Raws(Distinct(rest))
    ensures IsFirst(rest + [Some(c)], |rest|, c)
  {
    hide Distinct;
    DistinctKeepsOneOfEach(rest);
    forall j | 0 <= j < |rest| && rest[j].Some? ensures rest[j].value.raw != c.raw {
      assert rest[j] in rest;
    }
  }

  /** What is kept is the first of each DER, in the order they came: `at` says where they were. */
  lemma {:induction false} DistinctKeepsOrder(certs: seq<Option<Certificate>>) returns (at: seq<nat>)
    ensures |at| == |Distinct(certs)| && Increasing(at)
    ensures forall k :: 0 <= k < |at| ==> IsFirst(certs, at[k], Distinct(certs)[k])
  {
    hide IsFirst, Raws;
    if certs == [] {
      at := [];
    } else {
      var rest, last := certs[..|certs| - 1], certs[|certs| - 1];
      assert certs == rest + [last];
      var before := DistinctKeepsOrder(rest);
      var kept := Distinct(rest);
      forall k | 0 <= k < |before| ensures IsFirst(certs, before[k], kept[k]) && before[k] < |rest| {
        StillFirst(rest, last, before[k], kept[k]);
        FirstIsThere(rest, before[k], kept[k]);
      }
      at := before;
      if last.Some? && last.value.raw !in Raws(kept) {
        NewIsFirst(rest, last.value);
        at := before + [|rest|];
      }
    }
  }

  lemma FirstIsThere(certs: seq<Option<Certificate>>, i: nat, c: Certificate)
    requires IsFirst(certs, i, c)
    ensures i < |certs|
  {
  }

  lemma UniqueAppend(cs: seq<Certificate>, c: Certificate)
    requires UniqueByDer(cs) && c.raw !in Raws(cs)
    ensures UniqueByDer(cs + [c])
  {
    forall i | 0 <= i < |cs| ensures cs[i].raw != c.raw {
      assert cs[i] in cs;
    }
  }

  function WithSubject(cs: seq<Certificate>, name: Bytes): (r: seq<Certificate>)
    ensures forall c :: c in r <==> c in cs && MayIssue(c) && c.subject == name
  {
    if cs == [] then [] else
    var before, c := WithSubject(cs[..|cs| - 1], name), cs[|cs| - 1];
    if MayIssue(c) && c.subject == name then before + [c] else before
  }

  function WithIssuer(cs: seq<Certificate>, name: Bytes): (r: seq<Certificate>)
    ensures forall c :: c in r <==> c in cs && c.issuer == name
  {
    if cs == [] then [] else
    var before, c := WithIssuer(cs[..|cs| - 1], name), cs[|cs| - 1];
    if c.issuer == name then before + [c] else before
  }

  lemma WithNameAppend(cs: seq<Certificate>, c: Certificate, name: Bytes)
    ensures WithSubject(cs + [c], name) == WithSubject(cs, name) + if MayIssue(c) && c.subject == name then [c] else []
    ensures WithIssuer(cs + [c], name) == WithIssuer(cs, name) + if c.issuer == name then [c] else []
  {
    assert (cs + [c])[..|cs|] == cs;
  }

  function Lookup(m: map<Bytes, seq<Certificate>>, name: Bytes): seq<Certificate> {
    if name in m then m[name] else []
  }

  /** Looking among the certificates with the right name finds what looking among all would. */
  lemma {:induction false} BestAmongNamed(w: World, all: seq<Certificate>, cert: Certificate, visited: set<Certificate>)
    ensures BestIssuer(w, WithSubject(all, cert.issuer), cert, visited) == BestIssuer(w, all, cert, visited)
  {
    if all != [] {
      var before, c := WithSubject(all[..|all| - 1], cert.issuer), all[|all| - 1];
      BestAmongNamed(w, all[..|all| - 1], cert, visited);
      if MayIssue(c) && c.subject == cert.issuer {
        assert (before + [c])[..|before|] == before;
      }
    }
  }

  datatype Index = Index(
    all: seq<Certificate>,
    canonical: map<Bytes, Certificate>,
    bySubject: map<Bytes, seq<Certificate>>,
    byIssuer: map<Bytes, seq<Certificate>>,
    truncated: bool)
  {
    /** The maps say what a search of `all` would. */
    ghost predicate Valid() {
      && UniqueByDer(all)
      && canonical.Keys == Raws(all)
      && (forall c :: c in all ==> c.raw in canonical && canonical[c.raw] == c)
      && (forall name :: Lookup(bySubject, name) == WithSubject(all, name))
      && (forall name :: Lookup(byIssuer, name) == WithIssuer(all, name))
    }

    /** What indexing this list must give: its first MAX distinct certificates, and whether there
        were more. */
    ghost predicate Indexes(certs: seq<Option<Certificate>>) {
      && Valid()
      && all == Take(Distinct(certs), MAX_CERTIFICATES_PER_STORE)
      && truncated == (|Distinct(certs)| > MAX_CERTIFICATES_PER_STORE)
    }

    function Insert(cert: Certificate): Index {
      Index(all + [cert],
            canonical[cert.raw := cert],
            if MayIssue(cert) then bySubject[cert.subject := Lookup(bySubject, cert.subject) + [cert]] else bySubject,
            byIssuer[cert.issuer := Lookup(byIssuer, cert.issuer) + [cert]],
            truncated)
    }

    lemma InsertValid(cert: Certificate)
      requires Valid() && cert.raw !in canonical
      ensures Insert(cert).Valid()
    {
      hide WithSubject, WithIssuer;
      var next := Insert(cert);
      RawsAppend(all, cert);
      UniqueAppend(all, cert);
      forall c | c in next.all ensures c.raw in next.canonical && next.canonical[c.raw] == c {
        if c in all {
          assert c.raw in canonical && canonical[c.raw] == c;
        }
      }
      forall name
        ensures Lookup(next.bySubject, name) == WithSubject(next.all, name)
        ensures Lookup(next.byIssuer, name) == WithIssuer(next.all, name)
      {
        WithNameAppend(all, cert, name);
        assert Lookup(bySubject, name) == WithSubject(all, name);
        assert Lookup(byIssuer, name) == WithIssuer(all, name);
      }
    }

    /** One certificate more, added or passed over. */
    function Add(cert: Option<Certificate>): Index {
      if cert.None? || cert.value.raw in canonical then this
      else if |all| == MAX_CERTIFICATES_PER_STORE then this.(truncated := true)
      else Insert(cert.value)
    }

    lemma AddIndexes(certs: seq<Option<Certificate>>, cert: Option<Certificate>)
      requires Indexes(certs)
      ensures Add(cert).Indexes(certs + [cert])
      ensures all <= Add(cert).all
    {
      hide WithSubject, WithIssuer;
      var distinct := Distinct(certs);
      assert (certs + [cert])[..|certs|] == certs;
      if cert.Some? {
        if cert.value.raw !in canonical && |all| < MAX_CERTIFICATES_PER_STORE {
          assert all == distinct;
          InsertValid(cert.value);
        } else if cert.value.raw in canonical {
          var c :| c in all && c.raw == cert.value.raw;
          assert c in distinct;
        }
      }
    }
  }

  const EMPTY_INDEX := Index([], map[], map[], map[], false)

  function AddEach(start: Index, certs: seq<Option<Certificate>>): Index {
    if certs == [] then start else AddEach(start, certs[..|certs| - 1]).Add(certs[|certs| - 1])
  }

  /** Adding certificate after certificate indexes the list they make, after what was there before. */
  lemma {:induction false} AddEachIndexes(start: Index, before: seq<Option<Certificate>>, certs: seq<Option<Certificate>>)
    requires start.Indexes(before)
    ensures AddEach(start, certs).Indexes(before + certs)
    ensures start.all <= AddEach(start, certs).all
  {
    hide Distinct;
    if certs == [] {
      assert before + certs == before;
    } else {
      var rest, last := certs[..|certs| - 1], certs[|certs| - 1];
      AddEachIndexes(start, before, rest);
      AddEach(start, rest).AddIndexes(before + rest, last);
      assert before + certs == before + rest + [last];
    }
  }

  /** The index of a store's own certificates followed by the extra issuers. */
  function Built(certs: seq<Option<Certificate>>, issuers: seq<Option<Certificate>>): Index {
    AddEach(AddEach(EMPTY_INDEX, certs), issuers)
  }

  lemma EmptyIndexes()
    ensures EMPTY_INDEX.Indexes([])
  {
  }

  lemma BuiltIndexes(certs: seq<Option<Certificate>>, issuers: seq<Option<Certificate>>)
    ensures Built(certs, issuers).Indexes(certs + issuers)
    ensures AddEach(EMPTY_INDEX, certs).all == Take(Distinct(certs), MAX_CERTIFICATES_PER_STORE)
    ensures AddEach(EMPTY_INDEX, certs).all <= Built(certs, issuers).all
  {
    hide AddEach, Distinct, Index.Valid;
    EmptyIndexes();
    AddEachIndexes(EMPTY_INDEX, [], certs);
    assert [] + certs == certs;
    AddEachIndexes(AddEach(EMPTY_INDEX, certs), certs, issuers);
  }

  /** NewStore's add, over one of its two lists. */
  method AddAll(start: Index, certs: seq<Option<Certificate>>) returns (index: Index)
    ensures index == AddEach(start, certs)
  {
    index := start;
    for i := 0 to |certs|
      invariant index == AddEach(start, certs[..i])
    {
      assert certs[..i + 1][..i] == certs[..i];
      index := index.Add(certs[i]);
    }
    assert certs[..|certs|] == certs;
  }
}
