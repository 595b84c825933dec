/**
 parse.Store: finding every leaf and every chain of one input, with each (certificate, issuer) pair
 checked at most once, each check charged, and every limit reported.
 */
module Stores {
  import opened Basics
  import opened Certificates
  import opened Reference
  import opened ChainStore

  /** What a store and the objects it shares hold at one moment. */
  datatype Progress = Progress(verified: seq<Pair>, ledger: seq<nat>, left: nat, cancelled: bool, short: Shortfall)

  /** What any work done on a store keeps: checks are only ever added and each is charged once,
      shortfalls are only ever added and each has a reason, and once the store is unsettled no check
      is made. `pool` holds the possible issuers. */
  ghost predicate Advances(before: Progress, after: Progress, pool: set<Certificate>) {
    && before.verified <= after.verified
    && after.ledger == before.ledger + Costs(after.verified[|before.verified|..])
    && (before.cancelled ==> after.cancelled)
    && (before.short.outOfBudget ==> after.short.outOfBudget)
    && (before.short.interrupted ==> after.short.interrupted)
    && (!before.short.Settled() ==> after.verified == before.verified && after.left == before.left)
    && (after.short.outOfBudget && !before.short.outOfBudget ==>
          exists c :: c in pool && VerifyCost(c.key) > after.left)
    && (after.short.interrupted && !before.short.interrupted ==> after.cancelled)
  }

  lemma AdvancesFurther(a: Progress, b: Progress, c: Progress, pool: set<Certificate>)
    requires Advances(a, b, pool) && Advances(b, c, pool)
    ensures Advances(a, c, pool)
  {
    var m, n := b.verified[|a.verified|..], c.verified[|b.verified|..];
    assert c.verified[|a.verified|..] == m + n;
    assert Costs(m + n) == Costs(m) + Costs(n);
  }

  lemma OneMoreCheck(start: Progress, a: Progress, b: Progress, key: Pair, pool: set<Certificate>)
    requires Advances(start, a, pool)
    requires a.short.Settled() && b.short == a.short
    requires b.verified == a.verified + [key] && b.ledger == a.ledger + [Cost(key)]
    requires a.cancelled ==> b.cancelled
    ensures Advances(start, b, pool)
  {
    assert b.verified[|a.verified|..] == [key];
    assert Costs([key]) == [Cost(key)];
    AdvancesFurther(start, a, b, pool);
  }

  lemma NoCheck(start: Progress, a: Progress, b: Progress, pool: set<Certificate>)
    requires Advances(start, a, pool)
    requires b.verified == a.verified && b.ledger == a.ledger && b.left == a.left
    requires a.cancelled ==> b.cancelled
    requires a.short.outOfBudget ==> b.short.outOfBudget
    requires a.short.interrupted ==> b.short.interrupted
    requires b.short.outOfBudget && !a.short.outOfBudget ==> exists c :: c in pool && VerifyCost(c.key) > b.left
    requires b.short.interrupted && !a.short.interrupted ==> b.cancelled
    ensures Advances(start, b, pool)
  {
    assert b.verified[|a.verified|..] == [];
    AdvancesFurther(start, a, b, pool);
  }

  class Store {
    const world: World
    const ctx: Context
    const budget: Budget
    const index: Index
    const ours: nat
    // The two lists the store was made from.
    ghost const certs: seq<Option<Certificate>>
    ghost const issuers: seq<Option<Certificate>>

    var checked: map<Pair, bool>
    var short: Shortfall
    // The pairs verified, in the order they were charged.
    ghost var verified: seq<Pair>

    ghost predicate Valid()
      reads this, budget
    {
      && budget.Valid()
      && index == Built(certs, issuers)
      && ours == |AddEach(EMPTY_INDEX, certs).all|
      && NoDuplicates(verified)
      && checked.Keys == (set p | p in verified)
      && forall p :: p in checked ==> checked[p] == world.checkSignature(p.child, p.issuer)
    }

    constructor (world: World, ctx: Context, budget: Budget,
                 certs: seq<Option<Certificate>>, issuers: seq<Option<Certificate>>)
      requires budget.Valid()
      ensures Valid()
      ensures this.world == world && this.ctx == ctx && this.budget == budget
      ensures this.certs == certs && this.issuers == issuers
      ensures index.Indexes(certs + issuers)
      ensures ours <= |index.all| && index.all[..ours] == Take(Distinct(certs), MAX_CERTIFICATES_PER_STORE)
      ensures short == NO_SHORTFALL.(truncated := index.truncated)
      ensures verified == []
    {
      BuiltIndexes(certs, issuers);
      var first := AddAll(EMPTY_INDEX, certs);
      var both := AddAll(first, issuers);
      this.world, this.ctx, this.budget := world, ctx, budget;
      this.certs, this.issuers := certs, issuers;
      index, ours := both, |first.all|;
      checked, verified := map[], [];
      short := Shortfall(both.truncated, false, false, false);
    }

    /** The maps find what searching the whole index would. */
    lemma Candidates(name: Bytes)
      requires index == Built(certs, issuers)
      ensures Lookup(index.bySubject, name) == WithSubject(index.all, name)
      ensures Lookup(index.byIssuer, name) == WithIssuer(index.all, name)
    {
      BuiltIndexes(certs, issuers);
    }

    ghost function Now(): Progress
      reads this, budget, ctx
    {
      Progress(verified, budget.ledger, budget.left, ctx.Cancelled(), short)
    }

    /** Since that moment only signatures were checked, all by issuers of the pool. */
    ghost predicate CheckedSince(start: Progress, pool: set<Certificate>)
      reads this, budget, ctx
    {
      && Advances(start, Now(), pool)
      && short.truncated == start.short.truncated
      && short.tooDeep == start.short.tooDeep
    }

    ghost function Pool(cert: Certificate): set<Certificate> { (set c | c in index.all) + {cert} }

    // ── signatures ───────────────────────────────────────────────────────────

    /** Whether issuer's key verifies child's signature. Once the store is unsettled every unchecked
        pair reads as unsigned. */
    method Signed(child: Certificate, issuer: Certificate, ghost start: Progress, ghost pool: set<Certificate>) returns (ok: bool)
      requires Valid() && CheckedSince(start, pool) && issuer in pool
      modifies this`checked, this`short, this`verified, budget, ctx
      ensures Valid() && CheckedSince(start, pool)
      ensures short.Settled() ==> old(short.Settled())
      ensures ok ==> world.checkSignature(child, issuer)
      ensures short.Settled() ==> ok == world.checkSignature(child, issuer)
      ensures Pair(child, issuer) in old(checked) ==> old(Now()) == Now()
    {
      var key := Pair(child, issuer);
      if key in checked {
        return checked[key];
      }
      if short.outOfBudget || short.interrupted {
        return false;
      }
      ghost var before := Now();
      var stop := ctx.Err();
      if stop {
        short := short.(interrupted := true);
        NoCheck(start, before, Now(), pool);
        return false;
      }
      if Cost(key) > budget.left {
        short := short.(outOfBudget := true);
        NoCheck(start, before, Now(), pool);
        return false;
      }
      budget.Spend(Cost(key));
      ok := world.checkSignature(child, issuer);
      Remember(key, ok);
      OneMoreCheck(start, before, Now(), key, pool);
    }

    method Remember(key: Pair, ok: bool)
      requires Valid() && key !in checked && ok == world.checkSignature(key.child, key.issuer)
      modifies this`checked, this`verified
      ensures Valid() && verified == old(verified) + [key] && key in checked
    {
      checked := checked[key := ok];
      verified := verified + [key];
    }

    method IsSelfSigned(cert: Certificate, ghost start: Progress, ghost pool: set<Certificate>) returns (ok: bool)
      requires Valid() && CheckedSince(start, pool) && cert in pool
      modifies this`checked, this`short, this`verified, budget, ctx
      ensures Valid() && CheckedSince(start, pool)
      ensures short.Settled() ==> old(short.Settled())
      ensures ok ==> SelfSigned(world, cert)
      ensures short.Settled() ==> ok == SelfSigned(world, cert)
    {
      if cert.subject == cert.issuer {
        ok := Signed(cert, cert, start, pool);
      } else {
        ok := false;
      }
    }

    // ── issuers ──────────────────────────────────────────────────────────────

    /** The best candidate that signed cert. None when the store is unsettled: a link the rules might
        not have chosen is a wrong chain. */
    method IssuerOf(cert: Certificate, visited: set<Certificate>, ghost start: Progress, ghost pool: set<Certificate>)
      returns (issuer: Option<Certificate>)
      requires Valid() && CheckedSince(start, pool) && Pool(cert) <= pool
      modifies this`checked, this`short, this`verified, budget, ctx
      ensures Valid() && CheckedSince(start, pool)
      ensures short.Settled() ==> old(short.Settled())
      ensures issuer == if short.Settled() then BestIssuer(world, index.all, cert, visited) else None
      ensures issuer.Some? ==>
        exists i: nat :: Preferred(world, index.all, cert, visited, i) && index.all[i] == issuer.value
    {
      hide Advances, Preferred;
      BestIssuerIsPreferred(world, index.all, cert, visited);
      var candidates := Lookup(index.bySubject, cert.issuer);
      Candidates(cert.issuer);
      BestAmongNamed(world, index.all, cert, visited);
      var best, bestRank := None, -1;
      for i := 0 to |candidates|
        invariant Valid() && CheckedSince(start, pool)
        invariant short.Settled() ==> old(short.Settled())
        invariant short.Settled() ==> best == BestIssuer(world, candidates[..i], cert, visited)
        invariant short.Settled() ==> bestRank == RankOrNone(best)
      {
        BestIssuerStep(world, candidates, i, cert, visited);
        best, bestRank := Consider(candidates[i], cert, visited, best, bestRank, start, pool);
      }
      assert candidates[..|candidates|] == candidates;
      if short.outOfBudget || short.interrupted {
        return None;
      }
      return best;
    }

    ghost function RankOrNone(best: Option<Certificate>): int {
      if best.None? then -1 else Rank(world, best.value)
    }

    /** One turn of IssuerOf's loop. */
    method Consider(ca: Certificate, cert: Certificate, visited: set<Certificate>, best: Option<Certificate>, bestRank: int,
                    ghost start: Progress, ghost pool: set<Certificate>)
      returns (best': Option<Certificate>, bestRank': int)
      requires Valid() && CheckedSince(start, pool) && Pool(cert) <= pool
      requires ca in WithSubject(index.all, cert.issuer)
      modifies this`checked, this`short, this`verified, budget, ctx
      ensures Valid() && CheckedSince(start, pool)
      ensures short.Settled() ==> old(short.Settled())
      ensures short.Settled() && bestRank == RankOrNone(best) ==>
        && bestRank' == RankOrNone(best')
        && best' == if Issued(world, ca, cert, visited) && (best.None? || Rank(world, best.value) < Rank(world, ca))
                    then Some(ca) else best
    {
      hide Advances;
      best', bestRank' := best, bestRank;
      if ca in visited {
        return;
      }
      var ok := Signed(cert, ca, start, pool);
      if !ok {
        return;
      }
      var rank := if ValidNow(world, ca) then 2 else 0;
      var self := IsSelfSigned(ca, start, pool);
      if self {
        rank := rank + 1;
      }
      if rank > bestRank {
        best', bestRank' := Some(ca), rank;
      }
    }

    /** Whether cert provably signed some other certificate in the store. */
    method IssuedAnother(cert: Certificate, ghost start: Progress, ghost pool: set<Certificate>) returns (issued: bool)
      requires Valid() && CheckedSince(start, pool) && cert in pool
      modifies this`checked, this`short, this`verified, budget, ctx
      ensures Valid() && CheckedSince(start, pool)
      ensures short.Settled() ==> old(short.Settled())
      ensures issued ==> SignedAnother(world, index.all, cert)
      ensures short.Settled() ==> issued == SignedAnother(world, index.all, cert)
    {
      hide Advances;
      if !MayIssue(cert) {
        return false;
      }
      Candidates(cert.subject);
      var children := Lookup(index.byIssuer, cert.subject);
      for i := 0 to |children|
        invariant Valid() && CheckedSince(start, pool)
        invariant short.Settled() ==> old(short.Settled())
        invariant short.Settled() ==> forall j :: 0 <= j < i ==> !SignedChild(children[j], cert)
      {
        assert children[i] in children;
        if children[i] != cert {
          var ok := Signed(children[i], cert, start, pool);
          if ok {
            return true;
          }
        }
      }
      if short.Settled() {
        forall child | child in index.all && child.issuer == cert.subject ensures !SignedChild(child, cert) {
          assert child in children;
        }
      }
      return false;
    }

    ghost predicate SignedChild(child: Certificate, cert: Certificate) {
      child != cert && world.checkSignature(child, cert)
    }

    // ── chains and leaves ────────────────────────────────────────────────────

    ghost function Above(leaf: Certificate): seq<Certificate> { ReferenceChain(world, index.all, leaf) }

    /** The canonical map holds the indexed copy of a certificate, when there is one. */
    method CanonicalCopy(leaf: Certificate) returns (cert: Certificate)
      requires Valid()
      ensures cert == Canonical(index.all, leaf)
    {
      BuiltIndexes(certs, issuers);
      CanonicalIsCopy(index.all, leaf);
      cert := if leaf.raw in index.canonical then index.canonical[leaf.raw] else leaf;
      if leaf.raw in index.canonical {
        assert exists c :: c in index.all && c.raw == leaf.raw;
      }
    }

    /** Walks upward from leaf, best issuer after best issuer. Whatever runs out, what comes back is a
        prefix of the reference chain; when nothing does, it is that chain up to the fixed depth. */
    method ChainFor(leaf: Certificate) returns (chain: seq<Certificate>)
      requires Valid()
      modifies this`checked, this`short, this`verified, budget, ctx
      ensures Valid() && Advances(old(Now()), Now(), Pool(Canonical(index.all, leaf)))
      ensures short.Settled() ==> old(short.Settled())
      ensures short.truncated == old(short.truncated)
      ensures chain <= Take(Above(leaf), MAX_CHAIN_DEPTH)
      ensures short.Settled() ==> chain == Take(Above(leaf), MAX_CHAIN_DEPTH)
      ensures short.Settled() ==> short.tooDeep == (old(short.tooDeep) || |Above(leaf)| > MAX_CHAIN_DEPTH)
      ensures short.tooDeep ==> old(short.tooDeep) || |Above(leaf)| > MAX_CHAIN_DEPTH
      ensures old(short.tooDeep) ==> short.tooDeep
      ensures ClimbsByPreference(world, index.all, Canonical(index.all, leaf), chain)
    {
      hide Advances, ChainAbove, NextAbove, Take, ClimbsByPreference, Canonical, Valid;
      var cert := CanonicalCopy(leaf);
      ghost var start, pool := Now(), Pool(cert);
      NothingYet(start, pool);
      chain := [];
      var visited, current := {cert}, cert;
      while true
        invariant Valid() && CheckedSince(start, pool)
        invariant short.Settled() ==> old(short.Settled())
        invariant |chain| <= MAX_CHAIN_DEPTH
        invariant Pool(current) <= pool
        invariant Above(leaf) == chain + ChainAbove(world, index.all, current, visited)
        decreases MAX_CHAIN_DEPTH - |chain|
      {
        var next := Climb(current, visited, start, pool);
        ChainAboveStep(world, index.all, current, visited);
        WalkSoFar(chain, ChainAbove(world, index.all, current, visited));
        PrefixClimbsByPreference(world, index.all, leaf, chain);
        if next.None? {
          return;
        }
        if |chain| == MAX_CHAIN_DEPTH {
          MarkTooDeep(start, pool);
          return;
        }
        visited := visited + {next.value};
        chain := chain + [next.value];
        current := next.value;
      }
    }

    method MarkTooDeep(ghost start: Progress, ghost pool: set<Certificate>)
      requires Valid() && Advances(start, Now(), pool)
      modifies this`short
      ensures Valid() && Advances(start, Now(), pool)
      ensures short == old(short).(tooDeep := true)
    {
      ghost var before := Now();
      short := short.(tooDeep := true);
      NoCheck(start, before, Now(), pool);
    }

    /** One turn of the walk: the loop guard, then issuerOf. */
    method Climb(current: Certificate, visited: set<Certificate>, ghost start: Progress, ghost pool: set<Certificate>)
      returns (next: Option<Certificate>)
      requires Valid() && CheckedSince(start, pool) && Pool(current) <= pool
      modifies this`checked, this`short, this`verified, budget, ctx
      ensures Valid() && CheckedSince(start, pool)
      ensures short.Settled() ==> old(short.Settled())
      ensures next == if short.Settled() then NextAbove(world, index.all, current, visited) else None
      ensures next.Some? ==> next.value in index.all
    {
      hide Advances;
      var self := IsSelfSigned(current, start, pool);
      if self {
        return None;
      }
      next := IssuerOf(current, visited, start, pool);
      NextAboveIsUnvisited(world, index.all, current, visited);
    }

    /** The end-entity certificates the reference finds in this store's own part of the index. */
    ghost function ReferenceLeaves(): seq<Certificate>
      requires ours <= |index.all|
    {
      Reference.Leaves(world, index.all, index.all[..ours])
    }

    /** What may be said of one reported leaf, whatever fell short. */
    ghost predicate Reports(short: Shortfall, f: LeafWithChain) {
      && !f.leaf.isCA
      && f.chain <= Take(Above(f.leaf), MAX_CHAIN_DEPTH)
      && (short.Settled() ==> f.chain == Take(Above(f.leaf), MAX_CHAIN_DEPTH))
      && (short.Settled() && !short.tooDeep ==> |Above(f.leaf)| <= MAX_CHAIN_DEPTH)
    }

    /** Each report is of the indexed certificate at its picked position, in order, none twice. */
    ghost predicate Reported(short: Shortfall, found: seq<LeafWithChain>, picked: seq<nat>, n: nat)
      requires n <= |index.all|
    {
      && |found| == |picked| && Increasing(picked)
      && forall k :: 0 <= k < |found| ==>
           picked[k] < n && found[k].leaf == index.all[picked[k]] && Reports(short, found[k])
    }

    /** No leaf among the first n is missing, and while the store is settled nothing else is there. */
    ghost predicate Complete(short: Shortfall, found: seq<LeafWithChain>, n: nat)
      requires n <= |index.all|
    {
      var leaves := Reference.Leaves(world, index.all, index.all[..n]);
      && (forall c :: c in leaves ==> c in LeafOf(found))
      && (short.Settled() ==> LeafOf(found) == leaves)
    }

    lemma LeafOfAppend(found: seq<LeafWithChain>, f: LeafWithChain)
      ensures LeafOf(found + [f]) == LeafOf(found) + [f.leaf]
    {
    }

    /** One more certificate, passed over or reported, keeps the account complete. */
    lemma CompleteStep(short: Shortfall, short': Shortfall, found: seq<LeafWithChain>, found': seq<LeafWithChain>, n: nat)
      requires n < |index.all| && Complete(short, found, n)
      requires short'.Settled() ==> short.Settled()
      requires LeafOf(found') == LeafOf(found) || LeafOf(found') == LeafOf(found) + [index.all[n]]
      requires IsLeaf(world, index.all, index.all[n]) ==> LeafOf(found') == LeafOf(found) + [index.all[n]]
      requires short'.Settled() && !IsLeaf(world, index.all, index.all[n]) ==> LeafOf(found') == LeafOf(found)
      ensures Complete(short', found', n + 1)
    {
      assert index.all[..n + 1][..n] == index.all[..n];
    }

    /** What was reported stays true as shortfalls are added. */
    lemma ReportedStill(short: Shortfall, short': Shortfall, found: seq<LeafWithChain>, picked: seq<nat>, n: nat, m: nat)
      requires n <= m <= |index.all| && Reported(short, found, picked, n)
      requires short'.Settled() ==> short.Settled()
      requires short.tooDeep ==> short'.tooDeep
      ensures Reported(short', found, picked, m)
    {
    }

    lemma ReportedAppend(short: Shortfall, short': Shortfall, found: seq<LeafWithChain>, picked: seq<nat>, n: nat, f: LeafWithChain)
      requires n < |index.all| && Reported(short, found, picked, n)
      requires short'.Settled() ==> short.Settled()
      requires short.tooDeep ==> short'.tooDeep
      requires f.leaf == index.all[n] && Reports(short', f)
      ensures Reported(short', found + [f], picked + [n], n + 1)
    {
      ReportedStill(short, short', found, picked, n, n + 1);
    }

    /** When the cap stops the report, what is there is the reference's first leaves. */
    lemma CompleteAtCap(short: Shortfall, found: seq<LeafWithChain>, n: nat)
      requires n < ours <= |index.all| && Complete(short, found, n) && short.Settled()
      requires IsLeaf(world, index.all, index.all[n]) && |found| == MAX_LEAVES_PER_STORE
      ensures LeafOf(found) == Take(ReferenceLeaves(), MAX_LEAVES_PER_STORE)
      ensures |ReferenceLeaves()| > MAX_LEAVES_PER_STORE
    {
      var mine := index.all[..ours];
      assert mine[..n + 1][..n] == index.all[..n] && mine[..n] == index.all[..n];
      LeavesOfPrefix(world, index.all, mine, n + 1);
    }

    /** What a whole pass over the store's own certificates amounts to. */
    ghost predicate Account(short: Shortfall, full: bool, found: seq<LeafWithChain>)
      requires ours <= |index.all|
    {
      && |found| <= MAX_LEAVES_PER_STORE
      && (short.Settled() ==> LeafOf(found) == Take(ReferenceLeaves(), MAX_LEAVES_PER_STORE))
      && (short.Settled() ==> full == (|ReferenceLeaves()| > MAX_LEAVES_PER_STORE))
      && (!full && !short.interrupted ==> forall c :: c in ReferenceLeaves() ==> c in LeafOf(found))
    }

    lemma AccountAtStart(short: Shortfall)
      ensures Reported(short, [], [], 0) && Complete(short, [], 0)
    {
    }

    lemma AccountAtEnd(short: Shortfall, found: seq<LeafWithChain>)
      requires ours <= |index.all| && |found| <= MAX_LEAVES_PER_STORE
      requires short.interrupted || Complete(short, found, ours)
      ensures Account(short, false, found)
    {
    }

    /** Every end-entity certificate of the store with its own chain. `picked` says where in the index
        each reported leaf is: increasing positions, so none is reported twice and order is kept. `full`
        says the report was cut at its cap. */
    method Leaves() returns (found: seq<LeafWithChain>, ghost picked: seq<nat>, ghost full: bool)
      requires Valid()
      modifies this`checked, this`short, this`verified, budget, ctx
      ensures Valid() && Advances(old(Now()), Now(), set c | c in index.all)
      ensures short.Settled() ==> old(short.Settled())
      ensures old(short.tooDeep) ==> short.tooDeep
      ensures short.truncated == (old(short.truncated) || full)
      ensures ours <= |index.all|
      ensures Reported(short, found, picked, ours)
      ensures Account(short, full, found)
    {
      hide Advances, Reported, Complete, Account, Valid;
      OursFit();
      ghost var start, pool := Now(), set c | c in index.all;
      NothingYet(start, pool);
      AccountAtStart(short);
      found, picked, full := [], [], false;
      for i := 0 to ours
        invariant Valid() && Advances(start, Now(), pool)
        invariant short.Settled() ==> old(short.Settled())
        invariant short.truncated == old(short.truncated) && (old(short.tooDeep) ==> short.tooDeep)
        invariant |found| <= MAX_LEAVES_PER_STORE && !full
        invariant Reported(short, found, picked, i) && Complete(short, found, i)
      {
        ghost var before := short;
        var stop := Interrupted(start, pool);
        if stop {
          ReportedStill(before, short, found, picked, i, ours);
          AccountAtEnd(short, found);
          return;
        }
        var capped;
        found, picked, capped := Turn(i, found, picked, start, pool);
        if capped {
          full := true;
          ReportedStill(short, short, found, picked, i + 1, ours);
          return;
        }
      }
      AccountAtEnd(short, found);
    }

    lemma OursFit()
      requires Valid()
      ensures ours <= |index.all|
    {
      BuiltIndexes(certs, issuers);
    }

    method Interrupted(ghost start: Progress, ghost pool: set<Certificate>) returns (stop: bool)
      requires Valid() && Advances(start, Now(), pool)
      modifies this`short, ctx
      ensures Valid() && Advances(start, Now(), pool)
      ensures short == old(short).(interrupted := stop || old(short).interrupted)
    {
      ghost var before := Now();
      stop := ctx.Err();
      if stop {
        short := short.(interrupted := true);
      }
      NoCheck(start, before, Now(), pool);
    }

    /** One turn of Leaves' loop: the certificate at i is passed over, reported, or one too many. */
    method Turn(i: nat, found: seq<LeafWithChain>, ghost picked: seq<nat>, ghost start: Progress, ghost pool: set<Certificate>)
      returns (found': seq<LeafWithChain>, ghost picked': seq<nat>, full: bool)
      requires Valid() && Advances(start, Now(), pool) && pool == (set c | c in index.all)
      requires i < ours <= |index.all| && |found| <= MAX_LEAVES_PER_STORE
      requires Reported(short, found, picked, i) && Complete(short, found, i)
      modifies this`checked, this`short, this`verified, budget, ctx
      ensures Valid() && Advances(start, Now(), pool)
      ensures short.Settled() ==> old(short.Settled())
      ensures old(short.tooDeep) ==> short.tooDeep
      ensures short.truncated == (full || old(short.truncated))
      ensures |found'| <= MAX_LEAVES_PER_STORE
      ensures Reported(short, found', picked', i + 1)
      ensures !full ==> Complete(short, found', i + 1)
      ensures full ==> Account(short, true, found')
    {
      hide Advances;
      ghost var before := short;
      found', picked', full := found, picked, false;
      var report := IsReported(index.all[i], start, pool);
      if !report {
        CompleteStep(before, short, found, found, i);
        ReportedStill(before, short, found, picked, i, i + 1);
      } else if |found| == MAX_LEAVES_PER_STORE {
        if short.Settled() {
          CompleteAtCap(before, found, i);
        }
        ghost var now := Now();
        short, full := short.(truncated := true), true;
        NoCheck(start, now, Now(), pool);
        ReportedStill(before, short, found, picked, i, i + 1);
      } else {
        var f := Report(index.all[i], start, pool);
        LeafOfAppend(found, f);
        CompleteStep(before, short, found, found + [f], i);
        ReportedAppend(before, short, found, picked, i, f);
        found', picked' := found + [f], picked + [i];
      }
    }

    method Report(cert: Certificate, ghost start: Progress, ghost pool: set<Certificate>) returns (f: LeafWithChain)
      requires Valid() && Advances(start, Now(), pool) && pool == (set c | c in index.all)
      requires cert in index.all && !cert.isCA
      modifies this`checked, this`short, this`verified, budget, ctx
      ensures Valid() && Advances(start, Now(), pool)
      ensures short.truncated == old(short.truncated) && (old(short.tooDeep) ==> short.tooDeep)
      ensures short.Settled() ==> old(short.Settled())
      ensures f.leaf == cert && Reports(short, f)
    {
      hide Advances;
      ghost var before := Now();
      BuiltIndexes(certs, issuers);
      CanonicalIsCopy(index.all, cert);
      assert Pool(Canonical(index.all, cert)) == pool;
      var chain := ChainFor(cert);
      AdvancesFurther(start, before, Now(), pool);
      return LeafWithChain(cert, chain);
    }

    /** Whether Leaves reports cert: always when it is a leaf, and only then while the store is settled. */
    method IsReported(cert: Certificate, ghost start: Progress, ghost pool: set<Certificate>) returns (report: bool)
      requires Valid() && Advances(start, Now(), pool) && cert in pool
      modifies this`checked, this`short, this`verified, budget, ctx
      ensures Valid() && Advances(start, Now(), pool)
      ensures short.truncated == old(short.truncated) && short.tooDeep == old(short.tooDeep)
      ensures short.Settled() ==> old(short.Settled())
      ensures report ==> !cert.isCA
      ensures IsLeaf(world, index.all, cert) ==> report
      ensures short.Settled() ==> report == IsLeaf(world, index.all, cert)
    {
      hide Advances;
      if cert.isCA {
        return false;
      }
      ghost var before := Now();
      NothingYet(before, pool);
      var issued := IssuedAnother(cert, before, pool);
      AdvancesFurther(start, before, Now(), pool);
      return !issued;
    }

    /** Where a walk stands: what it has, what it lacks, and whether either the depth or the reference ends here. */
    lemma WalkSoFar(chain: seq<Certificate>, rest: seq<Certificate>)
      requires |chain| <= MAX_CHAIN_DEPTH
      ensures chain <= Take(chain + rest, MAX_CHAIN_DEPTH)
      ensures rest == [] || |chain| == MAX_CHAIN_DEPTH ==> chain == Take(chain + rest, MAX_CHAIN_DEPTH)
    {
    }

    lemma NothingYet(now: Progress, pool: set<Certificate>)
      ensures Advances(now, now, pool)
    {
      assert now.verified[|now.verified|..] == [];
    }
  }
}
