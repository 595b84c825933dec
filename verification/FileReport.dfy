/** What one file's certificates, or one alias's, amount to: which of them are reported, and with what chains. */
module FileReport {
  import opened Basics
  import opened Certificates
  import opened Reference
  import opened ChainStore
  import opened Stores

  function Somes<T>(s: seq<T>): (r: seq<Option<T>>)
    ensures |r| == |s|
  {
    seq(|s|, i requires 0 <= i < |s| => Some(s[i]))
  }

  /** What a file holds once parsed: its certificates, and where a key for them is, if anywhere. */
  datatype Content = Content(certificates: seq<Certificate>, keyPath: Option<string>)

  /** The end-entity certificates of a list that may repeat itself, by the reference. */
  ghost function LeavesAmong(w: World, certs: seq<Certificate>): seq<Certificate> {
    var all := Distinct(Somes(certs));
    Reference.Leaves(w, all, all)
  }

  /** What looking for leaves among these certificates may find. Nothing is missing unless the store was
      truncated or interrupted; while signatures were settled nothing is there that should not be; and
      every chain is the start of the reference chain. */
  ghost predicate LeavesFound(w: World, certs: seq<Certificate>, short: Shortfall, found: seq<LeafWithChain>) {
    && (!short.truncated && !short.interrupted ==> forall l :: l in LeavesAmong(w, certs) ==> l in LeafOf(found))
    && (short.Settled() && !short.truncated ==> LeafOf(found) == LeavesAmong(w, certs))
    && NoCA(found)
    && ChainsRight(w, certs, short, found)
  }

  predicate NoCA(found: seq<LeafWithChain>) { forall i :: 0 <= i < |found| ==> !found[i].leaf.isCA }

  predicate AllCA(certs: seq<Certificate>) { forall i :: 0 <= i < |certs| ==> certs[i].isCA }

  /** The reference chain among these certificates. */
  ghost function WholeChain(w: World, certs: seq<Certificate>, leaf: Certificate): seq<Certificate> {
    ReferenceChain(w, Take(Distinct(Somes(certs)), MAX_CERTIFICATES_PER_STORE), leaf)
  }

  /** A start of the reference chain no longer than the fixed depth; all of that while signatures were
      settled; and the whole chain if it was not too deep either. */
  ghost predicate ChainRight(w: World, certs: seq<Certificate>, short: Shortfall, leaf: Certificate, chain: seq<Certificate>) {
    var whole := WholeChain(w, certs, leaf);
    && chain <= Take(whole, MAX_CHAIN_DEPTH)
    && (short.Settled() ==> chain == Take(whole, MAX_CHAIN_DEPTH))
    && (short.Settled() && !short.tooDeep ==> chain == whole)
  }

  ghost predicate ChainsRight(w: World, certs: seq<Certificate>, short: Shortfall, found: seq<LeafWithChain>) {
    && (forall i :: 0 <= i < |found| ==>
          found[i].leaf in certs && ChainRight(w, certs, short, found[i].leaf, found[i].chain))
    && (forall i, j :: 0 <= i < j < |found| ==> found[i].leaf != found[j].leaf)
  }

  /** The same for a file: one with a key always yields something, its first certificate when none of
      them is a leaf. CAs are reported in no other case, and with a key and nothing but CAs the first one
      always is, whatever the budget did. */
  ghost predicate FoundFor(w: World, c: Content, short: Shortfall, found: seq<LeafWithChain>) {
    var leaves := LeavesAmong(w, c.certificates);
    && (!short.truncated && !short.interrupted ==>
          && (forall l :: l in leaves ==> l in LeafOf(found))
          && (c.keyPath.Some? && c.certificates != [] ==> found != []))
    && (short.Settled() && !short.truncated ==>
          LeafOf(found) == if leaves == [] && c.keyPath.Some? && c.certificates != [] then [c.certificates[0]] else leaves)
    && (NoCA(found) || (c.keyPath.Some? && c.certificates != [] && LeafOf(found) == [c.certificates[0]]))
    && (c.keyPath.Some? && c.certificates != [] && AllCA(c.certificates) && !short.truncated && !short.interrupted ==>
          LeafOf(found) == [c.certificates[0]])
    && ChainsRight(w, c.certificates, short, found)
  }

  lemma SomesMember<T>(s: seq<T>, x: T)
    ensures Some(x) in Somes(s) <==> x in s
  {
    if x in s {
      var i :| 0 <= i < |s| && s[i] == x;
      assert Somes(s)[i] == Some(x);
    }
  }

  lemma ReportMeans(s: Store, certs: seq<Certificate>, short: Shortfall, f: LeafWithChain)
    requires s.index.all == Take(Distinct(Somes(certs)), MAX_CERTIFICATES_PER_STORE) && s.Reports(short, f)
    ensures !f.leaf.isCA && ChainRight(s.world, certs, short, f.leaf, f.chain)
  {
    hide ReferenceChain, Distinct;
  }

  lemma ReportedChainsRight(s: Store, certs: seq<Certificate>, short: Shortfall, found: seq<LeafWithChain>, picked: seq<nat>)
    requires s.ours <= |s.index.all| && s.Reported(short, found, picked, s.ours)
    requires s.index.all == Take(Distinct(Somes(certs)), MAX_CERTIFICATES_PER_STORE)
    ensures NoCA(found) && ChainsRight(s.world, certs, short, found)
  {
    hide ChainRight, Distinct, Store.Reports;
    DistinctKeepsOneOfEach(Somes(certs));
    forall i | 0 <= i < |found|
      ensures found[i].leaf in certs && !found[i].leaf.isCA
      ensures ChainRight(s.world, certs, short, found[i].leaf, found[i].chain)
    {
      ReportMeans(s, certs, short, found[i]);
      SomesMember(certs, found[i].leaf);
    }
    forall i, j | 0 <= i < j < |found| ensures found[i].leaf != found[j].leaf {
      assert picked[i] < picked[j];
    }
  }

  /** What the store promises of Leaves, said of the certificates it was made from. */
  lemma LeavesMean(s: Store, certs: seq<Certificate>, short: Shortfall, found: seq<LeafWithChain>, picked: seq<nat>, full: bool)
    requires s.index.Indexes(Somes(certs)) && s.ours <= |s.index.all|
    requires s.index.all[..s.ours] == Take(Distinct(Somes(certs)), MAX_CERTIFICATES_PER_STORE)
    requires s.Reported(short, found, picked, s.ours) && s.Account(short, full, found)
    requires short.truncated == (s.index.truncated || full)
    ensures LeavesFound(s.world, certs, short, found)
  {
    hide ChainsRight, NoCA, Distinct, Store.Reported, Reference.Leaves, Index.Valid;
    var all := Distinct(Somes(certs));
    assert s.index.all == Take(all, MAX_CERTIFICATES_PER_STORE) == s.index.all[..s.ours];
    ReportedChainsRight(s, certs, short, found, picked);
    if !short.truncated {
      assert s.index.all == all;
      assert s.ReferenceLeaves() == LeavesAmong(s.world, certs);
    }
  }

  lemma FoundAsIs(w: World, c: Content, short: Shortfall, found: seq<LeafWithChain>)
    requires LeavesFound(w, c.certificates, short, found)
    requires found != [] || c.keyPath.None? || c.certificates == [] || short.interrupted
    ensures FoundFor(w, c, short, found)
  {
    hide LeavesAmong, ChainRight;
    assert NoCA(found) && ChainsRight(w, c.certificates, short, found);
    if found != [] {
      assert found[0].leaf in c.certificates && !found[0].leaf.isCA;
    }
    if found != [] && short.Settled() && !short.truncated {
      assert LeafOf(found)[0] == LeavesAmong(w, c.certificates)[0];
    }
  }

  lemma HasMember<T>(s: seq<T>)
    ensures s != [] ==> exists x :: x in s
  {
    if s != [] {
      assert s[0] in s;
    }
  }

  lemma FoundFirst(w: World, c: Content, before: Shortfall, short: Shortfall, chain: seq<Certificate>)
    requires c.certificates != [] && c.keyPath.Some?
    requires LeavesFound(w, c.certificates, before, []) && !before.interrupted
    requires short.truncated == before.truncated && (short.Settled() ==> before.Settled())
    requires ChainRight(w, c.certificates, short, c.certificates[0], chain)
    ensures FoundFor(w, c, short, [LeafWithChain(c.certificates[0], chain)])
  {
    hide LeavesAmong, ChainRight;
    assert LeafOf([]) == [];
    var leaves, found := LeavesAmong(w, c.certificates), [LeafWithChain(c.certificates[0], chain)];
    assert LeafOf(found) == [c.certificates[0]];
    if !short.truncated {
      HasMember(leaves);
    }
  }

  /** What the store promises of ChainFor, said of the certificates it was made from. */
  lemma FirstChainRight(s: Store, certs: seq<Certificate>, chain: seq<Certificate>)
    requires s.index.Indexes(Somes(certs)) && certs != []
    requires chain <= Take(s.Above(certs[0]), MAX_CHAIN_DEPTH)
    requires s.short.Settled() ==> chain == Take(s.Above(certs[0]), MAX_CHAIN_DEPTH)
    requires s.short.Settled() && !s.short.tooDeep ==> |s.Above(certs[0])| <= MAX_CHAIN_DEPTH
    ensures ChainRight(s.world, certs, s.short, certs[0], chain)
  {
    hide ReferenceChain;
  }

  lemma AdvancesInLargerPool(a: Progress, b: Progress, pool: set<Certificate>, larger: set<Certificate>)
    requires Advances(a, b, pool) && pool <= larger
    ensures Advances(a, b, larger)
  {
  }

  /** What a fresh store's work amounts to for those it shares its budget and context with. */
  lemma FreshStoreCharged(start: Progress, end: Progress, pool: set<Certificate>)
    requires Advances(start, end, pool) && start.verified == [] && !start.short.interrupted
    ensures end.ledger == start.ledger + Costs(end.verified)
    ensures end.short.interrupted ==> end.cancelled
    ensures start.cancelled ==> end.cancelled
  {
    assert end.verified[0..] == end.verified;
  }

  /** Examining one file's certificates: every leaf, or with a key the first certificate. `verified` is
      every pair checked, each once, and what the budget was charged for. */
  method Examine(w: World, ctx: Context, budget: Budget, c: Content)
    returns (found: seq<LeafWithChain>, short: Shortfall, ghost verified: seq<Pair>)
    requires budget.Valid()
    modifies ctx, budget
    ensures budget.Valid() && budget.ledger == old(budget.ledger) + Costs(verified) && NoDuplicates(verified)
    ensures FoundFor(w, c, short, found)
    ensures short.interrupted ==> ctx.Cancelled()
    ensures old(ctx.Cancelled()) ==> ctx.Cancelled()
  {
    hide Advances, LeavesFound, FoundFor, ReferenceChain, ChainAbove, Canonical, Distinct, Take, Costs, Store.Reported, Store.Account, Store.Pool;
    var certs := c.certificates;
    assert Somes(certs) + [] == Somes(certs);
    var store := new Store(w, ctx, budget, Somes(certs), []);
    ghost var start, all := store.Now(), set x | x in store.index.all;
    ghost var picked, full;
    found, picked, full := store.Leaves();
    LeavesMean(store, certs, store.short, found, picked, full);
    FreshStoreCharged(start, store.Now(), all);
    if |found| == 0 && c.keyPath.Some? && |certs| > 0 && !store.short.interrupted {
      ghost var before, middle := store.short, store.Now();
      var chain := store.ChainFor(certs[0]);
      ghost var pool := store.Pool(Canonical(store.index.all, certs[0]));
      AdvancesInLargerPool(start, middle, all, all + pool);
      AdvancesInLargerPool(middle, store.Now(), pool, all + pool);
      AdvancesFurther(start, middle, store.Now(), all + pool);
      FreshStoreCharged(start, store.Now(), all + pool);
      FirstChainRight(store, certs, chain);
      FoundFirst(w, c, before, store.short, chain);
      found := [LeafWithChain(certs[0], chain)];
    } else {
      FoundAsIs(w, c, store.short, found);
    }
    short, verified := store.short, store.verified;
  }
}
