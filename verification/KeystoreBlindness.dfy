/**
 The private keys are never read: two files that differ only inside the skipped key blobs and creation
 dates are the same file to the parser, in what it returns and in how it fails.
 */
module KeystoreBlindness {
  import opened Basics
  import opened Certificates
  import opened ModifiedUtf8
  import opened KeystoreFormat

  // ── the positions that are stepped over ────────────────────────────────────

  /** i is a byte of the creation date of the entry at pos. */
  predicate BlindDate(data: Bytes, pos: nat, i: nat)
    requires pos <= |data|
  {
    var tag := U32At(data, pos);
    tag.Got? && var alias := UtfAt(data, tag.next); alias.Got? && alias.next <= i < alias.next + DATE_BYTES
  }

  /** i is a byte of the private key whose length stands at pos. */
  predicate BlindKey(data: Bytes, pos: nat, i: nat)
    requires pos <= |data|
  {
    var keyLen := U32At(data, pos);
    keyLen.Got? && keyLen.next <= i < keyLen.next + keyLen.value
  }

  predicate BlindEntry(data: Bytes, pos: nat, i: nat)
    requires pos <= |data|
  {
    var header := HeaderAt(data, pos);
    || BlindDate(data, pos, i)
    || (header.Got? && header.value.tag == ENTRY_PRIVATE_KEY && BlindKey(data, header.next, i))
  }

  predicate BlindEntries(parse: Oracle, data: Bytes, version: nat, number: nat, pos: nat, left: nat, i: nat)
    requires pos <= |data|
    decreases left
  {
    left > 0 &&
    var entry := EntryAt(parse, data, version, number, pos);
    || BlindEntry(data, pos, i)
    || (entry.Entry? && BlindEntries(parse, data, version, number + 1, entry.next, left - 1, i))
  }

  /** i is in a creation date or private-key blob: a header of 12 bytes comes first, then the entries. */
  predicate Blind(parse: Oracle, data: Bytes, i: nat) {
    && |data| >= 12
    && BlindEntries(parse, data, BigEndian(data[4..8]), 1, 12, BigEndian(data[8..12]), i)
  }

  lemma {:induction false} BlindEntriesAhead(parse: Oracle, data: Bytes, version: nat, number: nat, pos: nat, left: nat, i: nat)
    requires pos <= |data| && BlindEntries(parse, data, version, number, pos, left, i)
    ensures pos <= i
    decreases left
  {
    var e := EntryAt(parse, data, version, number, pos);
    if !BlindEntry(data, pos, i) {
      BlindEntriesAhead(parse, data, version, number + 1, e.next, left - 1, i);
    }
  }

  // ── reading the same ───────────────────────────────────────────────────────

  ghost predicate AgreeOn(a: Bytes, b: Bytes, start: nat, end: nat) {
    |a| == |b| && forall i :: start <= i < end && i < |a| ==> a[i] == b[i]
  }

  /** How far a read depends on the bytes: to where it ended, or to the end of the file. */
  function End<T>(r: Read<T>, data: Bytes): nat { if r.Got? then r.next else |data| }

  lemma SameTake(a: Bytes, b: Bytes, pos: nat, n: int)
    requires pos <= |a| && AgreeOn(a, b, pos, End(TakeAt(a, pos, n), a))
    ensures TakeAt(a, pos, n) == TakeAt(b, pos, n)
  {
    if 0 <= n <= |a| - pos {
      assert a[pos..pos + n] == b[pos..pos + n];
    }
  }

  lemma SameU32(a: Bytes, b: Bytes, pos: nat)
    requires pos <= |a| && AgreeOn(a, b, pos, pos + 4)
    ensures U32At(a, pos) == U32At(b, pos)
  {
    if pos + 4 <= |a| {
      SameTake(a, b, pos, 4);
    }
  }

  lemma SameUtf(a: Bytes, b: Bytes, pos: nat)
    requires pos <= |a| && AgreeOn(a, b, pos, End(UtfAt(a, pos), a))
    ensures UtfAt(a, pos) == UtfAt(b, pos)
  {
    SameTake(a, b, pos, 2);
    var n := U16At(a, pos);
    if n.Got? {
      SameTake(a, b, n.next, n.value);
    }
  }

  lemma SameDer(parse: Oracle, a: Bytes, b: Bytes, pos: nat)
    requires pos <= |a| && AgreeOn(a, b, pos, End(DerAt(parse, a, pos), a))
    ensures DerAt(parse, a, pos) == DerAt(parse, b, pos)
  {
    SameU32(a, b, pos);
    var n := U32At(a, pos);
    if n.Got? {
      SameTake(a, b, n.next, n.value);
    }
  }

  lemma SameCertificate(parse: Oracle, a: Bytes, b: Bytes, version: nat, pos: nat)
    requires pos <= |a| && AgreeOn(a, b, pos, End(CertificateAt(parse, a, version, pos), a))
    ensures CertificateAt(parse, a, version, pos) == CertificateAt(parse, b, version, pos)
  {
    if version == 2 {
      SameUtf(a, b, pos);
      var kind := UtfAt(a, pos);
      if kind.Got? && (kind.value == [] || kind.value == X_509 || kind.value == X509) {
        SameDer(parse, a, b, kind.next);
      }
    } else {
      SameDer(parse, a, b, pos);
    }
  }

  lemma {:induction false} SameChain(parse: Oracle, a: Bytes, b: Bytes, version: nat, pos: nat, n: nat)
    requires pos <= |a| && AgreeOn(a, b, pos, End(ChainAt(parse, a, version, pos, n), a))
    ensures ChainAt(parse, a, version, pos, n) == ChainAt(parse, b, version, pos, n)
    decreases n
  {
    hide CertificateAt;
    if n > 0 {
      SameCertificate(parse, a, b, version, pos);
      var c := CertificateAt(parse, a, version, pos);
      if c.Got? {
        SameChain(parse, a, b, version, c.next, n - 1);
      }
    }
  }

  lemma SameHeader(a: Bytes, b: Bytes, pos: nat)
    requires pos <= |a| && |a| == |b|
    requires forall i :: pos <= i < End(HeaderAt(a, pos), a) && !BlindDate(a, pos, i) ==> a[i] == b[i]
    ensures HeaderAt(a, pos) == HeaderAt(b, pos)
  {
    SameU32(a, b, pos);
    var tag := U32At(a, pos);
    if tag.Got? {
      SameUtf(a, b, tag.next);
    }
  }

  lemma SameKey(a: Bytes, b: Bytes, pos: nat)
    requires pos <= |a| && |a| == |b|
    requires forall i :: pos <= i < End(KeyAt(a, pos), a) && !BlindKey(a, pos, i) ==> a[i] == b[i]
    ensures KeyAt(a, pos) == KeyAt(b, pos)
  {
    SameU32(a, b, pos);
    var n := U32At(a, pos);
    if n.Got? && n.value <= |a| - n.next {
      SameU32(a, b, n.next + n.value);
    }
  }

  /** How far an entry depends on the bytes. */
  function EntryEnd(r: EntryRead, data: Bytes): nat { if r.Entry? then r.next else |data| }

  lemma SameBody(parse: Oracle, a: Bytes, b: Bytes, version: nat, header: Header, pos: nat)
    requires pos <= |a| && |a| == |b|
    requires forall i :: pos <= i < EntryEnd(BodyAt(parse, a, version, header, pos), a) ==>
      a[i] == b[i] || (header.tag == ENTRY_PRIVATE_KEY && BlindKey(a, pos, i))
    ensures BodyAt(parse, a, version, header, pos) == BodyAt(parse, b, version, header, pos)
  {
    if header.tag == ENTRY_PRIVATE_KEY {
      SameKey(a, b, pos);
      var k := KeyAt(a, pos);
      if k.Got? && k.value <= |a| / 12 {
        SameChain(parse, a, b, version, k.next, k.value);
      }
    } else if header.tag == ENTRY_TRUSTED_CERT {
      SameChain(parse, a, b, version, pos, 1);
    }
  }

  lemma SameEntry(parse: Oracle, a: Bytes, b: Bytes, version: nat, number: nat, pos: nat)
    requires pos <= |a| && |a| == |b|
    requires forall i :: pos <= i < EntryEnd(EntryAt(parse, a, version, number, pos), a) && !BlindEntry(a, pos, i) ==> a[i] == b[i]
    ensures EntryAt(parse, a, version, number, pos) == EntryAt(parse, b, version, number, pos)
  {
    SameHeader(a, b, pos);
    var h := HeaderAt(a, pos);
    if h.Got? {
      SameBody(parse, a, b, version, h.value, h.next);
    }
  }

  lemma {:induction false} SameEntries(parse: Oracle, a: Bytes, b: Bytes, version: nat, number: nat, pos: nat, left: nat)
    requires pos <= |a| && |a| == |b|
    requires forall i :: pos <= i < |a| && !BlindEntries(parse, a, version, number, pos, left, i) ==> a[i] == b[i]
    ensures EntriesAt(parse, a, version, number, pos, left) == EntriesAt(parse, b, version, number, pos, left)
    decreases left
  {
    if left > 0 {
      var e := EntryAt(parse, a, version, number, pos);
      forall i | pos <= i < EntryEnd(e, a) && !BlindEntry(a, pos, i) ensures a[i] == b[i] {
        if BlindEntries(parse, a, version, number, pos, left, i) {
          BlindEntriesAhead(parse, a, version, number + 1, e.next, left - 1, i);
        }
      }
      SameEntry(parse, a, b, version, number, pos);
      if e.Entry? {
        forall i | e.next <= i < |a| && !BlindEntries(parse, a, version, number + 1, e.next, left - 1, i)
          ensures a[i] == b[i]
        {
          BlindStopsAtEnd(parse, a, version, number, pos, i);
        }
        SameEntries(parse, a, b, version, number + 1, e.next, left - 1);
      }
    }
  }

  /** An entry's own blind bytes lie before its end. */
  lemma BlindStopsAtEnd(parse: Oracle, data: Bytes, version: nat, number: nat, pos: nat, i: nat)
    requires pos <= |data| && EntryAt(parse, data, version, number, pos).Entry?
    requires EntryAt(parse, data, version, number, pos).next <= i
    ensures !BlindEntry(data, pos, i)
  {
  }

  /** Two files of one length that agree outside the first one's key blobs and dates give the same
      entries and the same error. */
  lemma KeysAreNeverRead(parse: Oracle, a: Bytes, b: Bytes)
    requires |a| == |b|
    requires forall i :: 0 <= i < |a| && !Blind(parse, a, i) ==> a[i] == b[i]
    ensures Parse(parse, a) == Parse(parse, b)
  {
    if |a| < 12 {
      assert a == b;
    } else {
      var version, count := BigEndian(a[4..8]), BigEndian(a[8..12]);
      forall i | 0 <= i < 12 ensures a[i] == b[i] {
        if Blind(parse, a, i) {
          BlindEntriesAhead(parse, a, version, 1, 12, count, i);
        }
      }
      SameU32(a, b, 0);
      SameU32(a, b, 4);
      SameU32(a, b, 8);
      SameEntries(parse, a, b, version, 1, 12, count);
    }
  }
}
