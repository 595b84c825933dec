/** parse.JavaKeystore as the agent runs it: a reader that advances, and once it has failed stays failed. */
module JavaKeystores {
  import opened Basics
  import opened Certificates
  import opened ModifiedUtf8
  import opened KeystoreFormat

  /** A bounds-checked big-endian reader. */
  class BeReader {
    const data: Bytes
    var pos: nat
    var err: Option<Fault>

    ghost predicate Valid()
      reads this
    {
      pos <= |data|
    }

    constructor (data: Bytes)
      ensures Valid() && this.data == data && pos == 0 && err == None
    {
      this.data := data;
      pos, err := 0, None;
    }

    /** The reader did what this read says, or had already failed and did nothing. */
    twostate predicate Did<T>(r: Read<T>, value: T, zero: T)
      reads this
    {
      if old(err).Some? then pos == old(pos) && err == old(err) && value == zero
      else match r
        case Got(v, next) => value == v && pos == next && err == None
        case Stopped(fault) => value == zero && err == Some(fault)
    }

    /** The next n bytes, or nil: nothing is sliced before what remains is checked, and after a failure
        the position never moves. */
    method Take(n: int) returns (b: Option<Bytes>)
      requires Valid()
      modifies this
      ensures Valid()
      ensures if old(err).Some? then b == None && pos == old(pos) && err == old(err) else
        match TakeAt(data, old(pos), n)
        case Got(bytes, next) => b == Some(bytes) && pos == next && err == None
        case Stopped(fault) => b == None && pos == old(pos) && err == Some(fault)
    {
      if err.Some? {
        return None;
      }
      if n < 0 || n > |data| - pos {
        err := Some(Truncated(n, |data| - pos));
        return None;
      }
      b := Some(data[pos..pos + n]);
      pos := pos + n;
    }

    method U16() returns (n: nat)
      requires Valid()
      modifies this
      ensures Valid() && Did(U16At(data, old(pos)), n, 0)
    {
      var b := Take(2);
      n := if b.None? then 0 else BigEndian(b.value);
    }

    method U32() returns (n: nat)
      requires Valid()
      modifies this
      ensures Valid() && Did(U32At(data, old(pos)), n, 0)
    {
      var b := Take(4);
      n := if b.None? then 0 else BigEndian(b.value);
    }

    method Skip(n: int)
      requires Valid()
      modifies this
      ensures Valid()
      ensures if old(err).Some? then pos == old(pos) && err == old(err) else
        match TakeAt(data, old(pos), n)
        case Got(_, next) => pos == next && err == None
        case Stopped(fault) => err == Some(fault)
    {
      var _ := Take(n);
    }

    method Utf() returns (text: Text)
      requires Valid()
      modifies this
      ensures Valid() && Did(UtfAt(data, old(pos)), text, [])
    {
      var length := U16();
      var raw := Take(length);
      if raw.None? {
        return [];
      }
      text := DecodeModifiedUtf8(raw.value);
    }

    /** One certificate: the one read, none when the library cannot parse it, or the fault. */
    method Certificate(parse: Oracle, version: nat) returns (cert: Option<Certificate>, fault: Option<Fault>)
      requires Valid() && err == None
      modifies this
      ensures Valid()
      ensures match CertificateAt(parse, data, version, old(pos))
        case Got(c, next) => cert == c && fault == None && pos == next && err == None
        case Stopped(f) => fault == Some(f)
    {
      if version == 2 {
        var kind := Utf();
        if kind != [] && kind != X_509 && kind != X509 {
          return None, Some(WrongKind(kind));
        }
      }
      var length := U32();
      var der := Take(length);
      if err.Some? {
        return None, err;
      }
      return parse(der.value), None;
    }

    /** The n certificates that follow a private key; the first fault ends them. */
    method Chain(parse: Oracle, version: nat, n: nat) returns (certs: seq<Certificate>, fault: Option<Fault>)
      requires Valid() && err == None
      modifies this
      ensures Valid()
      ensures match ChainAt(parse, data, version, old(pos), n)
        case Got(cs, next) => certs == cs && fault == None && pos == next && err == None
        case Stopped(f) => fault == Some(f)
    {
      certs, fault := [], None;
      AfterNothing(ChainAt(parse, data, version, pos, n));
      for j := 0 to n
        invariant Valid() && err == None && fault == None
        invariant ChainAt(parse, data, version, old(pos), n) == After(certs, ChainAt(parse, data, version, pos, n - j))
      {
        ghost var before := certs;
        var cert;
        cert, fault := Certificate(parse, version);
        if fault.Some? {
          return;
        }
        if cert.Some? {
          certs := certs + [cert.value];
        }
        AfterStep(before, cert, ChainAt(parse, data, version, pos, n - j - 1));
      }
      assert certs + [] == certs;
    }

    /** One turn of the entry loop: an entry, or the error that ends the file. */
    method ReadEntry(parse: Oracle, version: nat, number: nat) returns (result: EntryRead)
      requires Valid() && err == None
      modifies this
      ensures Valid()
      ensures match EntryAt(parse, data, version, number, old(pos))
        case Entry(e, next) => result == Entry(e, next) && pos == next && err == None
        case Bad(error) => result == Bad(error)
    {
      var tag := U32();
      var alias := Utf();
      Skip(DATE_BYTES);
      if err.Some? {
        return Bad(EntryFault(number, err.value));
      }
      result := ReadBody(parse, version, Header(tag, alias));
    }

    method ReadBody(parse: Oracle, version: nat, header: Header) returns (result: EntryRead)
      requires Valid() && err == None
      modifies this
      ensures Valid()
      ensures match BodyAt(parse, data, version, header, old(pos))
        case Entry(e, next) => result == Entry(e, next) && pos == next && err == None
        case Bad(error) => result == Bad(error)
    {
      var alias := header.alias;
      if header.tag == ENTRY_PRIVATE_KEY {
        // The key itself: stepped over by its length, and never read into anything.
        var keyLen := U32();
        Skip(keyLen);
        var chainLen := U32();
        if err.Some? {
          return Bad(AliasFault(alias, err.value));
        }
        if chainLen > |data| / 12 {
          return Bad(ChainTooLong(alias, chainLen));
        }
        var certs, fault := Chain(parse, version, chainLen);
        if fault.Some? {
          return Bad(AliasFault(alias, fault.value));
        }
        return Entry(KeystoreEntry(alias, certs, true), pos);
      } else if header.tag == ENTRY_TRUSTED_CERT {
        var cert, fault := Certificate(parse, version);
        if fault.Some? {
          return Bad(AliasFault(alias, fault.value));
        }
        return Entry(KeystoreEntry(alias, if cert.Some? then [cert.value] else [], false), pos);
      } else if header.tag == ENTRY_JCEKS_SECRET {
        return Bad(SecretKey(alias));
      } else {
        return Bad(UnknownType(alias, header.tag));
      }
    }
  }

  ghost function After(certs: seq<Certificate>, r: Read<seq<Certificate>>): Read<seq<Certificate>> {
    match r
    case Got(rest, next) => Got(certs + rest, next)
    case Stopped(f) => Stopped(f)
  }

  lemma AfterNothing(r: Read<seq<Certificate>>)
    ensures After([], r) == r
  {
    if r.Got? {
      assert [] + r.value == r.value;
    }
  }

  lemma AfterStep(certs: seq<Certificate>, cert: Option<Certificate>, r: Read<seq<Certificate>>)
    ensures var one := if cert.Some? then [cert.value] else [];
      && After(certs, After(one, r)) == After(certs + one, r)
      && (cert.Some? ==> certs + one == certs + [cert.value])
      && (cert.None? ==> certs + one == certs)
  {
    if r.Got? {
      var one := if cert.Some? then [cert.value] else [];
      assert certs + (one + r.value) == certs + one + r.value;
    }
  }

  /** The certificates of a JKS or JCEKS file, entry by entry, and why reading stopped if it did. */
  method JavaKeystore(parse: Oracle, data: Bytes) returns (entries: seq<KeystoreEntry>, error: Option<KeystoreError>)
    ensures Contents(entries, error) == Parse(parse, data)
  {
    entries, error := [], None;
    var r := new BeReader(data);
    var magic := r.U32();
    if r.err.Some? || (magic != JKS_MAGIC && magic != JCEKS_MAGIC) {
      return [], Some(NotAJavaKeystore);
    }
    var version := r.U32();
    if version != 1 && version != 2 {
      return [], Some(UnsupportedVersion(version));
    }
    var count := r.U32();
    if r.err.Some? {
      return [], Some(NotAJavaKeystore);
    }
    if count > |data| / 12 {
      return [], Some(TooManyEntries(count));
    }
    entries, error := ReadEntries(r, parse, version, count);
  }

  method ReadEntries(r: BeReader, parse: Oracle, version: nat, count: nat)
    returns (entries: seq<KeystoreEntry>, error: Option<KeystoreError>)
    requires r.Valid() && r.err == None
    modifies r
    ensures Contents(entries, error) == EntriesAt(parse, r.data, version, 1, old(r.pos), count)
  {
    hide EntryAt;
    entries, error := [], None;
    OntoNothing(EntriesAt(parse, r.data, version, 1, r.pos, count));
    for i := 0 to count
      invariant r.Valid() && r.err == None && error == None
      invariant EntriesAt(parse, r.data, version, 1, old(r.pos), count) ==
        Onto(entries, EntriesAt(parse, r.data, version, 1 + i, r.pos, count - i))
    {
      var result := r.ReadEntry(parse, version, 1 + i);
      match result
      case Bad(e) =>
        OntoNothing(Contents(entries, Some(e)));
        return entries, Some(e);
      case Entry(entry, _) =>
        OntoStep(entries, entry, EntriesAt(parse, r.data, version, 2 + i, r.pos, count - i - 1));
        entries := entries + [entry];
    }
    OntoNothing(Contents(entries, None));
  }

  ghost function Onto(entries: seq<KeystoreEntry>, rest: Contents): Contents {
    Contents(entries + rest.entries, rest.error)
  }

  lemma OntoNothing(rest: Contents)
    ensures Onto([], rest) == rest && Onto(rest.entries, Contents([], rest.error)) == rest
  {
    assert [] + rest.entries == rest.entries && rest.entries + [] == rest.entries;
  }

  lemma OntoStep(entries: seq<KeystoreEntry>, entry: KeystoreEntry, rest: Contents)
    ensures Onto(entries, Contents([entry] + rest.entries, rest.error)) == Onto(entries + [entry], rest)
  {
    assert entries + ([entry] + rest.entries) == entries + [entry] + rest.entries;
  }
}
