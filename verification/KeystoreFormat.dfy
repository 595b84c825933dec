/**
 The Sun keystore format: what each position of a file holds, read without any state, and the errors
 a fault is reported as. `parse` stands for the X.509 library: a certificate, or nothing.
 */
module KeystoreFormat {
  import opened Basics
  import opened Certificates
  import opened ModifiedUtf8

  const JKS_MAGIC: nat := 0xFEEDFEED
  const JCEKS_MAGIC: nat := 0xCECECECE
  const ENTRY_PRIVATE_KEY: nat := 1
  const ENTRY_TRUSTED_CERT: nat := 2
  const ENTRY_JCEKS_SECRET: nat := 3
  const DATE_BYTES: nat := 8

  // "X.509" and "X509".
  const X_509: Text := [88, 46, 53, 48, 57]
  const X509: Text := [88, 53, 48, 57]

  type Oracle = Bytes -> Option<Certificate>

  datatype KeystoreEntry = KeystoreEntry(alias: Text, certificates: seq<Certificate>, hasPrivateKey: bool)

  datatype Fault = Truncated(wanted: int, remain: nat) | WrongKind(kind: Text)

  datatype KeystoreError =
    | NotAJavaKeystore
    | UnsupportedVersion(version: nat)
    | TooManyEntries(count: nat)
    | EntryFault(number: nat, fault: Fault)
    | AliasFault(alias: Text, fault: Fault)
    | ChainTooLong(alias: Text, chainLen: nat)
    | SecretKey(alias: Text)
    | UnknownType(alias: Text, tag: nat)

  /** One thing read at a position, and where it ended, or the fault that stopped it. */
  datatype Read<+T> = Got(value: T, next: nat) | Stopped(fault: Fault)

  // ── fields ─────────────────────────────────────────────────────────────────

  function TakeAt(data: Bytes, pos: nat, n: int): (r: Read<Bytes>)
    requires pos <= |data|
    ensures r.Got? ==> r.next == pos + n <= |data| && |r.value| == n
  {
    if n < 0 || n > |data| - pos then Stopped(Truncated(n, |data| - pos)) else Got(data[pos..pos + n], pos + n)
  }

  /** The number these bytes write, most significant first. */
  function BigEndian(b: Bytes): nat {
    if b == [] then 0 else
    var low: nat := b[|b| - 1];
    BigEndian(b[..|b| - 1]) * 0x100 + low
  }

  function U16At(data: Bytes, pos: nat): (r: Read<nat>)
    requires pos <= |data|
    ensures r.Got? ==> r.next == pos + 2 <= |data|
  {
    match TakeAt(data, pos, 2)
    case Got(b, next) => Got(BigEndian(b), next)
    case Stopped(f) => Stopped(f)
  }

  function U32At(data: Bytes, pos: nat): (r: Read<nat>)
    requires pos <= |data|
    ensures r.Got? ==> r.next == pos + 4 <= |data|
  {
    match TakeAt(data, pos, 4)
    case Got(b, next) => Got(BigEndian(b), next)
    case Stopped(f) => Stopped(f)
  }

  function UtfAt(data: Bytes, pos: nat): (r: Read<Text>)
    requires pos <= |data|
    ensures r.Got? ==> pos + 2 <= r.next <= |data|
  {
    match U16At(data, pos)
    case Stopped(f) => Stopped(f)
    case Got(length, next) =>
      match TakeAt(data, next, length)
      case Stopped(f) => Stopped(f)
      case Got(raw, after) => Got(Decode(raw), after)
  }

  function CertificateAt(parse: Oracle, data: Bytes, version: nat, pos: nat): (r: Read<Option<Certificate>>)
    requires pos <= |data|
    ensures r.Got? ==> pos + 4 <= r.next <= |data|
  {
    if version == 2 then
      match UtfAt(data, pos)
      case Stopped(f) => Stopped(f)
      case Got(kind, next) =>
        if kind != [] && kind != X_509 && kind != X509 then Stopped(WrongKind(kind)) else DerAt(parse, data, next)
    else DerAt(parse, data, pos)
  }

  function DerAt(parse: Oracle, data: Bytes, pos: nat): (r: Read<Option<Certificate>>)
    requires pos <= |data|
    ensures r.Got? ==> pos + 4 <= r.next <= |data|
  {
    match U32At(data, pos)
    case Stopped(f) => Stopped(f)
    case Got(length, next) =>
      match TakeAt(data, next, length)
      case Stopped(f) => Stopped(f)
      case Got(der, after) => Got(parse(der), after)
  }

  function ChainAt(parse: Oracle, data: Bytes, version: nat, pos: nat, n: nat): (r: Read<seq<Certificate>>)
    requires pos <= |data|
    ensures r.Got? ==> pos <= r.next <= |data|
    decreases n
  {
    if n == 0 then Got([], pos) else
    match CertificateAt(parse, data, version, pos)
    case Stopped(f) => Stopped(f)
    case Got(cert, next) =>
      match ChainAt(parse, data, version, next, n - 1)
      case Stopped(f) => Stopped(f)
      case Got(rest, after) => Got((if cert.Some? then [cert.value] else []) + rest, after)
  }

  // ── entries ────────────────────────────────────────────────────────────────

  datatype EntryRead = Entry(entry: KeystoreEntry, next: nat) | Bad(error: KeystoreError)

  datatype Header = Header(tag: nat, alias: Text)

  /** Tag, alias and creation date: the part every entry starts with. */
  function HeaderAt(data: Bytes, pos: nat): (r: Read<Header>)
    requires pos <= |data|
    ensures r.Got? ==> pos + 6 + DATE_BYTES <= r.next <= |data|
  {
    match U32At(data, pos)
    case Stopped(f) => Stopped(f)
    case Got(tag, p) =>
      match UtfAt(data, p)
      case Stopped(f) => Stopped(f)
      case Got(alias, q) =>
        match TakeAt(data, q, DATE_BYTES)
        case Stopped(f) => Stopped(f)
        case Got(_, next) => Got(Header(tag, alias), next)
  }

  /** Steps over the private key, and reads how many certificates follow it. */
  function KeyAt(data: Bytes, pos: nat): (r: Read<nat>)
    requires pos <= |data|
    ensures r.Got? ==> pos + 8 <= r.next <= |data|
  {
    match U32At(data, pos)
    case Stopped(f) => Stopped(f)
    case Got(keyLen, p) =>
      match TakeAt(data, p, keyLen)
      case Stopped(f) => Stopped(f)
      case Got(_, q) => U32At(data, q)
  }

  function BodyAt(parse: Oracle, data: Bytes, version: nat, header: Header, pos: nat): (r: EntryRead)
    requires pos <= |data|
    ensures r.Entry? ==> pos <= r.next <= |data|
  {
    var alias := header.alias;
    if header.tag == ENTRY_PRIVATE_KEY then
      match KeyAt(data, pos)
      case Stopped(f) => Bad(AliasFault(alias, f))
      case Got(chainLen, next) =>
        if chainLen > |data| / 12 then Bad(ChainTooLong(alias, chainLen)) else
        match ChainAt(parse, data, version, next, chainLen)
        case Stopped(f) => Bad(AliasFault(alias, f))
        case Got(certs, after) => Entry(KeystoreEntry(alias, certs, true), after)
    else if header.tag == ENTRY_TRUSTED_CERT then
      match ChainAt(parse, data, version, pos, 1)
      case Stopped(f) => Bad(AliasFault(alias, f))
      case Got(certs, after) => Entry(KeystoreEntry(alias, certs, false), after)
    else if header.tag == ENTRY_JCEKS_SECRET then Bad(SecretKey(alias))
    else Bad(UnknownType(alias, header.tag))
  }

  function EntryAt(parse: Oracle, data: Bytes, version: nat, number: nat, pos: nat): (r: EntryRead)
    requires pos <= |data|
    ensures r.Entry? ==> pos + 14 <= r.next <= |data|
  {
    match HeaderAt(data, pos)
    case Stopped(f) => Bad(EntryFault(number, f))
    case Got(header, next) => BodyAt(parse, data, version, header, next)
  }

  datatype Contents = Contents(entries: seq<KeystoreEntry>, error: Option<KeystoreError>)

  /** The entries from position pos on, `left` of them, the first of them being number. */
  function EntriesAt(parse: Oracle, data: Bytes, version: nat, number: nat, pos: nat, left: nat): Contents
    requires pos <= |data|
    decreases left
  {
    if left == 0 then Contents([], None) else
    match EntryAt(parse, data, version, number, pos)
    case Bad(error) => Contents([], Some(error))
    case Entry(entry, next) =>
      var rest := EntriesAt(parse, data, version, number + 1, next, left - 1);
      Contents([entry] + rest.entries, rest.error)
  }

  /** Everything JavaKeystore returns for these bytes. */
  function Parse(parse: Oracle, data: Bytes): Contents {
    match U32At(data, 0)
    case Stopped(_) => Contents([], Some(NotAJavaKeystore))
    case Got(magic, p) =>
      if magic != JKS_MAGIC && magic != JCEKS_MAGIC then Contents([], Some(NotAJavaKeystore)) else
      match U32At(data, p)
      case Stopped(_) => Contents([], Some(UnsupportedVersion(0)))
      case Got(version, q) =>
        if version != 1 && version != 2 then Contents([], Some(UnsupportedVersion(version))) else
        match U32At(data, q)
        case Stopped(_) => Contents([], Some(NotAJavaKeystore))
        case Got(count, next) =>
          if count > |data| / 12 then Contents([], Some(TooManyEntries(count)))
          else EntriesAt(parse, data, version, 1, next, count)
  }

  // ── truncation ─────────────────────────────────────────────────────────────

  /** What can be read of a file cut short is read the same from the whole of it. */
  lemma TakeOfCut(cut: Bytes, data: Bytes, pos: nat, n: int)
    requires cut <= data && pos <= |cut|
    ensures TakeAt(cut, pos, n).Got? ==> TakeAt(data, pos, n) == TakeAt(cut, pos, n)
  {
    if 0 <= n <= |cut| - pos {
      assert cut[pos..pos + n] == data[pos..pos + n];
    }
  }

  lemma UtfOfCut(cut: Bytes, data: Bytes, pos: nat)
    requires cut <= data && pos <= |cut|
    ensures UtfAt(cut, pos).Got? ==> UtfAt(data, pos) == UtfAt(cut, pos)
  {
    TakeOfCut(cut, data, pos, 2);
    var n := U16At(cut, pos);
    if n.Got? {
      TakeOfCut(cut, data, n.next, n.value);
    }
  }

  lemma DerOfCut(parse: Oracle, cut: Bytes, data: Bytes, pos: nat)
    requires cut <= data && pos <= |cut|
    ensures DerAt(parse, cut, pos).Got? ==> DerAt(parse, data, pos) == DerAt(parse, cut, pos)
  {
    TakeOfCut(cut, data, pos, 4);
    var n := U32At(cut, pos);
    if n.Got? {
      TakeOfCut(cut, data, n.next, n.value);
    }
  }

  lemma CertificateOfCut(parse: Oracle, cut: Bytes, data: Bytes, version: nat, pos: nat)
    requires cut <= data && pos <= |cut|
    ensures CertificateAt(parse, cut, version, pos).Got? ==>
      CertificateAt(parse, data, version, pos) == CertificateAt(parse, cut, version, pos)
  {
    DerOfCut(parse, cut, data, pos);
    UtfOfCut(cut, data, pos);
    var kind := UtfAt(cut, pos);
    if kind.Got? {
      DerOfCut(parse, cut, data, kind.next);
    }
  }

  lemma {:induction false} ChainOfCut(parse: Oracle, cut: Bytes, data: Bytes, version: nat, pos: nat, n: nat)
    requires cut <= data && pos <= |cut|
    ensures ChainAt(parse, cut, version, pos, n).Got? ==>
      ChainAt(parse, data, version, pos, n) == ChainAt(parse, cut, version, pos, n)
    decreases n
  {
    hide CertificateAt;
    if n > 0 {
      CertificateOfCut(parse, cut, data, version, pos);
      var c := CertificateAt(parse, cut, version, pos);
      if c.Got? {
        ChainOfCut(parse, cut, data, version, c.next, n - 1);
      }
    }
  }

  lemma HeaderOfCut(cut: Bytes, data: Bytes, pos: nat)
    requires cut <= data && pos <= |cut|
    ensures HeaderAt(cut, pos).Got? ==> HeaderAt(data, pos) == HeaderAt(cut, pos)
  {
    TakeOfCut(cut, data, pos, 4);
    var tag := U32At(cut, pos);
    if tag.Got? {
      UtfOfCut(cut, data, tag.next);
      var alias := UtfAt(cut, tag.next);
      if alias.Got? {
        TakeOfCut(cut, data, alias.next, DATE_BYTES);
      }
    }
  }

  lemma EntryOfCut(parse: Oracle, cut: Bytes, data: Bytes, version: nat, number: nat, pos: nat)
    requires cut <= data && pos <= |cut|
    ensures EntryAt(parse, cut, version, number, pos).Entry? ==>
      EntryAt(parse, data, version, number, pos) == EntryAt(parse, cut, version, number, pos)
  {
    HeaderOfCut(cut, data, pos);
    var h := HeaderAt(cut, pos);
    if h.Got? {
      ChainOfCut(parse, cut, data, version, h.next, 1);
      var k := KeyAt(cut, h.next);
      if k.Got? {
        KeyOfCut(cut, data, h.next);
        ChainOfCut(parse, cut, data, version, k.next, k.value);
      }
    }
  }

  lemma KeyOfCut(cut: Bytes, data: Bytes, pos: nat)
    requires cut <= data && pos <= |cut|
    ensures KeyAt(cut, pos).Got? ==> KeyAt(data, pos) == KeyAt(cut, pos)
  {
    TakeOfCut(cut, data, pos, 4);
    var n := U32At(cut, pos);
    if n.Got? {
      TakeOfCut(cut, data, n.next, n.value);
      var key := TakeAt(cut, n.next, n.value);
      if key.Got? {
        TakeOfCut(cut, data, key.next, 4);
      }
    }
  }

  lemma {:induction false} EntriesOfCut(parse: Oracle, cut: Bytes, data: Bytes, version: nat, number: nat, pos: nat, left: nat)
    requires cut <= data && pos <= |cut|
    ensures EntriesAt(parse, cut, version, number, pos, left).entries <= EntriesAt(parse, data, version, number, pos, left).entries
    decreases left
  {
    hide EntryAt;
    if left > 0 {
      EntryOfCut(parse, cut, data, version, number, pos);
      var e := EntryAt(parse, cut, version, number, pos);
      if e.Entry? {
        EntriesOfCut(parse, cut, data, version, number + 1, e.next, left - 1);
      }
    }
  }

  /** Cutting a keystore short only ever loses entries from its end. */
  lemma TruncationOnlyShortens(parse: Oracle, cut: Bytes, data: Bytes)
    requires cut <= data
    ensures Parse(parse, cut).entries <= Parse(parse, data).entries
  {
    var count := if |cut| >= 12 then U32At(cut, 8) else Stopped(Truncated(4, 0));
    if count.Got? {
      TakeOfCut(cut, data, 0, 4);
      TakeOfCut(cut, data, 4, 4);
      TakeOfCut(cut, data, 8, 4);
      var version := U32At(cut, 4);
      if version.Got? {
        EntriesOfCut(parse, cut, data, version.value, 1, 12, count.value);
      }
    }
  }
}
