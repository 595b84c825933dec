/** A writer of the Sun keystore format, and what the parser gives back of what it wrote. */
module KeystoreRoundTrip {
  import opened Basics
  import opened Certificates
  import opened ModifiedUtf8
  import opened KeystoreFormat

  /** A certificate as it is stored: version 2 keystores write its type before it. */
  datatype StoredCertificate = StoredCertificate(kind: Text, der: Bytes) {
    predicate Writable() {
      && (kind == [] || kind == X_509 || kind == X509)
      && |der| < 0x1_0000_0000
    }
  }

  datatype StoredEntry =
    | KeyEntry(alias: seq<Unit>, date: Bytes, key: Bytes, chain: seq<StoredCertificate>)
    | TrustedEntry(alias: seq<Unit>, date: Bytes, certificate: StoredCertificate)
  {
    function Chain(): seq<StoredCertificate> { if KeyEntry? then chain else [certificate] }

    /** What the layout can hold: lengths that fit their fields. */
    predicate Writable() {
      && |Encode(alias)| < 0x1_0000
      && |date| == DATE_BYTES
      && (KeyEntry? ==> |key| < 0x1_0000_0000 && |chain| < 0x1_0000_0000)
      && forall i :: 0 <= i < |Chain()| ==> Chain()[i].Writable()
    }
  }

  datatype StoredKeystore = StoredKeystore(magic: nat, version: nat, entries: seq<StoredEntry>, trailer: Bytes) {
    predicate Writable() {
      && (magic == JKS_MAGIC || magic == JCEKS_MAGIC)
      && (version == 1 || version == 2)
      && |entries| < 0x1_0000_0000
      && forall i :: 0 <= i < |entries| ==> entries[i].Writable()
    }
  }

  // ── writing ────────────────────────────────────────────────────────────────

  /** n in `width` bytes, most significant first. */
  function Number(n: nat, width: nat): (b: Bytes)
    ensures |b| == width
  {
    if width == 0 then [] else Number(n / 0x100, width - 1) + [n % 0x100]
  }

  function Limit(width: nat): nat { if width == 0 then 1 else 0x100 * Limit(width - 1) }

  lemma {:induction false} NumberRoundTrip(n: nat, width: nat)
    requires n < Limit(width)
    ensures BigEndian(Number(n, width)) == n
  {
    if width > 0 {
      var b := Number(n, width);
      assert b[..|b| - 1] == Number(n / 0x100, width - 1);
      NumberRoundTrip(n / 0x100, width - 1);
    }
  }

  function U16Bytes(n: nat): (b: Bytes)
    ensures |b| == 2
  {
    Number(n, 2)
  }

  function U32Bytes(n: nat): (b: Bytes)
    ensures |b| == 4
  {
    Number(n, 4)
  }

  lemma NumberLimits()
    ensures Limit(2) == 0x1_0000 && Limit(4) == 0x1_0000_0000
  {
    assert Limit(1) == 0x100 && Limit(2) == 0x1_0000 && Limit(3) == 0x100_0000;
  }

  function UtfBytes(units: seq<Unit>): Bytes
  {
    U16Bytes(|Encode(units)|) + Encode(units)
  }

  function DerBytes(der: Bytes): Bytes
  {
    U32Bytes(|der|) + der
  }

  function KindBytes(version: nat, kind: Text): Bytes {
    if version == 2 then UtfBytes(Split(kind)) else []
  }

  function CertificateBytes(version: nat, c: StoredCertificate): Bytes
  {
    KindBytes(version, c.kind) + DerBytes(c.der)
  }

  function ChainBytes(version: nat, chain: seq<StoredCertificate>): Bytes
  {
    if chain == [] then [] else CertificateBytes(version, chain[0]) + ChainBytes(version, chain[1..])
  }

  function HeaderBytes(e: StoredEntry): Bytes
  {
    U32Bytes(if e.KeyEntry? then ENTRY_PRIVATE_KEY else ENTRY_TRUSTED_CERT) + UtfBytes(e.alias) + e.date
  }

  function KeyBytes(e: StoredEntry): Bytes
  {
    if e.KeyEntry? then U32Bytes(|e.key|) + e.key + U32Bytes(|e.chain|) else []
  }

  function EntryBytes(version: nat, e: StoredEntry): Bytes
  {
    HeaderBytes(e) + KeyBytes(e) + ChainBytes(version, e.Chain())
  }

  function EntriesBytes(version: nat, es: seq<StoredEntry>): Bytes
  {
    if es == [] then [] else EntryBytes(version, es[0]) + EntriesBytes(version, es[1..])
  }

  function FileBytes(ks: StoredKeystore): Bytes
  {
    U32Bytes(ks.magic) + U32Bytes(ks.version) + U32Bytes(|ks.entries|) + EntriesBytes(ks.version, ks.entries) + ks.trailer
  }

  // ── what reading must give ─────────────────────────────────────────────────

  /** The certificates of a chain that the library can parse, in order. */
  function Parseable(parse: Oracle, chain: seq<StoredCertificate>): seq<Certificate> {
    if chain == [] then [] else
    var cert := parse(chain[0].der);
    (if cert.Some? then [cert.value] else []) + Parseable(parse, chain[1..])
  }

  function ReadBack(parse: Oracle, e: StoredEntry): KeystoreEntry {
    KeystoreEntry(Join(e.alias), Parseable(parse, e.Chain()), e.KeyEntry?)
  }

  /** No key entry claims more certificates than a file of this length is allowed. */
  predicate ChainsAllowed(es: seq<StoredEntry>, length: nat) {
    forall i :: 0 <= i < |es| && es[i].KeyEntry? ==> |es[i].chain| <= length / 12
  }

  /** The entries up to the first whose chain is refused, and that refusal. */
  function Expected(parse: Oracle, es: seq<StoredEntry>, length: nat): Contents {
    if es == [] then Contents([], None) else
    match Outcome(parse, es[0], length, 0)
    case Bad(error) => Contents([], Some(error))
    case Entry(entry, _) =>
      var rest := Expected(parse, es[1..], length);
      Contents([entry] + rest.entries, rest.error)
  }

  // ── reading what was written ───────────────────────────────────────────────

  /** data holds b at pos. */
  ghost predicate At(data: Bytes, pos: nat, b: Bytes) {
    pos + |b| <= |data| && forall i :: 0 <= i < |b| ==> data[pos + i] == b[i]
  }

  lemma AtSplit(data: Bytes, pos: nat, b: Bytes, c: Bytes)
    requires At(data, pos, b + c)
    ensures At(data, pos, b) && At(data, pos + |b|, c)
  {
    forall i | 0 <= i < |b| ensures data[pos + i] == b[i] {
      assert (b + c)[i] == b[i];
    }
    forall i | 0 <= i < |c| ensures data[pos + |b| + i] == c[i] {
      assert (b + c)[|b| + i] == c[i];
    }
  }

  lemma AtFits(data: Bytes, pos: nat, b: Bytes)
    requires At(data, pos, b)
    ensures pos + |b| <= |data|
  {
  }

  lemma TakesWhatIsAt(data: Bytes, pos: nat, b: Bytes)
    requires At(data, pos, b)
    ensures pos + |b| <= |data| && TakeAt(data, pos, |b|) == Got(b, pos + |b|)
  {
    assert data[pos..pos + |b|] == b;
  }

  lemma ReadsU32(data: Bytes, pos: nat, n: nat)
    requires n < 0x1_0000_0000 && At(data, pos, U32Bytes(n))
    ensures pos + 4 <= |data| && U32At(data, pos) == Got(n, pos + 4)
  {
    TakesWhatIsAt(data, pos, U32Bytes(n));
    NumberLimits();
    NumberRoundTrip(n, 4);
  }

  lemma ReadsUtf(data: Bytes, pos: nat, raw: Bytes)
    requires |raw| < 0x1_0000 && At(data, pos, U16Bytes(|raw|) + raw)
    ensures pos + 2 + |raw| <= |data| && UtfAt(data, pos) == Got(Decode(raw), pos + 2 + |raw|)
  {
    AtSplit(data, pos, U16Bytes(|raw|), raw);
    TakesWhatIsAt(data, pos, U16Bytes(|raw|));
    TakesWhatIsAt(data, pos + 2, raw);
    NumberLimits();
    NumberRoundTrip(|raw|, 2);
    assert U16At(data, pos) == Got(|raw|, pos + 2);
  }

  lemma {:induction false} SplitTakesAtMost(text: Text)
    ensures |Encode(Split(text))| <= 6 * |text|
  {
    if text != [] {
      SplitTakesAtMost(text[1..]);
      EncodeConcat(SplitRune(text[0]), Split(text[1..]));
      var first := SplitRune(text[0]);
      assert |Encode(first)| <= 6 by {
        if |first| == 2 {
          assert Encode(first[1..]) == EncodeUnit(first[1]) + Encode(first[1..][1..]);
        }
      }
    }
  }

  lemma {:induction false} EncodeConcat(a: seq<Unit>, b: seq<Unit>)
    ensures Encode(a + b) == Encode(a) + Encode(b)
  {
    hide EncodeUnit;
    if a == [] {
      assert a + b == b;
    } else {
      EncodeConcat(a[1..], b);
      assert (a + b)[0] == a[0] && (a + b)[1..] == a[1..] + b;
      var first, rest := EncodeUnit(a[0]), Encode(a[1..]);
      assert first + (rest + Encode(b)) == first + rest + Encode(b);
    }
  }

  lemma KindFits(kind: Text)
    requires kind == [] || kind == X_509 || kind == X509
    ensures |Encode(Split(kind))| < 0x1_0000
    ensures forall r :: r in kind ==> IsScalar(r)
  {
    SplitTakesAtMost(kind);
  }

  lemma ReadsDer(parse: Oracle, data: Bytes, pos: nat, der: Bytes)
    requires |der| < 0x1_0000_0000 && At(data, pos, DerBytes(der))
    ensures pos <= |data| && DerAt(parse, data, pos) == Got(parse(der), pos + |DerBytes(der)|)
  {
    AtSplit(data, pos, U32Bytes(|der|), der);
    ReadsU32(data, pos, |der|);
    TakesWhatIsAt(data, pos + 4, der);
  }

  lemma ReadsKind(data: Bytes, pos: nat, kind: Text)
    requires (kind == [] || kind == X_509 || kind == X509) && At(data, pos, UtfBytes(Split(kind)))
    ensures pos <= |data| && UtfAt(data, pos) == Got(kind, pos + |UtfBytes(Split(kind))|)
  {
    hide UtfAt;
    KindFits(kind);
    AliasRoundTrip(kind);
    ReadsUtf(data, pos, Encode(Split(kind)));
  }

  lemma ReadsCertificate(parse: Oracle, data: Bytes, version: nat, pos: nat, c: StoredCertificate)
    requires c.Writable() && At(data, pos, CertificateBytes(version, c))
    ensures pos <= |data| && CertificateAt(parse, data, version, pos) == Got(parse(c.der), pos + |CertificateBytes(version, c)|)
  {
    hide At, UtfAt, DerAt, DerBytes;
    AtSplit(data, pos, KindBytes(version, c.kind), DerBytes(c.der));
    ReadsDer(parse, data, pos + |KindBytes(version, c.kind)|, c.der);
    if version == 2 {
      ReadsKind(data, pos, c.kind);
    }
  }

  lemma {:induction false} ReadsChain(parse: Oracle, data: Bytes, version: nat, pos: nat, chain: seq<StoredCertificate>)
    requires forall i :: 0 <= i < |chain| ==> chain[i].Writable()
    requires At(data, pos, ChainBytes(version, chain))
    ensures pos <= |data| && ChainAt(parse, data, version, pos, |chain|) == Got(Parseable(parse, chain), pos + |ChainBytes(version, chain)|)
    decreases |chain|
  {
    hide At, CertificateAt, CertificateBytes;
    AtFits(data, pos, ChainBytes(version, chain));
    if chain != [] {
      AtSplit(data, pos, CertificateBytes(version, chain[0]), ChainBytes(version, chain[1..]));
      ReadsCertificate(parse, data, version, pos, chain[0]);
      ReadsChain(parse, data, version, pos + |CertificateBytes(version, chain[0])|, chain[1..]);
    }
  }

  lemma ReadsHeader(data: Bytes, pos: nat, e: StoredEntry)
    requires e.Writable() && At(data, pos, HeaderBytes(e))
    ensures pos <= |data| && HeaderAt(data, pos) == Got(HeaderOf(e), pos + |HeaderBytes(e)|)
  {
    hide At, U32Bytes, BigEndian, TakeAt, U32At, UtfAt, Encode;
    var tag := if e.KeyEntry? then ENTRY_PRIVATE_KEY else ENTRY_TRUSTED_CERT;
    assert HeaderBytes(e) == U32Bytes(tag) + (UtfBytes(e.alias) + e.date);
    AtSplit(data, pos, U32Bytes(tag), UtfBytes(e.alias) + e.date);
    AtSplit(data, pos + 4, UtfBytes(e.alias), e.date);
    ReadsU32(data, pos, tag);
    TakesWhatIsAt(data, pos + 4 + |UtfBytes(e.alias)|, e.date);
    ReadsUtf(data, pos + 4, Encode(e.alias));
    UnitsRoundTrip(e.alias);
  }

  function HeaderOf(e: StoredEntry): Header {
    Header(if e.KeyEntry? then ENTRY_PRIVATE_KEY else ENTRY_TRUSTED_CERT, Join(e.alias))
  }

  lemma KeyOfParts(data: Bytes, pos: nat, keyLen: nat, chainLen: nat)
    requires pos + 8 + keyLen <= |data|
    requires U32At(data, pos) == Got(keyLen, pos + 4)
    requires TakeAt(data, pos + 4, keyLen).Got?
    requires U32At(data, pos + 4 + keyLen) == Got(chainLen, pos + 8 + keyLen)
    ensures KeyAt(data, pos) == Got(chainLen, pos + 8 + keyLen)
  {
  }

  lemma KeyInParts(e: StoredEntry)
    requires e.KeyEntry?
    ensures KeyBytes(e) == U32Bytes(|e.key|) + (e.key + U32Bytes(|e.chain|)) && |KeyBytes(e)| == |e.key| + 8
  {
  }

  lemma ReadsKey(data: Bytes, pos: nat, e: StoredEntry)
    requires e.Writable() && e.KeyEntry? && At(data, pos, KeyBytes(e))
    ensures pos <= |data| && KeyAt(data, pos) == Got(|e.chain|, pos + |KeyBytes(e)|)
  {
    hide At, U32Bytes, Number, BigEndian, TakeAt, U32At, KeyAt, KeyBytes;
    KeyInParts(e);
    var length, count := U32Bytes(|e.key|), U32Bytes(|e.chain|);
    AtSplit(data, pos, length, e.key + count);
    AtSplit(data, pos + 4, e.key, count);
    ReadsU32(data, pos, |e.key|);
    TakesWhatIsAt(data, pos + 4, e.key);
    ReadsU32(data, pos + 4 + |e.key|, |e.chain|);
    KeyOfParts(data, pos, |e.key|, |e.chain|);
  }

  /** What reading an entry of a file this long must give. */
  function Outcome(parse: Oracle, e: StoredEntry, length: nat, next: nat): EntryRead {
    if e.KeyEntry? && |e.chain| > length / 12 then Bad(ChainTooLong(Join(e.alias), |e.chain|))
    else Entry(ReadBack(parse, e), next)
  }

  /** What the key length and the chain after it read as. */
  ghost predicate ReadsOn(parse: Oracle, data: Bytes, version: nat, p: nat, e: StoredEntry, q: nat, end: nat) {
    && p <= |data| && q <= |data|
    && (if e.KeyEntry? then KeyAt(data, p) == Got(|e.chain|, q) else p == q)
    && ChainAt(parse, data, version, q, |e.Chain()|) == Got(Parseable(parse, e.Chain()), end)
  }

  lemma ReadsKeyAndChain(parse: Oracle, data: Bytes, version: nat, p: nat, e: StoredEntry, key: Bytes, chain: Bytes)
    requires e.Writable() && key == KeyBytes(e) && chain == ChainBytes(version, e.Chain())
    requires At(data, p, key) && At(data, p + |key|, chain)
    ensures ReadsOn(parse, data, version, p, e, p + |key|, p + |key| + |chain|)
  {
    hide CertificateAt, U32At, EncodeUnit, Number;
    assert ChainAt(parse, data, version, p + |key|, |e.Chain()|) == Got(Parseable(parse, e.Chain()), p + |key| + |chain|) by {
      ReadsChain(parse, data, version, p + |key|, e.Chain());
    }
    if e.KeyEntry? {
      ReadsKey(data, p, e);
    }
  }

  lemma EntryOfParts(parse: Oracle, data: Bytes, version: nat, number: nat, pos: nat, e: StoredEntry, p: nat, q: nat, end: nat)
    requires pos <= |data| && HeaderAt(data, pos) == Got(HeaderOf(e), p)
    requires ReadsOn(parse, data, version, p, e, q, end)
    ensures EntryAt(parse, data, version, number, pos) == Outcome(parse, e, |data|, end)
  {
    assert BodyAt(parse, data, version, HeaderOf(e), p) == Outcome(parse, e, |data|, end);
  }

  lemma ReadsParts(parse: Oracle, data: Bytes, version: nat, number: nat, pos: nat, e: StoredEntry, header: Bytes, key: Bytes, chain: Bytes)
    requires e.Writable()
    requires header == HeaderBytes(e) && key == KeyBytes(e) && chain == ChainBytes(version, e.Chain())
    requires At(data, pos, header) && At(data, pos + |header|, key) && At(data, pos + |header| + |key|, chain)
    ensures EntryAt(parse, data, version, number, pos) == Outcome(parse, e, |data|, pos + |header| + |key| + |chain|)
  {
    hide At, EntryAt, BodyAt, HeaderAt, KeyAt, ChainAt;
    var p, q, end := pos + |header|, pos + |header| + |key|, pos + |header| + |key| + |chain|;
    assert HeaderAt(data, pos) == Got(HeaderOf(e), p) by {
      ReadsHeader(data, pos, e);
    }
    assert ReadsOn(parse, data, version, p, e, q, end) by {
      ReadsKeyAndChain(parse, data, version, p, e, key, chain);
    }
    EntryOfParts(parse, data, version, number, pos, e, p, q, end);
  }

  lemma ReadsEntry(parse: Oracle, data: Bytes, version: nat, number: nat, pos: nat, e: StoredEntry)
    requires e.Writable() && At(data, pos, EntryBytes(version, e))
    ensures pos <= |data| && EntryAt(parse, data, version, number, pos) == Outcome(parse, e, |data|, pos + |EntryBytes(version, e)|)
  {
    hide At, EntryAt, HeaderBytes, KeyBytes, ChainBytes, Outcome;
    var header, key, chain := HeaderBytes(e), KeyBytes(e), ChainBytes(version, e.Chain());
    assert EntryBytes(version, e) == header + (key + chain);
    AtSplit(data, pos, header, key + chain);
    AtSplit(data, pos + |header|, key, chain);
    ReadsParts(parse, data, version, number, pos, e, header, key, chain);
  }

  lemma EntriesAreOneThenTheRest(parse: Oracle, data: Bytes, version: nat, number: nat, pos: nat, es: seq<StoredEntry>, next: nat)
    requires es != [] && pos <= |data| && next <= |data|
    requires EntryAt(parse, data, version, number, pos) == Outcome(parse, es[0], |data|, next)
    requires EntriesAt(parse, data, version, number + 1, next, |es[1..]|) == Expected(parse, es[1..], |data|)
    ensures EntriesAt(parse, data, version, number, pos, |es|) == Expected(parse, es, |data|)
  {
  }

  lemma {:induction false} ReadsEntries(parse: Oracle, data: Bytes, version: nat, number: nat, pos: nat, es: seq<StoredEntry>)
    requires forall i :: 0 <= i < |es| ==> es[i].Writable()
    requires At(data, pos, EntriesBytes(version, es))
    ensures pos <= |data| && EntriesAt(parse, data, version, number, pos, |es|) == Expected(parse, es, |data|)
    decreases |es|
  {
    hide At, EntryAt, EntryBytes, Outcome;
    AtFits(data, pos, EntriesBytes(version, es));
    if es != [] {
      var first, rest := EntryBytes(version, es[0]), EntriesBytes(version, es[1..]);
      var next := pos + |first|;
      AtSplit(data, pos, first, rest);
      ReadsEntry(parse, data, version, number, pos, es[0]);
      ReadsEntries(parse, data, version, number + 1, next, es[1..]);
      EntriesAreOneThenTheRest(parse, data, version, number, pos, es, next);
    }
  }

  lemma {:induction false} EntriesTakeRoom(version: nat, es: seq<StoredEntry>)
    requires forall i :: 0 <= i < |es| ==> es[i].Writable()
    ensures |EntriesBytes(version, es)| >= 14 * |es|
  {
    if es != [] {
      EntriesTakeRoom(version, es[1..]);
    }
  }

  lemma ReadsNumbers(data: Bytes, magic: nat, version: nat, count: nat, tail: Bytes)
    requires magic < 0x1_0000_0000 && version < 0x1_0000_0000 && count < 0x1_0000_0000
    requires data == U32Bytes(magic) + (U32Bytes(version) + (U32Bytes(count) + tail))
    ensures U32At(data, 0) == Got(magic, 4) && |data| >= 12
    ensures U32At(data, 4) == Got(version, 8)
    ensures U32At(data, 8) == Got(count, 12)
    ensures At(data, 12, tail)
  {
    hide At, U32At, U32Bytes;
    AtSplit(data, 0, U32Bytes(magic), U32Bytes(version) + (U32Bytes(count) + tail));
    AtSplit(data, 4, U32Bytes(version), U32Bytes(count) + tail);
    AtSplit(data, 8, U32Bytes(count), tail);
    ReadsU32(data, 0, magic);
    ReadsU32(data, 4, version);
    ReadsU32(data, 8, count);
  }

  /** The three numbers a file starts with, and where its entries are. */
  lemma ReadsPreamble(ks: StoredKeystore)
    requires ks.Writable()
    ensures var data := FileBytes(ks);
      && |data| >= 12
      && U32At(data, 0) == Got(ks.magic, 4)
      && U32At(data, 4) == Got(ks.version, 8)
      && U32At(data, 8) == Got(|ks.entries|, 12)
      && At(data, 12, EntriesBytes(ks.version, ks.entries))
  {
    hide At, U32At, U32Bytes, EntriesBytes;
    var data, entries := FileBytes(ks), EntriesBytes(ks.version, ks.entries);
    assert data == U32Bytes(ks.magic) + (U32Bytes(ks.version) + (U32Bytes(|ks.entries|) + (entries + ks.trailer)));
    ReadsNumbers(data, ks.magic, ks.version, |ks.entries|, entries + ks.trailer);
    AtSplit(data, 12, entries, ks.trailer);
  }

  /** Reading any written keystore gives its entries in order, up to the first chain the length guard
      refuses. */
  lemma ReadsWhatWasWritten(parse: Oracle, ks: StoredKeystore)
    requires ks.Writable()
    ensures Parse(parse, FileBytes(ks)) == Expected(parse, ks.entries, |FileBytes(ks)|)
  {
    ReadsPreamble(ks);
    EntriesTakeRoom(ks.version, ks.entries);
    ReadsEntries(parse, FileBytes(ks), ks.version, 1, 12, ks.entries);
  }

  function AllReadBack(parse: Oracle, es: seq<StoredEntry>): seq<KeystoreEntry> {
    if es == [] then [] else [ReadBack(parse, es[0])] + AllReadBack(parse, es[1..])
  }

  lemma {:induction false} ExpectedIsAll(parse: Oracle, es: seq<StoredEntry>, length: nat)
    ensures ChainsAllowed(es, length) <==> Expected(parse, es, length).error == None
    ensures ChainsAllowed(es, length) ==> Expected(parse, es, length).entries == AllReadBack(parse, es)
  {
    if es != [] {
      ExpectedIsAll(parse, es[1..], length);
      assert ChainsAllowed(es, length) <==>
        (es[0].KeyEntry? ==> |es[0].chain| <= length / 12) && ChainsAllowed(es[1..], length) by {
        assert forall i :: 0 < i < |es| ==> es[i] == es[1..][i - 1];
      }
    }
  }

  /** The round trip holds exactly when every key entry's chain passes the length guard: then all
      aliases, key flags and parseable certificates come back in order, with no error. */
  lemma KeystoreRoundTrips(parse: Oracle, ks: StoredKeystore)
    requires ks.Writable()
    ensures Parse(parse, FileBytes(ks)) == Contents(AllReadBack(parse, ks.entries), None)
      <==> ChainsAllowed(ks.entries, |FileBytes(ks)|)
  {
    ReadsWhatWasWritten(parse, ks);
    ExpectedIsAll(parse, ks.entries, |FileBytes(ks)|);
  }

  const EMPTY_CERTIFICATE := StoredCertificate([], [])

  /** A key without bytes and a chain of five certificates without bytes, under no alias. */
  const SMALL_KEY := KeyEntry([], [0, 0, 0, 0, 0, 0, 0, 0], [],
    [EMPTY_CERTIFICATE, EMPTY_CERTIFICATE, EMPTY_CERTIFICATE, EMPTY_CERTIFICATE, EMPTY_CERTIFICATE])

  const SMALL_KEYSTORE := StoredKeystore(JKS_MAGIC, 1, [SMALL_KEY], [])

  lemma {:induction false} EmptyCertificatesTakeFour(chain: seq<StoredCertificate>)
    requires forall i :: 0 <= i < |chain| ==> chain[i] == EMPTY_CERTIFICATE
    ensures |ChainBytes(1, chain)| == 4 * |chain|
  {
    if chain != [] {
      EmptyCertificatesTakeFour(chain[1..]);
    }
  }

  lemma SmallKeystoreIsSmall()
    ensures |FileBytes(SMALL_KEYSTORE)| == 54
  {
    hide Encode, U32Bytes, U16Bytes, ChainBytes;
    var es := SMALL_KEYSTORE.entries;
    EmptyCertificatesTakeFour(SMALL_KEY.chain);
    assert EntriesBytes(1, es[1..]) == [];
    assert Encode([]) == [] by { NothingEncoded(); }
    assert |EntryBytes(1, SMALL_KEY)| == 42;
  }

  lemma NothingEncoded()
    ensures Encode([]) == []
  {
  }

  /** A well-formed keystore that does not come back: 54 bytes are allowed four certificates. */
  lemma SmallKeystoreIsRefused(parse: Oracle)
    ensures SMALL_KEYSTORE.Writable()
    ensures Parse(parse, FileBytes(SMALL_KEYSTORE)) != Contents(AllReadBack(parse, SMALL_KEYSTORE.entries), None)
  {
    SmallKeystoreIsSmall();
    NothingEncoded();
    assert !ChainsAllowed(SMALL_KEYSTORE.entries, 54) by {
      assert SMALL_KEYSTORE.entries[0].KeyEntry?;
    }
    KeystoreRoundTrips(parse, SMALL_KEYSTORE);
  }

  lemma {:induction false} ChainTakesRoom(version: nat, chain: seq<StoredCertificate>)
    requires forall i :: 0 <= i < |chain| ==> chain[i].Writable() && |chain[i].der| >= 8
    ensures |ChainBytes(version, chain)| >= 12 * |chain|
  {
    if chain != [] {
      ChainTakesRoom(version, chain[1..]);
    }
  }

  lemma {:induction false} EntryFits(version: nat, es: seq<StoredEntry>, i: nat)
    requires forall k :: 0 <= k < |es| ==> es[k].Writable()
    requires i < |es| && es[i].Writable()
    ensures |ChainBytes(version, es[i].Chain())| <= |EntriesBytes(version, es)|
  {
    hide CertificateBytes, HeaderBytes, KeyBytes;
    if i > 0 {
      EntryFits(version, es[1..], i - 1);
    }
  }

  /** Certificates of at least eight bytes, which every real one is, always pass the guard. */
  lemma RealCertificatesPass(parse: Oracle, ks: StoredKeystore)
    requires ks.Writable()
    requires forall i, j :: 0 <= i < |ks.entries| && 0 <= j < |ks.entries[i].Chain()| ==> |ks.entries[i].Chain()[j].der| >= 8
    ensures Parse(parse, FileBytes(ks)) == Contents(AllReadBack(parse, ks.entries), None)
  {
    forall i | 0 <= i < |ks.entries| && ks.entries[i].KeyEntry?
      ensures |ks.entries[i].chain| <= |FileBytes(ks)| / 12
    {
      ChainTakesRoom(ks.version, ks.entries[i].Chain());
      EntryFits(ks.version, ks.entries, i);
    }
    KeystoreRoundTrips(parse, ks);
  }

  // ── what is refused ────────────────────────────────────────────────────────

  /** A file that starts with these three numbers. */
  function Started(magic: nat, version: nat, count: nat, rest: Bytes): Bytes {
    U32Bytes(magic) + (U32Bytes(version) + (U32Bytes(count) + rest))
  }

  /** Which starts are refused, and as what: any other magic number, any version but two, and more entries
      than a file of this length has room for. */
  lemma StartsThatAreRefused(parse: Oracle, magic: nat, version: nat, count: nat, rest: Bytes)
    requires magic < 0x1_0000_0000 && version < 0x1_0000_0000 && count < 0x1_0000_0000
    ensures var data := Started(magic, version, count, rest);
      var refused := (e: KeystoreError) => Parse(parse, data) == Contents([], Some(e));
      && (magic !in {0xFEEDFEED, 0xCECECECE} ==> refused(NotAJavaKeystore))
      && (magic in {0xFEEDFEED, 0xCECECECE} && version !in {1, 2} ==> refused(UnsupportedVersion(version)))
      && (magic in {0xFEEDFEED, 0xCECECECE} && version in {1, 2} && count > |data| / 12 ==> refused(TooManyEntries(count)))
  {
    hide U32At, U32Bytes, At, EntriesAt;
    ReadsNumbers(Started(magic, version, count, rest), magic, version, count, rest);
  }

  /** A file with fewer than twelve bytes is refused with nothing read, whatever is in it. */
  lemma ShortFilesAreRefused(parse: Oracle, data: Bytes)
    requires |data| < 12
    ensures Parse(parse, data).entries == [] && Parse(parse, data).error.Some?
  {
  }

  /** An entry of some other kind: its tag, its alias and its date. */
  function OtherEntryBytes(tag: nat, alias: seq<Unit>, date: Bytes): Bytes { U32Bytes(tag) + (UtfBytes(alias) + date) }

  lemma ReadsOtherEntry(parse: Oracle, data: Bytes, version: nat, number: nat, pos: nat, tag: nat, alias: seq<Unit>, date: Bytes)
    requires tag < 0x1_0000_0000 && tag !in {1, 2} && |Encode(alias)| < 0x1_0000 && |date| == 8
    requires At(data, pos, OtherEntryBytes(tag, alias, date))
    ensures pos <= |data|
    ensures EntryAt(parse, data, version, number, pos) ==
      Bad(if tag == 3 then SecretKey(Join(alias)) else UnknownType(Join(alias), tag))
  {
    hide At, U32Bytes, U16Bytes, U32At, UtfAt, TakeAt, Encode, Join;
    AtSplit(data, pos, U32Bytes(tag), UtfBytes(alias) + date);
    AtSplit(data, pos + 4, UtfBytes(alias), date);
    ReadsU32(data, pos, tag);
    TakesWhatIsAt(data, pos + 4 + |UtfBytes(alias)|, date);
    ReadsUtf(data, pos + 4, Encode(alias));
    UnitsRoundTrip(alias);
    assert HeaderAt(data, pos).Got? && HeaderAt(data, pos).value == Header(tag, Join(alias));
  }

  lemma OneEntryThen(parse: Oracle, data: Bytes, version: nat, number: nat, pos: nat, es: seq<StoredEntry>, left: nat, rest: Contents)
    requires es != [] && |es| <= left && pos <= |data| && pos + |EntryBytes(version, es[0])| <= |data|
    requires EntryAt(parse, data, version, number, pos) == Entry(ReadBack(parse, es[0]), pos + |EntryBytes(version, es[0])|)
    requires EntriesAt(parse, data, version, number + 1, pos + |EntryBytes(version, es[0])|, left - 1) ==
      Contents(AllReadBack(parse, es[1..]) + rest.entries, rest.error)
    ensures EntriesAt(parse, data, version, number, pos, left) == Contents(AllReadBack(parse, es) + rest.entries, rest.error)
  {
    hide EntryAt, EntryBytes, ReadBack;
    assert [ReadBack(parse, es[0])] + (AllReadBack(parse, es[1..]) + rest.entries) == AllReadBack(parse, es) + rest.entries;
  }

  /** Written entries read back, and then whatever follows them. */
  lemma {:induction false} ReadsEntriesThen(parse: Oracle, data: Bytes, version: nat, number: nat, pos: nat, es: seq<StoredEntry>, left: nat)
    requires forall i :: 0 <= i < |es| ==> es[i].Writable()
    requires At(data, pos, EntriesBytes(version, es)) && ChainsAllowed(es, |data|) && |es| <= left
    ensures pos + |EntriesBytes(version, es)| <= |data|
    ensures var rest := EntriesAt(parse, data, version, number + |es|, pos + |EntriesBytes(version, es)|, left - |es|);
      EntriesAt(parse, data, version, number, pos, left) == Contents(AllReadBack(parse, es) + rest.entries, rest.error)
    decreases |es|
  {
    hide At, EntryAt, EntryBytes, ReadBack;
    AtFits(data, pos, EntriesBytes(version, es));
    if es == [] {
      var rest := EntriesAt(parse, data, version, number, pos, left);
      assert [] + rest.entries == rest.entries;
    } else {
      var first, more := EntryBytes(version, es[0]), EntriesBytes(version, es[1..]);
      AtSplit(data, pos, first, more);
      ReadsEntry(parse, data, version, number, pos, es[0]);
      assert es[0].KeyEntry? ==> |es[0].chain| <= |data| / 12;
      assert forall i :: 0 <= i < |es[1..]| ==> es[1..][i] == es[i + 1];
      ReadsEntriesThen(parse, data, version, number + 1, pos + |first|, es[1..], left - 1);
      OneEntryThen(parse, data, version, number, pos, es, left,
        EntriesAt(parse, data, version, number + |es|, pos + |EntriesBytes(version, es)|, left - |es|));
    }
  }

  /** A secret key, or an entry of no known kind, ends the reading: what was before it comes back, and the
      error says whose entry it was. */
  lemma ReadsUpToOtherEntry(
      parse: Oracle, magic: nat, version: nat, count: nat, es: seq<StoredEntry>, tag: nat, alias: seq<Unit>, date: Bytes, trailer: Bytes)
    requires magic in {0xFEEDFEED, 0xCECECECE} && version in {1, 2} && |es| < count < 0x1_0000_0000
    requires forall i :: 0 <= i < |es| ==> es[i].Writable()
    requires tag < 0x1_0000_0000 && tag !in {1, 2} && |Encode(alias)| < 0x1_0000 && |date| == 8
    requires var data := Started(magic, version, count, EntriesBytes(version, es) + (OtherEntryBytes(tag, alias, date) + trailer));
      count <= |data| / 12 && ChainsAllowed(es, |data|)
    ensures var data := Started(magic, version, count, EntriesBytes(version, es) + (OtherEntryBytes(tag, alias, date) + trailer));
      Parse(parse, data) ==
      Contents(AllReadBack(parse, es), Some(if tag == 3 then SecretKey(Join(alias)) else UnknownType(Join(alias), tag)))
  {
    hide U32At, U32Bytes, At, EntryAt, EntriesBytes, OtherEntryBytes, Encode, Join, ChainsAllowed;
    var other := OtherEntryBytes(tag, alias, date);
    var rest := EntriesBytes(version, es) + (other + trailer);
    var data := Started(magic, version, count, rest);
    ReadsNumbers(data, magic, version, count, rest);
    AtSplit(data, 12, EntriesBytes(version, es), other + trailer);
    var pos := 12 + |EntriesBytes(version, es)|;
    AtSplit(data, pos, other, trailer);
    ReadsEntriesThen(parse, data, version, 1, 12, es, count);
    ReadsOtherEntry(parse, data, version, 1 + |es|, pos, tag, alias, date);
    assert AllReadBack(parse, es) + [] == AllReadBack(parse, es);
  }
}
