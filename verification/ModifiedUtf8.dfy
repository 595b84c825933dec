/** Java's modified UTF-8, as a keystore writes its aliases: UTF-16 code units, one to three bytes each. */
module ModifiedUtf8 {
  import opened Basics

  type Unit = x: int | 0 <= x < 0x1_0000
  type Rune = x: int | 0 <= x < 0x11_0000
  type Text = seq<Rune>

  const REPLACEMENT: Rune := 0xFFFD

  predicate IsScalar(r: Rune) { r < 0xD800 || 0xE000 <= r }

  predicate HighSurrogate(u: int) { 0xD800 <= u < 0xDC00 }

  predicate LowSurrogate(u: int) { 0xDC00 <= u < 0xE000 }

  // ── reading ────────────────────────────────────────────────────────────────

  /** How many bytes the unit at the front of raw takes. */
  function Width(raw: Bytes): (w: nat)
    requires raw != []
    ensures 1 <= w <= |raw|
  {
    var b := raw[0];
    if b < 0x80 && b != 0 then 1
    else if 0xC0 <= b < 0xE0 && 1 < |raw| then 2
    else if 0xE0 <= b < 0xF0 && 2 < |raw| then 3
    else 1
  }

  function TwoByteUnit(b: byte, c: byte): Unit { b % 32 * 64 + c % 64 }

  function ThreeByteUnit(b: byte, c: byte, d: byte): Unit { b % 16 * 4096 + c % 64 * 64 + d % 64 }

  function FirstUnit(raw: Bytes): Unit
    requires raw != []
  {
    var b := raw[0];
    if b < 0x80 && b != 0 then b
    else if 0xC0 <= b < 0xE0 && 1 < |raw| then TwoByteUnit(b, raw[1])
    else if 0xE0 <= b < 0xF0 && 2 < |raw| then ThreeByteUnit(b, raw[1], raw[2])
    else REPLACEMENT
  }

  function Units(raw: Bytes): seq<Unit> {
    if raw == [] then [] else [FirstUnit(raw)] + Units(raw[Width(raw)..])
  }

  function PairedRune(high: Unit, low: Unit): Rune
    requires HighSurrogate(high) && LowSurrogate(low)
  {
    (high - 0xD800) * 1024 + (low - 0xDC00) + 0x1_0000
  }

  /** How many units make the first rune, and that rune. */
  function JoinWidth(units: seq<Unit>): (w: nat)
    requires units != []
    ensures 1 <= w <= |units|
  {
    if HighSurrogate(units[0]) && |units| > 1 && LowSurrogate(units[1]) then 2 else 1
  }

  function FirstRune(units: seq<Unit>): Rune
    requires units != []
  {
    var u := units[0];
    if JoinWidth(units) == 2 then PairedRune(u, units[1])
    else if HighSurrogate(u) || LowSurrogate(u) then REPLACEMENT
    else u
  }

  /** Surrogate pairs joined, lone surrogates replaced. */
  function Join(units: seq<Unit>): Text {
    if units == [] then [] else [FirstRune(units)] + Join(units[JoinWidth(units)..])
  }

  function Decode(raw: Bytes): Text { Join(Units(raw)) }

  // ── writing ────────────────────────────────────────────────────────────────

  function EncodeUnit(u: Unit): Bytes {
    if 1 <= u < 0x80 then [u]
    else if u < 0x800 then [0xC0 + u / 64, 0x80 + u % 64]
    else [0xE0 + u / 4096, 0x80 + u / 64 % 64, 0x80 + u % 64]
  }

  function Encode(units: seq<Unit>): Bytes {
    if units == [] then [] else EncodeUnit(units[0]) + Encode(units[1..])
  }

  function SplitRune(r: Rune): seq<Unit> {
    if r < 0x1_0000 then [r] else [0xD800 + (r - 0x1_0000) / 1024, 0xDC00 + (r - 0x1_0000) % 1024]
  }

  function Split(text: Text): seq<Unit> {
    if text == [] then [] else SplitRune(text[0]) + Split(text[1..])
  }

  // ── round trips ────────────────────────────────────────────────────────────

  lemma UnitRoundTrip(u: Unit, rest: Bytes)
    ensures var raw := EncodeUnit(u) + rest;
      FirstUnit(raw) == u && Width(raw) == |EncodeUnit(u)| && raw[Width(raw)..] == rest
  {
    var raw := EncodeUnit(u) + rest;
    if 1 <= u < 0x80 {
      assert raw[0] == u;
    } else if u < 0x800 {
      TwoBytes(u);
      assert raw[0] == 0xC0 + u / 64 && raw[1] == 0x80 + u % 64;
    } else {
      ThreeBytes(u);
      assert raw[0] == 0xE0 + u / 4096 && raw[1] == 0x80 + u / 64 % 64 && raw[2] == 0x80 + u % 64;
    }
  }

  lemma TwoBytes(u: int)
    requires 0 <= u < 0x800
    ensures 0xC0 <= 0xC0 + u / 64 < 0xE0
    ensures TwoByteUnit(0xC0 + u / 64, 0x80 + u % 64) == u
  {
  }

  lemma ThreeBytes(u: int)
    requires 0x800 <= u < 0x1_0000
    ensures 0xE0 <= 0xE0 + u / 4096 < 0xF0
    ensures ThreeByteUnit(0xE0 + u / 4096, 0x80 + u / 64 % 64, 0x80 + u % 64) == u
  {
    assert (0xE0 + u / 4096) % 16 == u / 4096;
    assert (0x80 + u / 64 % 64) % 64 == u / 64 % 64;
    assert (0x80 + u % 64) % 64 == u % 64;
  }

  /** Every UTF-16 string survives, NUL and surrogates included. */
  lemma {:induction false} UnitsRoundTrip(units: seq<Unit>)
    ensures Units(Encode(units)) == units
  {
    if units != [] {
      UnitRoundTrip(units[0], Encode(units[1..]));
      UnitsRoundTrip(units[1..]);
    }
  }

  /** Splitting text into UTF-16 and joining it gives the text back. */
  lemma {:induction false} TextRoundTrip(text: Text)
    requires forall r :: r in text ==> IsScalar(r)
    ensures Join(Split(text)) == text
  {
    if text != [] {
      TextRoundTrip(text[1..]);
      assert IsScalar(text[0]);
      var units, rest := Split(text), Split(text[1..]);
      if text[0] < 0x1_0000 {
        assert units[0] == text[0] && units[1..] == rest;
      } else {
        var over := text[0] - 0x1_0000;
        assert units[0] == 0xD800 + over / 1024 && units[1] == 0xDC00 + over % 1024;
        assert units[2..] == rest;
      }
    }
  }

  /** Any text of Unicode scalars, written in modified UTF-8, is read back as it was. */
  lemma AliasRoundTrip(text: Text)
    requires forall r :: r in text ==> IsScalar(r)
    ensures Decode(Encode(Split(text))) == text
  {
    UnitsRoundTrip(Split(text));
    TextRoundTrip(text);
  }

  /** A byte that starts nothing, or a sequence cut off at the end, is one replacement character, and reading
      goes on behind it. */
  lemma MalformedByteIsReplaced(raw: Bytes)
    requires raw != []
    requires var b := raw[0];
      || b == 0 || 0x80 <= b < 0xC0 || 0xF0 <= b
      || (0xC0 <= b < 0xE0 && |raw| < 2)
      || (0xE0 <= b < 0xF0 && |raw| < 3)
    ensures Units(raw) == [0xFFFD] + Units(raw[1..])
  {
  }

  // ── the decoder as the agent runs it ───────────────────────────────────────

  method DecodeModifiedUtf8(raw: Bytes) returns (text: Text)
    ensures text == Decode(raw)
  {
    var units: seq<Unit> := [];
    var i := 0;
    assert raw[0..] == raw;
    while i < |raw|
      invariant i <= |raw|
      invariant units + Units(raw[i..]) == Units(raw)
    {
      var b := raw[i];
      ghost var rest := raw[i..];
      assert rest[Width(rest)..] == raw[i + Width(rest)..];
      assert units + Units(rest) == units + [FirstUnit(rest)] + Units(raw[i + Width(rest)..]);
      if b < 0x80 && b != 0 {
        units := units + [b];
        i := i + 1;
      } else if 0xC0 <= b < 0xE0 && i + 1 < |raw| {
        units := units + [TwoByteUnit(b, raw[i + 1])];
        i := i + 2;
      } else if 0xE0 <= b < 0xF0 && i + 2 < |raw| {
        units := units + [ThreeByteUnit(b, raw[i + 1], raw[i + 2])];
        i := i + 3;
      } else {
        units := units + [REPLACEMENT];
        i := i + 1;
      }
    }
    assert raw[i..] == [] && units == Units(raw);
    text := JoinPairs(units);
  }

  /** utf16.Decode: one pass, joining pairs as they come. */
  method JoinPairs(units: seq<Unit>) returns (text: Text)
    ensures text == Join(units)
  {
    text := [];
    var i := 0;
    assert units[0..] == units;
    while i < |units|
      invariant i <= |units|
      invariant text + Join(units[i..]) == Join(units)
    {
      ghost var rest := units[i..];
      assert rest[JoinWidth(rest)..] == units[i + JoinWidth(rest)..];
      assert text + Join(rest) == text + [FirstRune(rest)] + Join(units[i + JoinWidth(rest)..]);
      if HighSurrogate(units[i]) && i + 1 < |units| && LowSurrogate(units[i + 1]) {
        text := text + [PairedRune(units[i], units[i + 1])];
        i := i + 2;
      } else if HighSurrogate(units[i]) || LowSurrogate(units[i]) {
        text := text + [REPLACEMENT];
        i := i + 1;
      } else {
        text := text + [units[i]];
        i := i + 1;
      }
    }
    assert units[i..] == [];
  }
}
