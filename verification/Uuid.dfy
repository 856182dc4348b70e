/** The random UUIDs of the idempotency probe: version 4 of RFC 9562, section
    5.4, written as in section 4. */
module Uuid {
  import opened Wrappers

  // ----- masking -----

  /** The bits the random source decides, byte by byte: 122 in all. */
  function RandomBits(i: int): bv8 {
    if i == 6 then 0x0f else if i == 8 then 0x3f else 0xff
  }

  /** The other six: version 0100 on top of byte 6, variant 10 on top of byte 8. */
  predicate FixedBits(i: int, x: bv8) {
    if i == 6 then x >> 4 == 4 else if i == 8 then x >> 6 == 2 else true
  }

  ghost predicate IsVersion4(b: seq<bv8>) {
    |b| == 16 && forall i :: 0 <= i < 16 ==> FixedBits(i, b[i])
  }

  predicate SameBits(i: int, x: bv8, y: bv8) { x & RandomBits(i) == y & RandomBits(i) }

  ghost predicate SameRandomBits(a: seq<bv8>, b: seq<bv8>)
    requires |a| == |b| == 16
  {
    forall i :: 0 <= i < 16 ==> SameBits(i, a[i], b[i])
  }

  function MaskVersion(x: bv8): bv8 { (x & 0x0f) | 0x40 }

  function MaskVariant(x: bv8): bv8 { (x & 0x3f) | 0x80 }

  function Masked(b: seq<bv8>): (m: seq<bv8>)
    requires |b| == 16
    ensures |m| == 16
  {
    b[6 := MaskVersion(b[6])][8 := MaskVariant(b[8])]
  }

  /** Masking gives a version 4 UUID that keeps all 122 random bits, and there is
      no other. */
  lemma MaskedIsTheOne(b: seq<bv8>, u: seq<bv8>)
    requires |b| == |u| == 16
    ensures u == Masked(b) <==> IsVersion4(u) && SameRandomBits(u, b)
  {}

  // ----- hexadecimal text -----

  function Digit(n: bv8): char {
    if n == 0 then '0' else if n == 1 then '1' else if n == 2 then '2' else if n == 3 then '3'
    else if n == 4 then '4' else if n == 5 then '5' else if n == 6 then '6' else if n == 7 then '7'
    else if n == 8 then '8' else if n == 9 then '9' else if n == 10 then 'a' else if n == 11 then 'b'
    else if n == 12 then 'c' else if n == 13 then 'd' else if n == 14 then 'e' else 'f'
  }

  function Value(c: char): Option<bv8> {
    if c == '0' then Some(0) else if c == '1' then Some(1) else if c == '2' then Some(2)
    else if c == '3' then Some(3) else if c == '4' then Some(4) else if c == '5' then Some(5)
    else if c == '6' then Some(6) else if c == '7' then Some(7) else if c == '8' then Some(8)
    else if c == '9' then Some(9) else if c == 'a' then Some(10) else if c == 'b' then Some(11)
    else if c == 'c' then Some(12) else if c == 'd' then Some(13) else if c == 'e' then Some(14)
    else if c == 'f' then Some(15)
    else None
  }

  function Hex(b: seq<bv8>): (s: string)
    ensures |s| == 2 * |b|
  {
    if b == [] then "" else Pair(b[0]) + Hex(b[1..])
  }

  function Pair(x: bv8): (s: string)
    ensures |s| == 2
  {
    [Digit(x >> 4), Digit(x & 0x0f)]
  }

  function Unhex(s: string): Option<seq<bv8>> {
    if s == "" then Some([])
    else if |s| == 1 then None
    else
      var hi, lo, rest := Value(s[0]), Value(s[1]), Unhex(s[2..]);
      if hi.None? || lo.None? || rest.None? then None else Some([(hi.value << 4) | lo.value] + rest.value)
  }

  /** The digits are the lower-case ones. */
  lemma DigitTable(n: bv8)
    ensures n < 10 ==> Digit(n) as int == '0' as int + n as int
    ensures 10 <= n < 16 ==> Digit(n) as int == 'a' as int + (n as int - 10)
  {}

  /** Each byte is written high digit first, at twice its position. */
  lemma {:induction false} HexAt(b: seq<bv8>, k: nat)
    requires k < |b|
    ensures Hex(b)[2 * k] == Digit(b[k] >> 4) && Hex(b)[2 * k + 1] == Digit(b[k] & 0x0f)
  {
    hide Digit;
    if k > 0 {
      HexAt(b[1..], k - 1);
    }
  }

  lemma DigitValue(n: bv8, c: char)
    requires n < 16
    ensures Digit(n) == c <==> Value(c) == Some(n)
  {}

  lemma ValueBelow16(c: char)
    ensures Value(c).Some? ==> Value(c).value < 16
  {}

  lemma Nibbles(x: bv8)
    ensures x >> 4 < 16 && x & 0x0f < 16 && ((x >> 4) << 4) | (x & 0x0f) == x
  {}

  lemma NibblesOf(hi: bv8, lo: bv8)
    requires hi < 16 && lo < 16
    ensures ((hi << 4) | lo) >> 4 == hi && ((hi << 4) | lo) & 0x0f == lo
  {}

  /** Reading lower-case hexadecimal inverts writing it. */
  lemma {:induction false} UnhexExact(b: seq<bv8>, s: string)
    ensures Unhex(s) == Some(b) <==> s == Hex(b)
  {
    hide Pair, Value;
    if b == [] || s == "" || |s| == 1 {
    } else {
      UnhexExact(b[1..], s[2..]);
      HexByte(b[0], s[0], s[1]);
      assert s == [s[0], s[1]] + s[2..];
      assert b == [b[0]] + b[1..];
      assert Hex(b) == Pair(b[0]) + Hex(b[1..]);
      assert Hex(b)[..2] == Pair(b[0]) && Hex(b)[2..] == Hex(b[1..]);
      assert s[..2] == [s[0], s[1]];
    }
  }

  lemma HexByte(x: bv8, c: char, d: char)
    ensures Pair(x) == [c, d] <==>
            Value(c).Some? && Value(d).Some? && (Value(c).value << 4) | Value(d).value == x
  {
    Nibbles(x);
    DigitValue(x >> 4, c);
    DigitValue(x & 0x0f, d);
    ValueBelow16(c);
    ValueBelow16(d);
    if Value(c).Some? && Value(d).Some? {
      NibblesOf(Value(c).value, Value(d).value);
    }
  }

  lemma {:induction false} HexConcat(a: seq<bv8>, b: seq<bv8>)
    ensures Hex(a + b) == Hex(a) + Hex(b)
  {
    hide Pair;
    if a == [] {
      assert a + b == b;
    } else {
      HexConcat(a[1..], b);
      assert (a + b)[1..] == a[1..] + b && (a + b)[0] == a[0];
      assert Hex(a + b) == Pair(a[0]) + (Hex(a[1..]) + Hex(b));
    }
  }

  // ----- the text form -----

  function Format(b: seq<bv8>): string
    requires |b| == 16
  {
    Hex(b[..4]) + "-" + Hex(b[4..6]) + "-" + Hex(b[6..8]) + "-" + Hex(b[8..10]) + "-" + Hex(b[10..])
  }

  /** 36 characters: groups of 8, 4, 4, 4 and 12 between dashes. */
  predicate Grouped(s: string) {
    |s| == 36 && s[8] == '-' && s[13] == '-' && s[18] == '-' && s[23] == '-'
  }

  function Digits(s: string): (t: string)
    requires |s| == 36
    ensures |t| == 32
  {
    s[..8] + s[9..13] + s[14..18] + s[19..23] + s[24..]
  }

  function Dashed(t: string): (s: string)
    requires |t| == 32
    ensures |s| == 36
  {
    t[..8] + "-" + t[8..12] + "-" + t[12..16] + "-" + t[16..20] + "-" + t[20..]
  }

  function Parse(s: string): Option<seq<bv8>> {
    if Grouped(s) then Unhex(Digits(s)) else None
  }

  lemma DashedExact(s: string, t: string)
    requires |t| == 32
    ensures s == Dashed(t) <==> Grouped(s) && Digits(s) == t
  {
    if Grouped(s) && Digits(s) == t {
      assert t[..8] == s[..8] && t[8..12] == s[9..13] && t[12..16] == s[14..18] && t[16..20] == s[19..23]
          && t[20..] == s[24..];
      assert s == s[..8] + "-" + s[9..13] + "-" + s[14..18] + "-" + s[19..23] + "-" + s[24..];
    }
    if s == Dashed(t) {
      assert s[..8] == t[..8] && s[9..13] == t[8..12] && s[14..18] == t[12..16] && s[19..23] == t[16..20]
          && s[24..] == t[20..];
      assert t == t[..8] + t[8..12] + t[12..16] + t[16..20] + t[20..];
    }
  }

  lemma FormatIsDashed(b: seq<bv8>)
    requires |b| == 16
    ensures Format(b) == Dashed(Hex(b))
  {
    hide Hex, Dashed;
    HexConcat(b[..4], b[4..]);
    HexConcat(b[4..6], b[6..]);
    HexConcat(b[6..8], b[8..]);
    HexConcat(b[8..10], b[10..]);
    assert b == b[..4] + b[4..] && b[4..] == b[4..6] + b[6..] && b[6..] == b[6..8] + b[8..]
        && b[8..] == b[8..10] + b[10..];
    DashedParts(Hex(b[..4]), Hex(b[4..6]), Hex(b[6..8]), Hex(b[8..10]), Hex(b[10..]));
  }

  lemma DashedParts(v: string, w: string, x: string, y: string, z: string)
    requires |v| == 8 && |w| == |x| == |y| == 4 && |z| == 12
    ensures Dashed(v + (w + (x + (y + z)))) == v + "-" + w + "-" + x + "-" + y + "-" + z
  {}

  /** Parsing accepts exactly what printing produces, and gives the bytes back. */
  lemma ParseExact(b: seq<bv8>, s: string)
    requires |b| == 16
    ensures Parse(s) == Some(b) <==> s == Format(b)
  {
    hide Hex, Unhex, Dashed, Digits, Grouped, Format;
    FormatIsDashed(b);
    DashedExact(s, Hex(b));
    if Grouped(s) {
      hide *;
      GroupedLength(s);
      UnhexExact(b, Digits(s));
    }
  }

  lemma GroupedLength(s: string)
    requires Grouped(s)
    ensures |s| == 36
  {}

  // ----- newUUID -----

  /** The 16 bytes come from the random source. The text has five groups of digits,
      the third begins with the version and the fourth with the variant. */
  method NewUuid(random: seq<bv8>) returns (s: string)
    requires |random| == 16
    ensures Parse(s) == Some(Masked(random))
    ensures |s| == 36 && s[8] == s[13] == s[18] == s[23] == '-'
    ensures s[14] == '4' && s[19] in "89ab"
  {
    hide MaskVersion, MaskVariant, Parse, Format;
    var b := new bv8[16](i requires 0 <= i < 16 => random[i]);
    b[6] := MaskVersion(b[6]);
    b[8] := MaskVariant(b[8]);
    assert b[..] == Masked(random);
    s := Format(b[..]);
    ParseExact(Masked(random), s);
    VersionAndVariant(random);
  }

  lemma VersionAndVariant(random: seq<bv8>)
    requires |random| == 16
    ensures var s := Format(Masked(random));
            |s| == 36 && s[8] == s[13] == s[18] == s[23] == '-' && s[14] == '4' && s[19] in "89ab"
  {
    var m := Masked(random);
    FormatIsDashed(m);
    HexAt(m, 6);
    HexAt(m, 8);
    hide Format, Hex;
    var t := Hex(m);
    assert Dashed(t)[14] == t[12] && Dashed(t)[19] == t[16];
    VersionDigit(random[6]);
    VariantDigit(random[8]);
  }

  lemma VersionDigit(x: bv8)
    ensures Digit(MaskVersion(x) >> 4) == '4'
  {}

  lemma VariantDigit(x: bv8)
    ensures Digit(MaskVariant(x) >> 4) in "89ab"
  {
    var d := MaskVariant(x) >> 4;
    assert d == 8 || d == 9 || d == 10 || d == 11;
  }

  /** Two draws print alike exactly when they agree on the random bits. */
  lemma SameTextSameBits(a: seq<bv8>, b: seq<bv8>)
    requires |a| == |b| == 16
    ensures Format(Masked(a)) == Format(Masked(b)) <==> SameRandomBits(a, b)
  {
    ParseExact(Masked(a), Format(Masked(a)));
    ParseExact(Masked(b), Format(Masked(b)));
    MaskedIsTheOne(a, Masked(a));
    MaskedIsTheOne(b, Masked(b));
    MaskedIsTheOne(b, Masked(a));
  }

  /** The texts are those whose bytes parse as version 4: each is printed for some draw. */
  lemma PrintsExactlyVersion4(s: string)
    ensures (exists random :: |random| == 16 && s == Format(Masked(random))) <==>
            (Parse(s).Some? && IsVersion4(Parse(s).value))
  {
    if random :| |random| == 16 && s == Format(Masked(random)) {
      ParseExact(Masked(random), s);
      MaskedIsTheOne(random, Masked(random));
    }
    if Parse(s).Some? && IsVersion4(Parse(s).value) {
      var u := Parse(s).value;
      ParseExact(u, s);
      MaskedIsTheOne(u, u);
    }
  }
}
