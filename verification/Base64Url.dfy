/** base64url (section 5 of RFC 4648) as Go's encoding/base64 does it: the
    decoder skips CR and LF and ignores the unused low bits of the last digit. */
module Base64Url {
  import opened Text
  import opened Wrappers

  type Byte = b: int | 0 <= b < 256
  type Sextet = v: int | 0 <= v < 64

  const LF: Byte := '\n' as int
  const CR: Byte := '\r' as int
  const PAD: Byte := '=' as int

  function Digit(v: Sextet): Byte {
    if v < 26 then 65 + v            // A-Z
    else if v < 52 then 97 + v - 26  // a-z
    else if v < 62 then 48 + v - 52  // 0-9
    else if v == 62 then 45          // -
    else 95                          // _
  }

  predicate IsDigit(c: Byte) {
    65 <= c < 91 || 97 <= c < 123 || 48 <= c < 58 || c == 45 || c == 95
  }

  /** The value of a digit; 0 for any other byte. */
  function Value(c: Byte): Sextet {
    if 65 <= c < 91 then c - 65
    else if 97 <= c < 123 then c - 97 + 26
    else if 48 <= c < 58 then c - 48 + 52
    else if c == 45 then 62
    else if c == 95 then 63
    else 0
  }

  predicate AllDigits(s: seq<Byte>) { forall c :: c in s ==> IsDigit(c) }

  // ----- EncodeToString, unpadded -----

  /** Three octets as four digits. */
  function Quad(x: Byte, y: Byte, z: Byte): (q: seq<Byte>)
    ensures |q| == 4 && AllDigits(q)
  {
    [Digit(x / 4), Digit(x % 4 * 16 + y / 16), Digit(y % 16 * 4 + z / 64), Digit(z % 64)]
  }

  function Encode(bs: seq<Byte>): seq<Byte> {
    if bs == [] then []
    else if |bs| == 1 then Quad(bs[0], 0, 0)[..2]
    else if |bs| == 2 then Quad(bs[0], bs[1], 0)[..3]
    else Quad(bs[0], bs[1], bs[2]) + Encode(bs[3..])
  }

  // ----- DecodeString -----

  predicate IsNewline(c: Byte) { c == CR || c == LF }

  function StripNewlines(s: seq<Byte>): seq<Byte> {
    if s == [] then []
    else (if IsNewline(s[0]) then [] else [s[0]]) + StripNewlines(s[1..])
  }

  /** Four sextets as three octets. */
  function Triple(a: Sextet, b: Sextet, c: Sextet, d: Sextet): (t: seq<Byte>)
    ensures |t| == 3
  {
    [a * 4 + b / 16, b % 16 * 16 + c / 4, c % 4 * 64 + d]
  }

  predicate FullQuantum(s: seq<Byte>) {
    |s| >= 4 && IsDigit(s[0]) && IsDigit(s[1]) && IsDigit(s[2]) && IsDigit(s[3])
  }

  /** A quantum of two or three digits; its missing digits count as zero. */
  function ShortQuantum(s: seq<Byte>): Option<seq<Byte>> {
    if |s| == 2 && AllDigits(s) then Some(Triple(Value(s[0]), Value(s[1]), 0, 0)[..1])
    else if |s| == 3 && AllDigits(s) then Some(Triple(Value(s[0]), Value(s[1]), Value(s[2]), 0)[..2])
    else None
  }

  /** The quantum loop on input without newlines; `padded` is the alphabet with
      a padding character. */
  function Quanta(padded: bool, s: seq<Byte>): Option<seq<Byte>> {
    if s == [] then Some([])
    else if FullQuantum(s) then
      match Quanta(padded, s[4..])
      case None => None
      case Some(rest) => Some(Triple(Value(s[0]), Value(s[1]), Value(s[2]), Value(s[3])) + rest)
    else if !padded then ShortQuantum(s)
    else if |s| == 4 && s[3] == PAD then ShortQuantum(if s[2] == PAD then s[..2] else s[..3])
    else None
  }

  /** base64.RawURLEncoding.DecodeString */
  function RawDecode(s: seq<Byte>): Option<seq<Byte>> { Quanta(false, StripNewlines(s)) }

  /** base64.URLEncoding.DecodeString */
  function PaddedDecode(s: seq<Byte>): Option<seq<Byte>> { Quanta(true, StripNewlines(s)) }

  function PadCount(n: nat): nat { if n % 4 != 0 then 4 - n % 4 else 0 }

  function Pads(n: nat): (r: seq<Byte>)
    ensures |r| == n && forall i :: 0 <= i < n ==> r[i] == PAD
  {
    if n == 0 then [] else [PAD] + Pads(n - 1)
  }

  /** The decode of a payload after it was topped up to a multiple of four. */
  function PadThenDecode(s: seq<Byte>): Option<seq<Byte>> {
    PaddedDecode(s + Pads(PadCount(|s|)))
  }

  // ----- the alphabet and the bits -----

  /** Table 2 of RFC 4648, section 5. */
  lemma Alphabet(v: Sextet)
    ensures v < 26 ==> Digit(v) == 'A' as int + v
    ensures 26 <= v < 52 ==> Digit(v) == 'a' as int + (v - 26)
    ensures 52 <= v < 62 ==> Digit(v) == '0' as int + (v - 52)
    ensures v == 62 ==> Digit(v) == '-' as int
    ensures v == 63 ==> Digit(v) == '_' as int
  {}

  lemma DigitsAreTheAlphabet(c: Byte)
    ensures IsDigit(c) <==> exists v: Sextet :: Digit(v) == c
  {
    if IsDigit(c) { ValueDigit(c); }
    forall v: Sextet | Digit(v) == c ensures IsDigit(c) { DigitValue(v); }
  }

  /** The number the digits stand for, most significant first. */
  function Number(digits: seq<Byte>): nat {
    if digits == [] then 0 else 64 * Number(digits[..|digits| - 1]) + Value(digits[|digits| - 1])
  }

  lemma NumberSnoc(digits: seq<Byte>, d: Byte)
    ensures Number(digits + [d]) == 64 * Number(digits) + Value(d)
  {
    assert (digits + [d])[..|digits|] == digits;
  }

  lemma NumberOf4(a: Byte, b: Byte, c: Byte, d: Byte)
    ensures Number([a, b]) == 64 * Value(a) + Value(b)
    ensures Number([a, b, c]) == 64 * (64 * Value(a) + Value(b)) + Value(c)
    ensures Number([a, b, c, d]) == 64 * (64 * (64 * Value(a) + Value(b)) + Value(c)) + Value(d)
  {
    hide Value;
    NumberSnoc([], a);
    NumberSnoc([a], b);
    NumberSnoc([a, b], c);
    NumberSnoc([a, b, c], d);
    assert [] + [a] == [a] && [a] + [b] == [a, b] && [a, b] + [c] == [a, b, c] && [a, b, c] + [d] == [a, b, c, d];
  }

  /** Octets are digits of base 256, sextets of base 64, most significant first; a
      short last group is filled with zero bits on the right. */
  lemma EncodedNumber(x: Byte, y: Byte, z: Byte)
    ensures Number(Encode([x])) == 16 * x && |Encode([x])| == 2
    ensures Number(Encode([x, y])) == 4 * (256 * x + y) && |Encode([x, y])| == 3
    ensures Number(Encode([x, y, z])) == 256 * (256 * x + y) + z && |Encode([x, y, z])| == 4
  {
    hide Quad, Value, Encode, Number;
    EncodeShort(x, y, z);
    var q, r, s := Quad(x, y, z), Quad(x, y, 0), Quad(x, 0, 0);
    QuadValues(x, y, z);
    NumberOf4(q[0], q[1], q[2], q[3]);
    QuadValues(x, y, 0);
    NumberOf4(r[0], r[1], r[2], r[3]);
    QuadValues(x, 0, 0);
    NumberOf4(s[0], s[1], s[2], s[3]);
  }

  lemma EncodeShort(x: Byte, y: Byte, z: Byte)
    ensures var s := Quad(x, 0, 0); Encode([x]) == [s[0], s[1]]
    ensures var r := Quad(x, y, 0); Encode([x, y]) == [r[0], r[1], r[2]]
    ensures var q := Quad(x, y, z); Encode([x, y, z]) == [q[0], q[1], q[2], q[3]]
  {
    hide Quad;
    assert [x, y, z][3..] == [] && Encode([]) == [];
  }

  lemma QuadValues(x: Byte, y: Byte, z: Byte)
    ensures var q := Quad(x, y, z);
            64 * (64 * (64 * Value(q[0]) + Value(q[1])) + Value(q[2])) + Value(q[3]) == 256 * (256 * x + y) + z
    ensures z == 0 ==> Value(Quad(x, y, z)[3]) == 0
    ensures z == 0 && y == 0 ==> Value(Quad(x, y, z)[2]) == 0
  {
    hide Digit, Value;
    DigitValue(x / 4);
    DigitValue(x % 4 * 16 + y / 16);
    DigitValue(y % 16 * 4 + z / 64);
    DigitValue(z % 64);
  }

  /** Groups of three octets are encoded one after another. */
  lemma {:induction false} EncodeGroups(a: seq<Byte>, b: seq<Byte>)
    requires |a| % 3 == 0
    ensures Encode(a + b) == Encode(a) + Encode(b)
  {
    hide Quad;
    if a == [] {
      assert a + b == b;
    } else {
      EncodeGroups(a[3..], b);
      assert (a + b)[3..] == a[3..] + b;
      assert (a + b)[0] == a[0] && (a + b)[1] == a[1] && (a + b)[2] == a[2];
      Associate(Quad(a[0], a[1], a[2]), Encode(a[3..]), Encode(b));
    }
  }

  // ----- encoder and unpadded decoder -----

  lemma DigitValue(v: Sextet)
    ensures IsDigit(Digit(v)) && Value(Digit(v)) == v
  {}

  lemma ValueDigit(c: Byte)
    requires IsDigit(c)
    ensures Digit(Value(c)) == c
  {}

  lemma TripleOfQuad(x: Byte, y: Byte, z: Byte)
    ensures var q := Quad(x, y, z); Triple(Value(q[0]), Value(q[1]), Value(q[2]), Value(q[3])) == [x, y, z]
  {
    var a, b, c, d := x / 4, x % 4 * 16 + y / 16, y % 16 * 4 + z / 64, z % 64;
    DigitValue(a);
    DigitValue(b);
    DigitValue(c);
    DigitValue(d);
    Unpack16(x % 4, y / 16);
    Unpack4(y % 16, z / 64);
    assert Triple(a, b, c, d) == [x, y, z];
  }

  lemma Unpack16(hi: int, lo: int)
    requires 0 <= lo < 16
    ensures (hi * 16 + lo) / 16 == hi && (hi * 16 + lo) % 16 == lo
  {}

  lemma Unpack4(hi: int, lo: int)
    requires 0 <= lo < 4
    ensures (hi * 4 + lo) / 4 == hi && (hi * 4 + lo) % 4 == lo
  {}

  lemma QuadOfTriple(a: Sextet, b: Sextet, c: Sextet, d: Sextet)
    ensures var t := Triple(a, b, c, d); Quad(t[0], t[1], t[2]) == [Digit(a), Digit(b), Digit(c), Digit(d)]
  {
    hide Digit;
    Unpack4(a, b / 16);
    Unpack16(b % 16, c / 4);
    assert (c % 4 * 64 + d) / 64 == c % 4 && (c % 4 * 64 + d) % 64 == d;
  }

  lemma {:induction false} EncodeDigits(bs: seq<Byte>)
    ensures AllDigits(Encode(bs))
    ensures |Encode(bs)| == (4 * |bs| + 2) / 3
  {
    if |bs| > 2 { EncodeDigits(bs[3..]); }
  }

  lemma {:induction false} StripKeeps(s: seq<Byte>)
    requires forall c :: c in s ==> !IsNewline(c)
    ensures StripNewlines(s) == s
  {
    if s != [] { StripKeeps(s[1..]); }
  }

  /** Decoding undoes encoding, for every byte string. */
  lemma RoundTrip(bs: seq<Byte>)
    ensures RawDecode(Encode(bs)) == Some(bs)
  {
    EncodeDigits(bs);
    StripKeeps(Encode(bs));
    QuantaOfEncode(bs);
  }

  lemma {:induction false} QuantaOfEncode(bs: seq<Byte>)
    ensures Quanta(false, Encode(bs)) == Some(bs)
  {
    hide Digit, Value, IsDigit;
    EncodeDigits(bs);
    var e := Encode(bs);
    if |bs| == 1 {
      TripleOfQuad(bs[0], 0, 0);
      var q := Quad(bs[0], 0, 0);
      assert e == q[..2] && e[0] == q[0] && e[1] == q[1];
      assert Triple(Value(q[0]), Value(q[1]), 0, 0)[..1] == bs;
    } else if |bs| == 2 {
      TripleOfQuad(bs[0], bs[1], 0);
      var q := Quad(bs[0], bs[1], 0);
      assert e == q[..3] && e[0] == q[0] && e[1] == q[1] && e[2] == q[2];
      assert Triple(Value(q[0]), Value(q[1]), Value(q[2]), 0)[..2] == bs;
    } else if |bs| > 2 {
      var q := Quad(bs[0], bs[1], bs[2]);
      TripleOfQuad(bs[0], bs[1], bs[2]);
      QuantaOfEncode(bs[3..]);
      assert e[..4] == q && e[4..] == Encode(bs[3..]);
      assert FullQuantum(e) by { assert q[0] in q && q[1] in q && q[2] in q && q[3] in q; }
      assert bs == bs[..3] + bs[3..] && bs[..3] == [bs[0], bs[1], bs[2]];
    }
  }

  lemma FullQuantumSplit(s: seq<Byte>)
    requires |s| >= 4
    ensures FullQuantum(s) <==> AllDigits(s[..4])
    ensures AllDigits(s) <==> FullQuantum(s) && AllDigits(s[4..])
  {}

  lemma {:induction false} QuantaAcceptance(s: seq<Byte>)
    ensures Quanta(false, s).Some? <==> AllDigits(s) && |s| % 4 != 1
  {
    hide Digit, Value, Triple;
    if |s| >= 4 {
      FullQuantumSplit(s);
      QuantaAcceptance(s[4..]);
    }
  }

  /** The unpadded decoder accepts exactly the strings that, without CR and LF,
      are all digits and not of length 1 mod 4. */
  lemma RawAcceptance(s: seq<Byte>)
    ensures RawDecode(s).Some?
       <==> AllDigits(StripNewlines(s)) && |StripNewlines(s)| % 4 != 1
  {
    QuantaAcceptance(StripNewlines(s));
  }

  /** The bits of the last digit that belong to no octet. */
  function UnusedBits(s: seq<Byte>): int {
    if |s| % 4 == 2 then Value(s[|s| - 1]) % 16
    else if |s| % 4 == 3 then Value(s[|s| - 1]) % 4
    else 0
  }

  /** The decoder is not strict: an accepted string encodes back to itself
      exactly when its unused bits are zero. */
  lemma {:induction false} Canonical(s: seq<Byte>)
    requires AllDigits(s) && |s| % 4 != 1
    ensures Quanta(false, s).Some?
    ensures Encode(Quanta(false, s).value) == s <==> UnusedBits(s) == 0
  {
    hide Quad, Triple, Digit, Value, IsDigit, UnusedBits, Encode;
    QuantaAcceptance(s);
    if |s| >= 4 {
      FullQuantumSplit(s);
      QuantaAcceptance(s[4..]);
      Canonical(s[4..]);
      UnusedTail(s);
      QuadAgain(s[..4]);
      CanonicalStep(s, Triple(Value(s[0]), Value(s[1]), Value(s[2]), Value(s[3])), Quanta(false, s[4..]).value);
    } else if |s| == 3 {
      CanonicalTrio(s);
    } else if |s| == 2 {
      CanonicalPair(s);
    } else {
      CanonicalEmpty(s);
    }
  }

  lemma CanonicalEmpty(s: seq<Byte>)
    requires s == []
    ensures Encode(Quanta(false, s).value) == s && UnusedBits(s) == 0
  {}

  lemma UnusedTail(s: seq<Byte>)
    requires |s| >= 4
    ensures UnusedBits(s[4..]) == UnusedBits(s)
  {
    hide Value;
    assert |s[4..]| % 4 == |s| % 4;
    assert |s| > 4 ==> s[4..][|s| - 5] == s[|s| - 1];
  }

  lemma QuadAgain(s: seq<Byte>)
    requires |s| == 4 && FullQuantum(s)
    ensures var t := Triple(Value(s[0]), Value(s[1]), Value(s[2]), Value(s[3])); Quad(t[0], t[1], t[2]) == s
  {
    hide IsDigit, Value, Digit;
    var a, b, c, d := Value(s[0]), Value(s[1]), Value(s[2]), Value(s[3]);
    assert s == [Digit(a), Digit(b), Digit(c), Digit(d)] by {
      ValueDigit(s[0]); ValueDigit(s[1]); ValueDigit(s[2]); ValueDigit(s[3]);
    }
    QuadOfTriple(a, b, c, d);
  }

  lemma CanonicalStep(s: seq<Byte>, t: seq<Byte>, rest: seq<Byte>)
    requires |s| >= 4 && |t| == 3 && Quad(t[0], t[1], t[2]) == s[..4]
    ensures Encode(t + rest) == s <==> Encode(rest) == s[4..]
  {}

  lemma ShortDigit(c: Byte, unused: int)
    requires IsDigit(c) && (unused == 16 || unused == 4)
    ensures Value(c) / unused * unused == Value(c) - Value(c) % unused
    ensures Digit(Value(c) / unused * unused) == c <==> Value(c) % unused == 0
  {}

  lemma CanonicalPair(s: seq<Byte>)
    requires |s| == 2 && AllDigits(s)
    ensures Encode(Quanta(false, s).value) == s <==> UnusedBits(s) == 0
  {
    hide Digit, Value, IsDigit, Quanta, Encode;
    assert s[0] in s && s[1] in s;
    var a, b := Value(s[0]), Value(s[1]);
    ShortPair(s, a, b);
    Unpack4(a, b / 16);
    ValueDigit(s[0]);
    ShortDigit(s[1], 16);
  }

  lemma ShortPair(s: seq<Byte>, a: Sextet, b: Sextet)
    requires |s| == 2 && AllDigits(s) && a == Value(s[0]) && b == Value(s[1])
    ensures var x := a * 4 + b / 16;
            Quanta(false, s) == Some([x]) && Encode([x]) == [Digit(x / 4), Digit(x % 4 * 16)]
  {
    hide Digit, Value, IsDigit;
    assert Triple(a, b, 0, 0)[..1] == [a * 4 + b / 16];
  }

  lemma CanonicalTrio(s: seq<Byte>)
    requires |s| == 3 && AllDigits(s)
    ensures Encode(Quanta(false, s).value) == s <==> UnusedBits(s) == 0
  {
    hide Digit, Value, IsDigit, Quanta, Encode;
    assert s[0] in s && s[1] in s && s[2] in s;
    var a, b, c := Value(s[0]), Value(s[1]), Value(s[2]);
    ShortTrio(s, a, b, c);
    Unpack4(a, b / 16);
    Unpack16(b % 16, c / 4);
    ValueDigit(s[0]);
    ValueDigit(s[1]);
    ShortDigit(s[2], 4);
  }

  lemma ShortTrio(s: seq<Byte>, a: Sextet, b: Sextet, c: Sextet)
    requires |s| == 3 && AllDigits(s) && a == Value(s[0]) && b == Value(s[1]) && c == Value(s[2])
    ensures var x := a * 4 + b / 16; var y := b % 16 * 16 + c / 4;
            && Quanta(false, s) == Some([x, y])
            && Encode([x, y]) == [Digit(x / 4), Digit(x % 4 * 16 + y / 16), Digit(y % 16 * 4)]
  {
    hide Digit, Value, IsDigit;
    assert Triple(a, b, c, 0)[..2] == [a * 4 + b / 16, b % 16 * 16 + c / 4];
  }

  /** The string with its unused bits zero. */
  function Cleared(s: seq<Byte>): seq<Byte>
    requires |s| % 4 == 2 || |s| % 4 == 3
  {
    var n := |s| - 1;
    s[..n] + [Digit(Value(s[n]) - UnusedBits(s))]
  }

  /** The decoder takes no notice of unused bits. */
  lemma {:induction false} UnusedIgnored(s: seq<Byte>)
    requires AllDigits(s) && (|s| % 4 == 2 || |s| % 4 == 3)
    ensures Quanta(false, Cleared(s)) == Quanta(false, s)
  {
    hide Digit, Value, IsDigit, Triple;
    var n := |s| - 1;
    var t := Cleared(s);
    if |s| >= 4 {
      FullQuantumSplit(s);
      UnusedTail(s);
      UnusedIgnored(s[4..]);
      assert s[4..][..n - 4] == s[..n][4..] && s[4..][n - 4] == s[n];
      assert t[4..] == Cleared(s[4..]);
      assert t[0] == s[0] && t[1] == s[1] && t[2] == s[2] && t[3] == s[3];
    } else {
      UnusedShort(s);
    }
  }

  lemma UnusedShort(s: seq<Byte>)
    requires AllDigits(s) && (|s| == 2 || |s| == 3)
    ensures Quanta(false, Cleared(s)) == Quanta(false, s)
  {
    hide Digit, Value, IsDigit, Quanta;
    assert forall i :: 0 <= i < |s| ==> s[i] in s;
    if |s| == 2 {
      assert Cleared(s) == [s[0], Digit(Value(s[1]) - Value(s[1]) % 16)] && s == [s[0], s[1]];
      UnusedPair(s[0], s[1]);
    } else {
      assert Cleared(s) == [s[0], s[1], Digit(Value(s[2]) - Value(s[2]) % 4)] && s == [s[0], s[1], s[2]];
      UnusedTrio(s[0], s[1], s[2]);
    }
  }

  lemma UnusedPair(a: Byte, b: Byte)
    requires IsDigit(a) && IsDigit(b)
    ensures Quanta(false, [a, Digit(Value(b) - Value(b) % 16)]) == Quanta(false, [a, b])
  {
    hide Digit, Value, IsDigit, Quanta, Encode;
    var v := Value(b) - Value(b) % 16;
    DigitValue(v);
    ShortPair([a, b], Value(a), Value(b));
    ShortPair([a, Digit(v)], Value(a), v);
    assert v / 16 == Value(b) / 16;
  }

  lemma UnusedTrio(a: Byte, b: Byte, c: Byte)
    requires IsDigit(a) && IsDigit(b) && IsDigit(c)
    ensures Quanta(false, [a, b, Digit(Value(c) - Value(c) % 4)]) == Quanta(false, [a, b, c])
  {
    hide Digit, Value, IsDigit, Quanta, Encode;
    var v := Value(c) - Value(c) % 4;
    DigitValue(v);
    ShortTrio([a, b, c], Value(a), Value(b), Value(c));
    ShortTrio([a, b, Digit(v)], Value(a), Value(b), v);
    assert v / 4 == Value(c) / 4;
  }

  // ----- the padding decoder against the unpadded one -----

  function DropPads(s: seq<Byte>): (r: seq<Byte>)
    ensures r == [] || r[|r| - 1] != PAD
    ensures |r| <= |s| && s == r + Pads(|s| - |r|)
  {
    if s != [] && s[|s| - 1] == PAD then DropPads(s[..|s| - 1]) else s
  }

  /** Padding is right or wrong by its length alone. */
  lemma {:induction false} QuantaOfPadded(b: seq<Byte>, t: nat)
    requires b == [] || b[|b| - 1] != PAD
    ensures Quanta(true, b + Pads(t)) == if t == PadCount(|b|) then Quanta(false, b) else None
  {
    if |b| >= 4 {
      var s := b + Pads(t);
      assert FullQuantum(s) <==> FullQuantum(b);
      if FullQuantum(b) {
        QuantaOfPadded(b[4..], t);
        assert s[4..] == b[4..] + Pads(t);
        PadCountTail(|b|);
      }
    } else {
      ShortPadded(b, t);
    }
  }

  lemma PadCountTail(n: nat)
    requires n >= 4
    ensures PadCount(n - 4) == PadCount(n)
  {}

  lemma ShortPadded(b: seq<Byte>, t: nat)
    requires |b| < 4 && (b == [] || b[|b| - 1] != PAD)
    ensures Quanta(true, b + Pads(t)) == if t == PadCount(|b|) then Quanta(false, b) else None
  {
    hide Triple, Value;
    assert Quanta(true, []) == Quanta(false, []) == Some([]);
    if |b| == 2 && t == 2 { assert (b + Pads(t))[..2] == b; }
    if |b| == 3 && t == 1 { assert (b + Pads(t))[..3] == b; }
  }

  lemma {:induction false} StripConcat(s: seq<Byte>, t: seq<Byte>)
    ensures StripNewlines(s + t) == StripNewlines(s) + StripNewlines(t)
  {
    hide IsNewline;
    if s == [] {
      assert s + t == t;
    } else {
      StripConcat(s[1..], t);
      assert (s + t)[1..] == s[1..] + t && (s + t)[0] == s[0];
      var head := if IsNewline(s[0]) then [] else [s[0]];
      Associate(head, StripNewlines(s[1..]), StripNewlines(t));
    }
  }

  lemma PadsAdd(b: seq<Byte>, m: nat, n: nat)
    ensures (b + Pads(m)) + Pads(n) == b + Pads(m + n)
  {}

  /** What pad-then-decode does to any string at all. With `b` the text left
      after CR, LF and trailing `=` are gone, it succeeds exactly when the `=`
      it was given plus the `=` it adds are as many as `b` needs, and then
      gives the unpadded decoding of `b`. */
  lemma PadThenDecodeExact(s: seq<Byte>)
    ensures var c := StripNewlines(s); var b := DropPads(c);
            PadThenDecode(s) == if |c| - |b| + PadCount(|s|) == PadCount(|b|) then Quanta(false, b) else None
  {
    hide Quanta, StripNewlines, PadCount, DropPads;
    var c := StripNewlines(s);
    var b := DropPads(c);
    var p := PadCount(|s|);
    assert StripNewlines(s + Pads(p)) == b + Pads(|c| - |b| + p) by {
      StripConcat(s, Pads(p));
      StripKeeps(Pads(p));
      PadsAdd(b, |c| - |b|, p);
    }
    QuantaOfPadded(b, |c| - |b| + p);
  }

  lemma {:induction false} StripCount(s: seq<Byte>)
    ensures |StripNewlines(s)| <= |s|
    ensures forall c :: c in StripNewlines(s) <==> c in s && c != '\n' as int && c != '\r' as int
  {
    if s != [] {
      StripCount(s[1..]);
      assert s == [s[0]] + s[1..];
    }
  }

  lemma NoPadsToDrop(s: seq<Byte>)
    requires PAD !in s
    ensures DropPads(StripNewlines(s)) == StripNewlines(s)
  {}

  /** On strings without `=` the two decoders agree exactly when the number of
      CR and LF is a multiple of four or the string is undecodable anyway. */
  lemma PaddingRefinement(s: seq<Byte>)
    requires PAD !in s
    ensures PadThenDecode(s) == RawDecode(s)
       <==> (|s| - |StripNewlines(s)|) % 4 == 0 || RawDecode(s).None?
    ensures PadThenDecode(s).Some? ==> PadThenDecode(s) == RawDecode(s)
  {
    hide Quanta, StripNewlines, DropPads, PadThenDecode;
    PadThenDecodeExact(s);
    StripCount(s);
    NoPadsToDrop(s);
    SamePadCount(|s|, |StripNewlines(s)|);
  }

  lemma SamePadCount(m: nat, n: nat)
    requires n <= m
    ensures PadCount(m) == PadCount(n) <==> (m - n) % 4 == 0
  {}

  /** The case the callers rely on: no `=`, CR or LF. */
  lemma PaddingAgrees(s: seq<Byte>)
    requires PAD !in s && CR !in s && LF !in s
    ensures PadThenDecode(s) == RawDecode(s)
    ensures |s| % 4 == 1 ==> PadThenDecode(s).None?
  {
    StripKeeps(s);
    PaddingRefinement(s);
    RawAcceptance(s);
  }

  /** Both decoders treat the string alike. With `b` the text left after CR, LF and
      trailing `=` are gone: it is undecodable, or no `=` was given and CR and LF
      are a multiple of four, or the `=` given and added are not what `b` needs. */
  predicate SameToBoth(s: seq<Byte>) {
    var c := StripNewlines(s);
    var b := DropPads(c);
    || !AllDigits(b) || |b| % 4 == 1
    || (if |c| == |b| then (|s| - |c|) % 4 == 0 else |c| - |b| + PadCount(|s|) != PadCount(|b|))
  }

  /** For every string at all, when the decoders agree. */
  lemma DecodersAgree(s: seq<Byte>)
    ensures PadThenDecode(s) == RawDecode(s) <==> SameToBoth(s)
  {
    hide Quanta, StripNewlines, DropPads, PadThenDecode;
    var c := StripNewlines(s);
    var b := DropPads(c);
    PadThenDecodeExact(s);
    StripCount(s);
    QuantaAcceptance(b);
    if |c| == |b| {
      assert c == b;
      SamePadCount(|s|, |c|);
    } else {
      RawAcceptance(s);
      assert c[|b|] == PAD && c[|b|] in c;
    }
  }

  /** With `=` they differ: given some or all of the padding it lacks, a string
      of digits is refused by the unpadded decoder and accepted by the other. */
  lemma GivenPadsDiffer(b: seq<Byte>, n: nat)
    requires AllDigits(b) && |b| % 4 != 1 && 1 <= n <= PadCount(|b|)
    ensures RawDecode(b + Pads(n)).None?
    ensures PadThenDecode(b + Pads(n)) == RawDecode(b) && RawDecode(b).Some?
  {
    hide Quanta, PadThenDecode, DropPads, StripNewlines, PadCount;
    var s := b + Pads(n);
    assert StripNewlines(b) == b by { StripKeeps(b); }
    assert StripNewlines(s) == s by { StripKeeps(s); }
    assert RawDecode(b).Some? by { RawAcceptance(b); }
    assert RawDecode(s).None? by {
      RawAcceptance(s);
      assert s[|b|] == PAD && s[|b|] in s;
    }
    assert DropPads(s) == b by {
      assert b != [] ==> b[|b| - 1] in b;
      DropPadsOf(b, n);
    }
    PadSum(|b|, n);
    PadThenDecodeExact(s);
  }

  lemma PadSum(m: nat, n: nat)
    requires n <= PadCount(m)
    ensures n + PadCount(m + n) == PadCount(m)
  {}

  /** One line break makes them differ too. */
  lemma LineBreakDiffers(b: seq<Byte>)
    requires AllDigits(b) && |b| % 4 != 1
    ensures RawDecode(b + [LF]).Some? && PadThenDecode(b + [LF]).None?
  {
    hide Quanta, PadCount, PadThenDecode;
    var s := b + [LF];
    StripConcat(b, [LF]);
    assert StripNewlines([LF]) == [];
    StripKeeps(b);
    assert StripNewlines(s) == b;
    RawAcceptance(s);
    PaddingRefinement(s);
  }

  lemma {:induction false} DropPadsOf(b: seq<Byte>, n: nat)
    requires b == [] || b[|b| - 1] != PAD
    ensures DropPads(b + Pads(n)) == b
  {
    if n == 0 {
      assert b + Pads(0) == b;
    } else {
      hide DropPads, Pads;
      PadsSnoc(b, n);
      DropOne(b + Pads(n - 1));
      DropPadsOf(b, n - 1);
    }
  }

  lemma PadsSnoc(b: seq<Byte>, n: nat)
    requires n > 0
    ensures b + Pads(n) == (b + Pads(n - 1)) + [PAD]
  {}

  lemma DropOne(s: seq<Byte>)
    ensures DropPads(s + [PAD]) == DropPads(s)
  {
    hide Pads;
    assert (s + [PAD])[..|s|] == s;
  }
}
