/** Base64 of section 4 of RFC 4648: the encoder, and the decoder that works
    in place over its own input (api/oc_base64.c). */
module Base64 {
  import opened Payload
  import opened Text

  type Byte = bv8

  const PAD: Byte := 61 // '='

  // ----- the alphabet

  function Letter(v: bv6): (ch: Byte)
    ensures IsLetter(ch)
  {
    var b := v as bv8;
    if b < 26 then b + 65
    else if b < 52 then b + 71
    else if b < 62 then b - 4
    else if b == 62 then 43
    else 47
  }

  predicate IsLetter(ch: Byte) {
    65 <= ch <= 90 || 97 <= ch <= 122 || 48 <= ch <= 57 || ch == 43 || ch == 47
  }

  function Value(ch: Byte): bv6 {
    if 65 <= ch <= 90 then (ch - 65) as bv6
    else if 97 <= ch <= 122 then (ch - 71) as bv6
    else if 48 <= ch <= 57 then (ch + 4) as bv6
    else if ch == 43 then 62
    else if ch == 47 then 63
    else 0
  }

  lemma LetterValue(v: bv6)
    ensures IsLetter(Letter(v)) && Value(Letter(v)) == v
  {
  }

  lemma ValueLetter(ch: Byte)
    requires IsLetter(ch)
    ensures Letter(Value(ch)) == ch
  {
  }

  const SIGNS := "0123456789+/"

  // "A" to "Z", "a" to "z", and these.
  const ALPHABET := CAPITALS + MINUSCULES + SIGNS

  // The letters are those of the alphabet of section 4 of RFC 4648, in its order.
  lemma LetterIsListed(v: bv6)
    ensures |ALPHABET| == 64 && Letter(v) as int == ALPHABET[v as int] as int
  {
    AlphabetParts();
    LetterCode(v);
    hide *;
    var i := v as int;
    if i < 26 {
      Capitals(i);
    } else if i < 52 {
      Minuscules(i - 26);
    } else {
      Signs(i - 52);
    }
  }

  lemma AlphabetParts()
    ensures |CAPITALS| == |MINUSCULES| == 26 && |SIGNS| == 12 && ALPHABET == CAPITALS + MINUSCULES + SIGNS
  {
  }

  lemma Signs(i: int)
    requires 0 <= i < 12
    ensures SIGNS[i] as int == if i < 10 then i + 48 else if i == 10 then 43 else 47
  {
  }

  lemma LetterCode(v: bv6)
    ensures var i := v as int;
            Letter(v) as int == if i < 26 then i + 65 else if i < 52 then i + 71 else if i < 62 then i - 4
                                else if i == 62 then 43 else 47
  {
  }

  // ----- the reference: 24-bit groups, read as four sextets or as three bytes

  function Group(b0: Byte, b1: Byte, b2: Byte): bv24 {
    (b0 as bv24 << 16) | (b1 as bv24 << 8) | b2 as bv24
  }

  function Sextet(g: bv24, r: nat): bv6
    requires r < 4
  {
    if r == 0 then ((g >> 18) & 0x3F) as bv6
    else if r == 1 then ((g >> 12) & 0x3F) as bv6
    else if r == 2 then ((g >> 6) & 0x3F) as bv6
    else (g & 0x3F) as bv6
  }

  function Ungroup(v0: bv6, v1: bv6, v2: bv6, v3: bv6): bv24 {
    (v0 as bv24 << 18) | (v1 as bv24 << 12) | (v2 as bv24 << 6) | v3 as bv24
  }

  function Octet(g: bv24, r: nat): Byte
    requires r < 3
  {
    if r == 0 then ((g >> 16) & 0xFF) as bv8
    else if r == 1 then ((g >> 8) & 0xFF) as bv8
    else (g & 0xFF) as bv8
  }

  function ByteOr0(s: seq<Byte>, i: nat): Byte {
    if i < |s| then s[i] else 0
  }

  function GroupAt(s: seq<Byte>, q: nat): bv24 {
    Group(ByteOr0(s, 3 * q), ByteOr0(s, 3 * q + 1), ByteOr0(s, 3 * q + 2))
  }

  function EncodedLength(n: nat): nat {
    n / 3 * 4 + if n % 3 != 0 then 4 else 0
  }

  // The k-th character: a sextet of its group, or padding when all its bits lie past the input.
  function CharAt(s: seq<Byte>, k: nat): Byte {
    if k % 4 >= 2 && 3 * (k / 4) + k % 4 - 1 >= |s| then PAD
    else Letter(Sextet(GroupAt(s, k / 4), k % 4))
  }

  function Encoded(s: seq<Byte>): (t: seq<Byte>)
  {
    seq(EncodedLength(|s|), k requires 0 <= k => CharAt(s, k))
  }

  function PadCount(t: seq<Byte>): nat {
    if |t| >= 1 && t[|t| - 1] == PAD then if |t| >= 2 && t[|t| - 2] == PAD then 2 else 1 else 0
  }

  // Whole groups of letters, with one or two padding characters allowed at the very end.
  predicate WellFormed(t: seq<Byte>) {
    |t| % 4 == 0 && forall k :: 0 <= k < |t| - PadCount(t) ==> IsLetter(t[k])
  }

  function ValueOr0(t: seq<Byte>, k: nat): bv6 {
    if k < |t| then Value(t[k]) else 0
  }

  function UngroupAt(t: seq<Byte>, q: nat): bv24 {
    Ungroup(ValueOr0(t, 4 * q), ValueOr0(t, 4 * q + 1), ValueOr0(t, 4 * q + 2), ValueOr0(t, 4 * q + 3))
  }

  function ByteAt(t: seq<Byte>, m: nat): Byte {
    Octet(UngroupAt(t, m / 3), m % 3)
  }

  function DecodedLength(t: seq<Byte>): nat
    requires |t| % 4 == 0
  {
    |t| / 4 * 3 - PadCount(t)
  }

  function Decoded(t: seq<Byte>): (s: seq<Byte>)
    requires |t| % 4 == 0
  {
    seq(DecodedLength(t), m requires 0 <= m => ByteAt(t, m))
  }

  // The bits of the last letter that no decoded byte uses.
  predicate SpareBitsZero(t: seq<Byte>)
    requires WellFormed(t)
  {
    match PadCount(t)
    case 0 => true
    case 1 => Value(t[|t| - 2]) & 0x03 == 0
    case _ => Value(t[|t| - 3]) & 0x0F == 0
  }

  // ----- round trips

  // A group of `have` bytes survives when the sextets beyond them are dropped.
  lemma GroupRoundTrip(b0: Byte, b1: Byte, b2: Byte, have: nat, g: bv24, u: bv24)
    requires 1 <= have <= 3 && (have < 3 ==> b2 == 0) && (have < 2 ==> b1 == 0)
    requires g == Group(b0, b1, b2)
    requires u == Ungroup(Sextet(g, 0), Sextet(g, 1), if have > 1 then Sextet(g, 2) else 0,
                          if have > 2 then Sextet(g, 3) else 0)
    ensures Octet(u, 0) == b0 && (have > 1 ==> Octet(u, 1) == b1) && (have > 2 ==> Octet(u, 2) == b2)
  {
  }

  lemma EncodedPadding(s: seq<Byte>)
    ensures |Encoded(s)| % 4 == 0
    ensures PadCount(Encoded(s)) == if |s| % 3 == 0 then 0 else 3 - |s| % 3
    ensures WellFormed(Encoded(s))
  {
    var t := Encoded(s);
    if t != [] {
      var n := |t|;
      assert n / 4 * 4 == n;
      assert t[n - 1] == CharAt(s, n - 1) && t[n - 2] == CharAt(s, n - 2);
      assert (n - 1) / 4 == n / 4 - 1 && (n - 2) / 4 == n / 4 - 1;
    }
  }

  // The sextet that the k-th character of an encoding stands for.
  function SextetAt(s: seq<Byte>, k: nat): bv6 {
    if k % 4 >= 2 && 3 * (k / 4) + k % 4 - 1 >= |s| then 0 else Sextet(GroupAt(s, k / 4), k % 4)
  }

  lemma ValueOfEncoded(s: seq<Byte>, k: nat)
    requires k < EncodedLength(|s|)
    ensures ValueOr0(Encoded(s), k) == SextetAt(s, k)
  {
    LetterValue(Sextet(GroupAt(s, k / 4), k % 4));
  }

  lemma UngroupOfEncoded(s: seq<Byte>, q: nat)
    requires 3 * q < |s|
    ensures UngroupAt(Encoded(s), q)
         == Ungroup(Sextet(GroupAt(s, q), 0), Sextet(GroupAt(s, q), 1),
                    if 3 * q + 1 < |s| then Sextet(GroupAt(s, q), 2) else 0,
                    if 3 * q + 2 < |s| then Sextet(GroupAt(s, q), 3) else 0)
  {
    hide CharAt, GroupAt, Sextet, Ungroup, Value, Encoded;
    ValueOfEncoded(s, 4 * q);
    ValueOfEncoded(s, 4 * q + 1);
    ValueOfEncoded(s, 4 * q + 2);
    ValueOfEncoded(s, 4 * q + 3);
  }

  lemma GroupOfEncodedDecodes(s: seq<Byte>, q: nat)
    requires 3 * q < |s|
    ensures Octet(UngroupAt(Encoded(s), q), 0) == s[3 * q]
    ensures 3 * q + 1 < |s| ==> Octet(UngroupAt(Encoded(s), q), 1) == s[3 * q + 1]
    ensures 3 * q + 2 < |s| ==> Octet(UngroupAt(Encoded(s), q), 2) == s[3 * q + 2]
  {
    var b0, b1, b2 := ByteOr0(s, 3 * q), ByteOr0(s, 3 * q + 1), ByteOr0(s, 3 * q + 2);
    var g, u := GroupAt(s, q), UngroupAt(Encoded(s), q);
    var have := if |s| - 3 * q > 3 then 3 else |s| - 3 * q;
    assert u == Ungroup(Sextet(g, 0), Sextet(g, 1), if have > 1 then Sextet(g, 2) else 0,
                        if have > 2 then Sextet(g, 3) else 0) by {
      UngroupOfEncoded(s, q);
    }
    GroupRoundTrip(b0, b1, b2, have, g, u);
  }

  lemma ByteOfEncoded(s: seq<Byte>, m: nat)
    requires m < |s|
    ensures ByteAt(Encoded(s), m) == s[m]
  {
    hide UngroupAt, Octet, Encoded;
    GroupOfEncodedDecodes(s, m / 3);
    if m % 3 == 0 {
      assert m == 3 * (m / 3);
    } else if m % 3 == 1 {
      assert m == 3 * (m / 3) + 1;
    } else {
      assert m == 3 * (m / 3) + 2;
    }
  }

  // Decoding an encoding gives the bytes back, for every input.
  lemma DecodeEncode(s: seq<Byte>)
    ensures WellFormed(Encoded(s)) && Decoded(Encoded(s)) == s
  {
    EncodedPadding(s);
    forall m | 0 <= m < |s| ensures Decoded(Encoded(s))[m] == s[m] {
      ByteOfEncoded(s, m);
    }
  }

  // A group of sextets with `pad` of them absent survives when its unused bits are zero.
  lemma UngroupRoundTrip(v0: bv6, v1: bv6, v2: bv6, v3: bv6, pad: nat, u: bv24, g: bv24)
    requires pad <= 2 && (pad > 0 ==> v3 == 0) && (pad > 1 ==> v2 == 0)
    requires u == Ungroup(v0, v1, v2, v3)
    requires g == Group(Octet(u, 0), if pad < 2 then Octet(u, 1) else 0, if pad < 1 then Octet(u, 2) else 0)
    ensures Sextet(g, 0) == v0 && (pad < 2 ==> Sextet(g, 1) == v1)
    ensures pad == 0 ==> Sextet(g, 2) == v2 && Sextet(g, 3) == v3
    ensures pad == 1 ==> (Sextet(g, 2) == v2 <==> v2 & 0x03 == 0)
    ensures pad == 2 ==> (Sextet(g, 1) == v1 <==> v1 & 0x0F == 0)
  {
  }

  // How many padding characters the q-th quad of t has.
  function PadOfQuad(t: seq<Byte>, q: nat): nat {
    if 4 * q + 4 == |t| then PadCount(t) else 0
  }

  lemma GroupOfDecoded(t: seq<Byte>, q: nat)
    requires WellFormed(t) && 4 * q < |t|
    ensures 4 * q + 3 < |t|
    ensures var u := UngroupAt(t, q);
            GroupAt(Decoded(t), q) == Group(Octet(u, 0), if PadOfQuad(t, q) < 2 then Octet(u, 1) else 0,
                                            if PadOfQuad(t, q) < 1 then Octet(u, 2) else 0)
  {
    hide Octet, UngroupAt, Group, IsLetter;
    var s, u := Decoded(t), UngroupAt(t, q);
    assert |t| / 4 * 4 == |t|;
    assert 3 * q / 3 == q && (3 * q + 1) / 3 == q && (3 * q + 2) / 3 == q;
    assert ByteOr0(s, 3 * q) == ByteAt(t, 3 * q) == Octet(u, 0);
    assert ByteOr0(s, 3 * q + 1) == if PadOfQuad(t, q) < 2 then ByteAt(t, 3 * q + 1) else 0;
    assert ByteOr0(s, 3 * q + 2) == if PadOfQuad(t, q) < 1 then ByteAt(t, 3 * q + 2) else 0;
  }

  lemma SextetsOfDecoded(t: seq<Byte>, q: nat)
    requires WellFormed(t) && 4 * q + 3 < |t|
    ensures var g, pad := GroupAt(Decoded(t), q), PadOfQuad(t, q);
            && Sextet(g, 0) == Value(t[4 * q]) && (pad < 2 ==> Sextet(g, 1) == Value(t[4 * q + 1]))
            && (pad == 0 ==> Sextet(g, 2) == Value(t[4 * q + 2]) && Sextet(g, 3) == Value(t[4 * q + 3]))
            && (pad == 1 ==> (Sextet(g, 2) == Value(t[4 * q + 2]) <==> Value(t[4 * q + 2]) & 0x03 == 0))
            && (pad == 2 ==> (Sextet(g, 1) == Value(t[4 * q + 1]) <==> Value(t[4 * q + 1]) & 0x0F == 0))
  {
    GroupOfDecoded(t, q);
    UngroupRoundTrip(Value(t[4 * q]), Value(t[4 * q + 1]), Value(t[4 * q + 2]), Value(t[4 * q + 3]),
                     PadOfQuad(t, q), UngroupAt(t, q), GroupAt(Decoded(t), q));
  }

  // Which sextet value re-encoding produces at k, and that it is the old one unless k holds spare bits.
  lemma SextetOfDecoded(t: seq<Byte>, k: nat)
    requires WellFormed(t) && k < |t| - PadCount(t)
    ensures var v := Sextet(GroupAt(Decoded(t), k / 4), k % 4);
            v == Value(t[k]) <==> (k == |t| - PadCount(t) - 1 ==> SpareBitsZero(t))
  {
    hide Sextet, GroupAt, Value, Decoded, IsLetter;
    var q := k / 4;
    assert |t| / 4 * 4 == |t| && k == 4 * q + k % 4;
    SextetsOfDecoded(t, q);
  }

  lemma CharOfDecoded(t: seq<Byte>, k: nat)
    requires WellFormed(t) && k < |t|
    ensures CharAt(Decoded(t), k) == t[k] <==> (k == |t| - PadCount(t) - 1 ==> SpareBitsZero(t))
  {
    assert |t| / 4 * 4 == |t| && k == 4 * (k / 4) + k % 4;
    if k < |t| - PadCount(t) {
      var v := Sextet(GroupAt(Decoded(t), k / 4), k % 4);
      assert CharAt(Decoded(t), k) == Letter(v);
      SextetOfDecoded(t, k);
      LetterValue(v);
      ValueLetter(t[k]);
    } else {
      assert CharAt(Decoded(t), k) == PAD;
    }
  }

  // Encoding a decoding gives the text back exactly when its unused bits are zero.
  lemma EncodeDecode(t: seq<Byte>)
    requires WellFormed(t)
    ensures Encoded(Decoded(t)) == t <==> SpareBitsZero(t)
  {
    var e := Encoded(Decoded(t));
    assert |t| / 4 * 4 == |t|;
    assert |e| == |t|;
    forall k | 0 <= k < |t| ensures e[k] == t[k] <==> (k == |t| - PadCount(t) - 1 ==> SpareBitsZero(t)) {
      CharOfDecoded(t, k);
    }
    if t != [] && e == t {
      assert e[|t| - PadCount(t) - 1] == t[|t| - PadCount(t) - 1];
    }
  }

  // "QR==" stands for the letter A, as "QQ==" does: its unused bits are 0001.
  lemma SpareBitsExample()
    ensures var t: seq<Byte> := [81, 82, PAD, PAD]; WellFormed(t) && Decoded(t) == [65] && Encoded(Decoded(t)) != t
  {
    var t: seq<Byte> := [81, 82, PAD, PAD];
    EncodeDecode(t);
    assert Value(81) == 16 && Value(82) == 17;
    assert Octet(Ungroup(16, 17, 0, 0), 0) == 65;
  }

  // Two vectors of section 10 of RFC 4648: "fo" is "Zm8=" and "foo" is "Zm9v".
  lemma Vectors()
    ensures Encoded([102, 111]) == [90, 109, 56, PAD] && Encoded([102, 111, 111]) == [90, 109, 57, 118]
  {
    OneGroup(102, 111, 0, 25, 38, 60, 0);
    OneGroup(102, 111, 111, 25, 38, 61, 47);
    hide Group, Sextet;
    assert GroupAt([102, 111], 0) == Group(102, 111, 0);
    assert GroupAt([102, 111, 111], 0) == Group(102, 111, 111);
  }

  lemma OneGroup(b0: Byte, b1: Byte, b2: Byte, v0: bv6, v1: bv6, v2: bv6, v3: bv6)
    requires Group(b0, b1, b2) == Ungroup(v0, v1, v2, v3)
    ensures var g := Group(b0, b1, b2); Sextet(g, 0) == v0 && Sextet(g, 1) == v1 && Sextet(g, 2) == v2 && Sextet(g, 3) == v3
  {
  }

  // ----- the encoder

  // The bits carried from one input byte to the next, after the first and the second byte of a group.
  function CarryFirst(b: Byte): Byte {
    (b << 4) & 0x30
  }

  function CarrySecond(b: Byte): Byte {
    (b << 2) & 0x3D
  }

  lemma SextetsByCarry(b0: Byte, b1: Byte, b2: Byte)
    ensures b0 >> 2 < 64 && Sextet(Group(b0, b1, b2), 0) == (b0 >> 2) as bv6
    ensures CarryFirst(b0) | (b1 >> 4) < 64 && Sextet(Group(b0, b1, b2), 1) == (CarryFirst(b0) | (b1 >> 4)) as bv6
    ensures CarrySecond(b1) | (b2 >> 6) < 64 && Sextet(Group(b0, b1, b2), 2) == (CarrySecond(b1) | (b2 >> 6)) as bv6
    ensures b2 & 0x3F < 64 && Sextet(Group(b0, b1, b2), 3) == (b2 & 0x3F) as bv6
  {
  }

  // The four characters of group q, as the encoder computes them byte by byte.
  lemma CharsByCarry(s: seq<Byte>, q: nat)
    ensures var b0, b1, b2 := ByteOr0(s, 3 * q), ByteOr0(s, 3 * q + 1), ByteOr0(s, 3 * q + 2);
            && b0 >> 2 < 64 && CarryFirst(b0) | (b1 >> 4) < 64 && CarrySecond(b1) | (b2 >> 6) < 64 && b2 & 0x3F < 64
            && CharAt(s, 4 * q) == Letter((b0 >> 2) as bv6)
            && CharAt(s, 4 * q + 1) == Letter((CarryFirst(b0) | (b1 >> 4)) as bv6)
            && CharAt(s, 4 * q + 2)
               == (if 3 * q + 1 < |s| then Letter((CarrySecond(b1) | (b2 >> 6)) as bv6) else PAD)
            && CharAt(s, 4 * q + 3) == (if 3 * q + 2 < |s| then Letter((b2 & 0x3F) as bv6) else PAD)
  {
    hide Letter, Sextet, Group, CarryFirst, CarrySecond;
    SextetsByCarry(ByteOr0(s, 3 * q), ByteOr0(s, 3 * q + 1), ByteOr0(s, 3 * q + 2));
    assert (4 * q + 1) / 4 == q && (4 * q + 2) / 4 == q && (4 * q + 3) / 4 == q;
  }

  // The bits carried into byte i, while a group is open.
  predicate Carries(s: seq<Byte>, i: nat, val: Byte)
    requires i <= |s|
  {
    && (i % 3 == 1 ==> val == CarryFirst(s[i - 1]))
    && (i % 3 == 2 ==> val == CarrySecond(s[i - 1]))
  }

  // How many characters the first i bytes complete.
  function CharsDone(i: nat): nat {
    i / 3 * 4 + i % 3
  }

  lemma EncoderStep(s: seq<Byte>, i: nat, val: Byte)
    requires i < |s| && Carries(s, i, val)
    ensures i % 3 == 0 ==> (
              && CharsDone(i + 1) == CharsDone(i) + 1 && Carries(s, i + 1, CarryFirst(s[i]))
              && s[i] >> 2 < 64 && CharAt(s, CharsDone(i)) == Letter((s[i] >> 2) as bv6))
    ensures i % 3 == 1 ==> (
              && CharsDone(i + 1) == CharsDone(i) + 1 && Carries(s, i + 1, CarrySecond(s[i]))
              && val | (s[i] >> 4) < 64 && CharAt(s, CharsDone(i)) == Letter((val | (s[i] >> 4)) as bv6))
    ensures i % 3 == 2 ==> (
              && CharsDone(i + 1) == CharsDone(i) + 2 && Carries(s, i + 1, s[i] & 0x3F)
              && val | (s[i] >> 6) < 64 && CharAt(s, CharsDone(i)) == Letter((val | (s[i] >> 6)) as bv6)
              && s[i] & 0x3F < 64 && CharAt(s, CharsDone(i) + 1) == Letter((s[i] & 0x3F) as bv6))
  {
    hide CharAt, Letter, CarryFirst, CarrySecond;
    var q := i / 3;
    assert i == 3 * q + i % 3 && CharsDone(i) == 4 * q + i % 3;
    CharsByCarry(s, q);
    if i % 3 == 0 {
      assert (i + 1) / 3 == q && ByteOr0(s, 3 * q) == s[i];
    } else if i % 3 == 1 {
      assert (i + 1) / 3 == q && ByteOr0(s, 3 * q) == s[i - 1] && ByteOr0(s, 3 * q + 1) == s[i];
    } else {
      assert (i + 1) / 3 == q + 1 && ByteOr0(s, 3 * q + 1) == s[i - 1] && ByteOr0(s, 3 * q + 2) == s[i];
    }
  }

  // The loop over the input: every completed character is in place, the open one is in `val`.
  method EncodeBytes(input: seq<Byte>, output: array<Byte>) returns (val: Byte, j: nat)
    requires EncodedLength(|input|) <= output.Length
    modifies output
    ensures j == CharsDone(|input|) && Carries(input, |input|, val)
    ensures forall k :: 0 <= k < j ==> output[k] == CharAt(input, k)
    ensures forall k :: j <= k < output.Length ==> output[k] == old(output[k])
  {
    hide CharAt, Letter, CarryFirst, CarrySecond;
    val, j := 0, 0;
    for i := 0 to |input|
      invariant j == CharsDone(i) && Carries(input, i, val)
      invariant forall k :: 0 <= k < j ==> output[k] == CharAt(input, k)
      invariant forall k :: j <= k < output.Length ==> output[k] == old(output[k])
    {
      EncoderStep(input, i, val);
      if i % 3 == 0 {
        output[j] := Letter((input[i] >> 2) as bv6);
        val, j := CarryFirst(input[i]), j + 1;
      } else if i % 3 == 1 {
        output[j] := Letter((val | (input[i] >> 4)) as bv6);
        val, j := CarrySecond(input[i]), j + 1;
      } else {
        output[j] := Letter((val | (input[i] >> 6)) as bv6);
        val := input[i] & 0x3F;
        output[j + 1], j := Letter(val as bv6), j + 2;
      }
    }
  }

  lemma LastChar(s: seq<Byte>, val: Byte)
    requires |s| % 3 != 0 && Carries(s, |s|, val)
    ensures val < 64 && CharAt(s, CharsDone(|s|)) == Letter(val as bv6)
  {
    hide CharAt, Letter, CarryFirst, CarrySecond;
    CharsByCarry(s, |s| / 3);
    assert |s| == 3 * (|s| / 3) + |s| % 3;
    CarryOrZero(val);
  }

  lemma CarryOrZero(val: Byte)
    ensures val | (0 >> 4) == val && val | (0 >> 6) == val
  {
  }

  method Encode(input: seq<Byte>, output: array<Byte>, outputLen: nat) returns (r: int)
    requires outputLen <= output.Length && (input == [] ==> output.Length > 0)
    modifies output
    ensures r == -1 <==> outputLen < EncodedLength(|input|)
    ensures r == -1 ==> output[..] == old(output[..])
    ensures r != -1 ==> r == EncodedLength(|input|) && output[..r] == Encoded(input)
    ensures r > 0 ==> output[r..] == old(output[r..])
  {
    hide CharAt, Letter, CarryFirst, CarrySecond;
    var n := |input| / 3 * 4;
    if |input| % 3 != 0 {
      n := n + 4;
    }
    if outputLen < n {
      return -1;
    }
    if |input| == 0 {
      output[0] := 0;
    }
    var val, j := EncodeBytes(input, output);
    if |input| % 3 != 0 {
      LastChar(input, val);
      output[j], j := Letter(val as bv6), j + 1;
    }
    while j < n
      invariant j <= n && forall k :: 0 <= k < j ==> output[k] == CharAt(input, k)
      invariant |input| > 0 ==> forall k :: n <= k < output.Length ==> output[k] == old(output[k])
    {
      PadChar(input, j);
      output[j], j := PAD, j + 1;
    }
    r := j;
    assert output[..r] == Encoded(input);
  }

  lemma PadChar(s: seq<Byte>, k: nat)
    requires CharsDone(|s|) + 1 <= k < EncodedLength(|s|)
    ensures CharAt(s, k) == PAD
  {
  }

  // ----- the in-place decoder

  // The bits of a byte that earlier characters of the quad supply.
  function OpenFirst(v: bv6): Byte {
    (v as bv8 << 2) & 0xFD
  }

  function OpenSecond(v: bv6): Byte {
    (v as bv8 << 4) & 0xF0
  }

  function OpenThird(v: bv6): Byte {
    (v as bv8 << 6) & 0xD0
  }

  lemma OctetsByOpen(v0: bv6, v1: bv6, v2: bv6, v3: bv6)
    ensures Octet(Ungroup(v0, v1, v2, v3), 0) == OpenFirst(v0) | (v1 as bv8 >> 4)
    ensures Octet(Ungroup(v0, v1, v2, v3), 1) == OpenSecond(v1) | (v2 as bv8 >> 2)
    ensures Octet(Ungroup(v0, v1, v2, v3), 2) == OpenThird(v2) | v3 as bv8
  {
  }

  lemma OctetsOfQuad(t: seq<Byte>, q: nat)
    ensures ByteAt(t, 3 * q) == OpenFirst(ValueOr0(t, 4 * q)) | (ValueOr0(t, 4 * q + 1) as bv8 >> 4)
    ensures ByteAt(t, 3 * q + 1) == OpenSecond(ValueOr0(t, 4 * q + 1)) | (ValueOr0(t, 4 * q + 2) as bv8 >> 2)
    ensures ByteAt(t, 3 * q + 2) == OpenThird(ValueOr0(t, 4 * q + 2)) | ValueOr0(t, 4 * q + 3) as bv8
  {
    hide Value, Octet, Ungroup, OpenFirst, OpenSecond, OpenThird;
    assert 3 * q / 3 == q && (3 * q + 1) / 3 == q && (3 * q + 2) / 3 == q;
    OctetsByOpen(ValueOr0(t, 4 * q), ValueOr0(t, 4 * q + 1), ValueOr0(t, 4 * q + 2), ValueOr0(t, 4 * q + 3));
  }

  predicate Opens(t: seq<Byte>, i: nat, val: Byte)
    requires i <= |t|
  {
    && (i % 4 == 1 ==> val == OpenFirst(Value(t[i - 1])))
    && (i % 4 == 2 ==> val == OpenSecond(Value(t[i - 1])))
    && (i % 4 == 3 ==> val == OpenThird(Value(t[i - 1])))
  }

  // How many bytes the first i characters complete; never more than i.
  function BytesDone(i: nat): (j: nat)
    ensures j <= i
  {
    i / 4 * 3 + if i % 4 == 0 then 0 else i % 4 - 1
  }

  lemma DecoderStep(t: seq<Byte>, i: nat, val: Byte)
    requires i < |t| && Opens(t, i, val)
    ensures i % 4 == 0 ==> BytesDone(i + 1) == BytesDone(i) && Opens(t, i + 1, OpenFirst(Value(t[i])))
    ensures i % 4 == 1 ==> (
              && BytesDone(i + 1) == BytesDone(i) + 1 && Opens(t, i + 1, OpenSecond(Value(t[i])))
              && ByteAt(t, BytesDone(i)) == val | (Value(t[i]) as bv8 >> 4))
    ensures i % 4 == 2 ==> (
              && BytesDone(i + 1) == BytesDone(i) + 1 && Opens(t, i + 1, OpenThird(Value(t[i])))
              && ByteAt(t, BytesDone(i)) == val | (Value(t[i]) as bv8 >> 2))
    ensures i % 4 == 3 ==> (
              && BytesDone(i + 1) == BytesDone(i) + 1 && Opens(t, i + 1, val)
              && ByteAt(t, BytesDone(i)) == val | Value(t[i]) as bv8)
  {
    hide Value, ValueOr0, ByteAt, OpenFirst, OpenSecond, OpenThird;
    var q := i / 4;
    OctetsOfQuad(t, q);
    ValueInText(t, i);
    if i % 4 == 0 {
      assert (i + 1) / 4 == q && (i + 1) % 4 == 1;
    } else {
      ValueInText(t, i - 1);
      if i % 4 == 1 {
        assert i == 4 * q + 1 && (i + 1) / 4 == q && (i + 1) % 4 == 2;
      } else if i % 4 == 2 {
        assert i == 4 * q + 2 && (i + 1) / 4 == q && (i + 1) % 4 == 3;
      } else {
        assert i == 4 * q + 3 && (i + 1) / 4 == q + 1 && (i + 1) % 4 == 0;
      }
    }
  }

  lemma ValueInText(t: seq<Byte>, k: nat)
    requires k < |t|
    ensures ValueOr0(t, k) == Value(t[k])
  {
  }

  // The loop over the text: on success every character before i is a letter and t ends at i or in padding.
  method DecodeBytes(str: array<Byte>, len: nat, ghost t: seq<Byte>) returns (ok: bool, j: nat)
    requires len <= str.Length && len % 4 == 0 && t == str[..len]
    modifies str
    ensures ok <==> WellFormed(t)
    ensures ok ==> j == DecodedLength(t) && forall m :: 0 <= m < j ==> str[m] == ByteAt(t, m)
    ensures forall k :: len <= k < str.Length ==> str[k] == old(str[k])
  {
    hide ByteAt, Value, OpenFirst, OpenSecond, OpenThird, IsLetter;
    var val: Byte, i := 0, 0;
    j := 0;
    while i < len
      invariant i <= len && j == BytesDone(i) && Opens(t, i, val)
      invariant forall k :: 0 <= k < i ==> IsLetter(t[k])
      invariant forall m :: 0 <= m < j ==> str[m] == ByteAt(t, m)
      invariant forall k :: i <= k < len ==> str[k] == t[k]
      invariant forall k :: len <= k < str.Length ==> str[k] == old(str[k])
    {
      var ch := str[i];
      if ch == PAD {
        if i < len - 2 || (i == len - 2 && str[i + 1] != PAD) {
          Misplaced(t, i);
          return false, j;
        }
        break;
      }
      if !IsLetter(ch) {
        Misplaced(t, i);
        return false, j;
      }
      DecoderStep(t, i, val);
      if i % 4 == 0 {
        val := OpenFirst(Value(ch));
      } else if i % 4 == 1 {
        str[j], j := val | (Value(ch) as bv8 >> 4), j + 1;
        val := OpenSecond(Value(ch));
      } else if i % 4 == 2 {
        str[j], j := val | (Value(ch) as bv8 >> 2), j + 1;
        val := OpenThird(Value(ch));
      } else {
        str[j], j := val | Value(ch) as bv8, j + 1;
      }
      i := i + 1;
    }
    ok := true;
    LettersThenPadding(t, i);
  }

  // A character that is no letter spoils the text, unless it is the padding at its end.
  lemma Misplaced(t: seq<Byte>, i: nat)
    requires i < |t| && (t[i] == PAD || !IsLetter(t[i]))
    requires t[i] == PAD ==> i < |t| - 2 || (i == |t| - 2 && t[i + 1] != PAD)
    ensures !WellFormed(t)
  {
  }

  lemma LettersThenPadding(t: seq<Byte>, i: nat)
    requires |t| % 4 == 0 && i <= |t| && forall k :: 0 <= k < i ==> IsLetter(t[k])
    requires i == |t| || (i >= |t| - 2 && t[i] == PAD && t[|t| - 1] == PAD)
    ensures WellFormed(t) && i == |t| - PadCount(t) && BytesDone(i) == DecodedLength(t)
  {
  }

  method Decode(str: array<Byte>, len: nat) returns (r: int)
    requires len <= str.Length
    modifies str
    ensures var t := old(str[..len]);
            if WellFormed(t) then str[..len] == Decoded(t) + seq(len - DecodedLength(t), _ => 0) && r == DecodedLength(t)
            else r == -1
    ensures str[len..] == old(str[len..])
  {
    if len % 4 != 0 {
      return -1;
    }
    ghost var t := str[..len];
    var ok, j := DecodeBytes(str, len, t);
    if !ok {
      return -1;
    }
    for i := j to len
      invariant forall m :: 0 <= m < j ==> str[m] == ByteAt(t, m)
      invariant forall k :: j <= k < i ==> str[k] == 0
      invariant forall k :: len <= k < str.Length ==> str[k] == old(str[k])
    {
      str[i] := 0;
    }
    r := j;
  }
}
