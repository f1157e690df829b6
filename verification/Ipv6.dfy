/** IPv6 addresses as text (api/oc_endpoint.c): a printer that leaves zero groups out and
    doubles one colon in its buffer, and a parser that puts the missing zeros back in place. */
module Ipv6 {
  import opened Text

  type Byte = bv8

  const GROUPS := 8
  const SIZE := 16

  // ----- hexadecimal digits

  const DIGITS := "0123456789abcdef"

  function Digit(v: Byte): char
    requires v < 16
  {
    DIGITS[v as int]
  }

  // The value that the parser reads off one character; a character that is no digit counts as its code.
  function Nibble(c: char): Byte {
    if '0' <= c <= '9' then (c as int - '0' as int) as bv8
    else if 'a' <= c <= 'f' then (c as int - 'a' as int + 10) as bv8
    else if 'A' <= c <= 'F' then (c as int - 'A' as int + 10) as bv8
    else (c as int % 256) as bv8
  }

  function OneDigit(c: char): Byte {
    Nibble(c)
  }

  function TwoDigits(c: char, d: char): Byte {
    (Nibble(c) << 4) | Nibble(d)
  }

  function Two(b: Byte): string {
    [Digit(b >> 4), Digit(b & 0xF)]
  }

  lemma DigitValue(v: Byte)
    requires v < 16
    ensures Nibble(Digit(v)) == v && Digit(v) != ':' && Digit(v) != ']' && Digit(v) != '/'
  {
    var i := v as int;
    assert DIGITS[i] == (if i < 10 then ('0' as int + i) as char else ('a' as int + i - 10) as char);
  }

  lemma Halves(b: Byte)
    ensures b >> 4 < 16 && b & 0xF < 16 && ((b >> 4) << 4) | (b & 0xF) == b
    ensures b < 16 ==> b >> 4 == 0 && b & 0xF == b
  {
  }

  lemma TwoValue(b: Byte)
    ensures TwoDigits(Two(b)[0], Two(b)[1]) == b && Two(b)[0] != ':' && Two(b)[1] != ':'
  {
    Halves(b);
    DigitValue(b >> 4);
    DigitValue(b & 0xF);
  }

  // ----- groups of two bytes

  predicate Zero(a: seq<Byte>, g: nat)
    requires |a| == SIZE && g < GROUPS
  {
    a[2 * g] == 0 && a[2 * g + 1] == 0
  }

  // One to four digits, without leading zeros.
  function GroupText(h: Byte, l: Byte): (t: string)
    ensures 1 <= |t| <= 4
  {
    if h == 0 then (if l < 16 then [Digit(l)] else Two(l))
    else (if h < 16 then [Digit(h)] else Two(h)) + Two(l)
  }

  // What one group contributes: nothing when it is zero.
  function Piece(a: seq<Byte>, g: nat): (t: string)
    requires |a| == SIZE && g < GROUPS
    ensures |t| <= 5
  {
    if Zero(a, g) then "" else (if g > 0 then ":" else "") + GroupText(a[2 * g], a[2 * g + 1])
  }

  // The groups before number g.
  function Before(a: seq<Byte>, g: nat): (t: string)
    requires |a| == SIZE && g <= GROUPS
    ensures |t| <= 5 * g
  {
    if g == 0 then "" else Before(a, g - 1) + Piece(a, g - 1)
  }

  // The groups from number g on, and a colon when the last one is zero.
  function After(a: seq<Byte>, g: nat): string
    requires |a| == SIZE && g <= GROUPS
    decreases GROUPS - g
  {
    if g == GROUPS then (if Zero(a, GROUPS - 1) then ":" else "") else Piece(a, g) + After(a, g + 1)
  }

  // ----- runs of zero groups

  // How many zero groups end just before group e.
  function RunBefore(a: seq<Byte>, e: nat): (n: nat)
    requires |a| == SIZE && e <= GROUPS
    ensures n <= e
  {
    if e == 0 || !Zero(a, e - 1) then 0 else 1 + RunBefore(a, e - 1)
  }

  // The first of the longest runs ends at e.
  predicate LongestEndsAt(a: seq<Byte>, e: nat)
    requires |a| == SIZE
  {
    && e <= GROUPS && RunBefore(a, e) > 0
    && forall d :: 0 <= d <= GROUPS ==> RunBefore(a, d) <= RunBefore(a, e) && (d < e ==> RunBefore(a, d) < RunBefore(a, e))
  }

  predicate NoZero(a: seq<Byte>)
    requires |a| == SIZE
  {
    forall g :: 0 <= g < GROUPS ==> !Zero(a, g)
  }

  // The text with the zero groups before e as "::".
  function Shortened(a: seq<Byte>, e: nat): string
    requires |a| == SIZE && e <= GROUPS
  {
    var m := e - RunBefore(a, e);
    Before(a, m) + ":" + After(a, m)
  }

  // The text of an address: its longest run of zero groups, the first if there are several, becomes "::".
  ghost predicate IsText(a: seq<Byte>, t: string)
    requires |a| == SIZE
  {
    if NoZero(a) then t == After(a, 0)
    else exists e: nat :: e <= GROUPS && LongestEndsAt(a, e) && t == Shortened(a, e)
  }

  const LOCAL: seq<Byte> := [0xfe, 0x80, 0, 0, 0, 0, 0, 0, 0, 0, 0, 0, 2, 0x0f, 0, 0xab]

  lemma LocalRuns()
    ensures LongestEndsAt(LOCAL, 6) && RunBefore(LOCAL, 6) == 5 && !NoZero(LOCAL)
    ensures forall e: nat :: e <= GROUPS && LongestEndsAt(LOCAL, e) ==> e == 6
  {
    assert RunBefore(LOCAL, 0) == 0 && RunBefore(LOCAL, 1) == 0;
    assert RunBefore(LOCAL, 2) == 1 && RunBefore(LOCAL, 3) == 2 && RunBefore(LOCAL, 4) == 3;
    assert RunBefore(LOCAL, 5) == 4 && RunBefore(LOCAL, 6) == 5;
    assert RunBefore(LOCAL, 7) == 0 && RunBefore(LOCAL, 8) == 0;
    assert Zero(LOCAL, 1);
  }

  lemma LocalGroups()
    ensures GroupText(0xfe, 0x80) == "fe80" && GroupText(2, 0x0f) == "20f" && GroupText(0, 0xab) == "ab"
  {
    assert (0xfe as Byte) >> 4 == 15 && (0xfe as Byte) & 0xF == 14 && (0x80 as Byte) >> 4 == 8 && (0x80 as Byte) & 0xF == 0;
    assert (0x0f as Byte) >> 4 == 0 && (0x0f as Byte) & 0xF == 15 && (0xab as Byte) >> 4 == 10 && (0xab as Byte) & 0xF == 11;
    assert Two(0xfe) == "fe" && Two(0x80) == "80" && Two(0x0f) == "0f" && Two(0xab) == "ab" && Digit(2) == '2';
  }

  lemma LocalPieces()
    ensures Piece(LOCAL, 0) == "fe80" && Piece(LOCAL, 6) == ":20f" && Piece(LOCAL, 7) == ":ab" && !Zero(LOCAL, 7)
    ensures forall g :: 1 <= g < 6 ==> Piece(LOCAL, g) == ""
  {
    hide GroupText;
    LocalGroups();
  }

  lemma OneRunText(a: seq<Byte>, e: nat, t: string)
    requires |a| == SIZE && !NoZero(a) && e <= GROUPS && LongestEndsAt(a, e)
    requires forall d: nat :: d <= GROUPS && LongestEndsAt(a, d) ==> d == e
    ensures IsText(a, t) <==> t == Shortened(a, e)
  {
    hide NoZero, LongestEndsAt, Shortened;
  }

  lemma ThreeGroups(a: seq<Byte>, x: string, y: string, z: string)
    requires |a| == SIZE && Piece(a, 0) == x && Piece(a, 6) == y && Piece(a, 7) == z && !Zero(a, 7) && RunBefore(a, 6) == 5
    requires forall g :: 1 <= g < 6 ==> Piece(a, g) == ""
    ensures Shortened(a, 6) == x + ":" + (y + z)
  {
    hide Piece, Zero, RunBefore;
    assert Before(a, 0) == "" && "" + x == x;
    assert After(a, 8) == "" && z + "" == z;
    assert After(a, 6) == y + z;
    assert forall g :: 1 <= g < 6 ==> Piece(a, g) + After(a, g + 1) == After(a, g + 1);
    assert After(a, 3) == y + z;
  }

  // One address spelt out: digits, their order, and what is left out.
  lemma LocalText(t: string)
    ensures IsText(LOCAL, t) <==> t == "fe80::20f:ab"
  {
    assert |LOCAL| == SIZE;
    LocalRuns();
    LocalPieces();
    hide *;
    ThreeGroups(LOCAL, "fe80", ":20f", ":ab");
    OneRunText(LOCAL, 6, t);
    assert "fe80" + ":" + (":20f" + ":ab") == "fe80::20f:ab";
  }

  // ----- reading

  datatype Parsed = Stuck | Done(out: seq<Byte>, split: int)

  predicate StartsDouble(s: string) {
    |s| >= 2 && s[0] == ':' && s[1] == ':'
  }

  // The bytes of a segment of one to four characters.
  function Segment(s: string): (b: seq<Byte>)
    requires 1 <= |s| <= 4
    ensures |b| == 2
  {
    if |s| == 4 then [TwoDigits(s[0], s[1]), TwoDigits(s[2], s[3])]
    else if |s| == 3 then [OneDigit(s[0]), TwoDigits(s[1], s[2])]
    else if |s| == 2 then [0, TwoDigits(s[0], s[1])]
    else [0, OneDigit(s[0])]
  }

  // The bytes read from the rest of a text, and where the first "::" was met. On a longer
  // segment the source makes no progress: its loop does not end.
  function Parse(s: string, out: seq<Byte>, split: int): Parsed
    decreases |s|
  {
    if |out| >= SIZE - 1 || s == "" then Done(out, split)
    else
      var double := split == -1 && StartsDouble(s);
      var rest := if double then s[2..] else s;
      var at := if double then |out| else split;
      var n := Index(rest, ':');
      if n > 4 then Stuck
      else if n > 0 then Parse(rest[n..], out + Segment(rest[..n]), at)
      else if rest == "" then Done(out, at)
      else Parse(rest[1..], out, at)
  }

  // ----- texts on which the source does not come to an end

  // What stands between the colons, empty stretches left out.
  function Segments(s: string): (r: seq<string>)
    ensures forall i :: 0 <= i < |r| ==> |r[i]| > 0
    decreases |s|
  {
    if s == "" then []
    else
      var n := Index(s, ':');
      if n == 0 then Segments(s[1..]) else [s[..n]] + Segments(s[n..])
  }

  // One of the first `rooms` segments has more than four characters.
  predicate TooLong(segments: seq<string>, rooms: nat) {
    exists i :: 0 <= i < rooms && i < |segments| && |segments[i]| > 4
  }

  lemma TooLongFirst(x: string, segments: seq<string>, rooms: nat)
    requires rooms > 0
    ensures TooLong([x] + segments, rooms) <==> |x| > 4 || TooLong(segments, rooms - 1)
  {
    var all := [x] + segments;
    assert forall i :: 0 <= i < |segments| ==> all[i + 1] == segments[i];
    if TooLong(all, rooms) && |x| <= 4 {
      var i :| 0 <= i < rooms && i < |all| && |all[i]| > 4;
      assert |segments[i - 1]| > 4;
    }
    if |x| > 4 {
      assert |all[0]| > 4;
    }
    if TooLong(segments, rooms - 1) {
      var i :| 0 <= i < rooms - 1 && i < |segments| && |segments[i]| > 4;
      assert |all[i + 1]| > 4;
    }
  }

  lemma SegmentsUnfold(s: string)
    ensures var n := Index(s, ':');
            Segments(s) == if s == "" then [] else if n == 0 then Segments(s[1..]) else [s[..n]] + Segments(s[n..])
    ensures StartsDouble(s) ==> Segments(s) == Segments(s[2..])
  {
    if StartsDouble(s) {
      assert s[1..][1..] == s[2..];
    }
  }

  // Reading stands still exactly when a segment of more than four characters comes before
  // the address is full.
  lemma {:induction false} StuckExactly(s: string, out: seq<Byte>, split: int)
    requires |out| % 2 == 0 && |out| <= SIZE
    ensures Parse(s, out, split) == Stuck <==> TooLong(Segments(s), (SIZE - |out|) / 2)
    decreases |s|
  {
    SegmentsUnfold(s);
    if |out| < SIZE - 1 && s != "" {
      ParseUnfolds(s, out, split);
      var double := split == -1 && StartsDouble(s);
      var rest := if double then s[2..] else s;
      var at := if double then |out| else split;
      var n := Index(rest, ':');
      SegmentsUnfold(rest);
      hide Index, Segment, Parse, Segments, StartsDouble, TooLong;
      if n > 0 {
        TooLongFirst(rest[..n], Segments(rest[n..]), (SIZE - |out|) / 2);
        if n <= 4 {
          StuckExactly(rest[n..], out + Segment(rest[..n]), at);
        }
      } else if rest != "" {
        StuckExactly(rest[1..], out, at);
      } else {
        NoSegments((SIZE - |out|) / 2);
      }
    }
  }

  lemma NoSegments(rooms: nat)
    ensures !TooLong([], rooms)
  {
  }

  // Five digits in a row are enough.
  lemma StuckExample()
    ensures Parse("12345", [], -1) == Stuck
  {
    StuckExactly("12345", [], -1);
    IndexIs("12345", "");
    assert "12345" + "" == "12345";
    assert |Segments("12345")[0]| == 5;
  }

  function Zeros(n: nat): (z: seq<Byte>)
    ensures |z| == n
  {
    seq(n, _ => 0)
  }

  // The bytes behind the "::" move to the end. When there is no room between, they are cleared instead.
  function Expand(out: seq<Byte>, split: int): (a: seq<Byte>)
    requires |out| <= SIZE && -1 <= split <= |out|
    ensures |a| == SIZE
  {
    if split == -1 then out + Zeros(SIZE - |out|)
    else if |out| == SIZE then out[..split] + Zeros(SIZE - split)
    else out[..split] + Zeros(SIZE - |out|) + out[split..]
  }

  lemma {:induction false} ParseShape(s: string, out: seq<Byte>, split: int)
    requires |out| % 2 == 0 && |out| <= SIZE && -1 <= split <= |out|
    ensures var p := Parse(s, out, split); p.Done? ==> |p.out| <= SIZE && |p.out| % 2 == 0 && -1 <= p.split <= |p.out|
    decreases |s|
  {
    if |out| < SIZE - 1 && s != "" {
      var double := split == -1 && StartsDouble(s);
      var rest := if double then s[2..] else s;
      var at := if double then |out| else split;
      var n := Index(rest, ':');
      hide Index, Segment;
      if 0 < n <= 4 {
        ParseShape(rest[n..], out + Segment(rest[..n]), at);
      } else if n == 0 && rest != "" {
        ParseShape(rest[1..], out, at);
      }
    }
  }

  // ----- reading what was printed

  // The bytes of the non-zero groups from g up to, and not including, h.
  function Kept(a: seq<Byte>, g: nat, h: nat): (b: seq<Byte>)
    requires |a| == SIZE && g <= h <= GROUPS
    ensures |b| <= 2 * (h - g)
    decreases h - g
  {
    if g == h then [] else (if Zero(a, g) then [] else a[2 * g..2 * g + 2]) + Kept(a, g + 1, h)
  }

  lemma GroupReads(h: Byte, l: Byte)
    requires h != 0 || l != 0
    ensures Segment(GroupText(h, l)) == [h, l]
    ensures forall i :: 0 <= i < |GroupText(h, l)| ==> GroupText(h, l)[i] != ':'
  {
    TwoValue(l);
    TwoValue(h);
    if h < 16 {
      DigitValue(h);
    }
    if l < 16 {
      DigitValue(l);
    }
  }

  lemma IndexIs(t: string, rest: string)
    requires forall i :: 0 <= i < |t| ==> t[i] != ':'
    requires rest == "" || rest[0] == ':'
    ensures Index(t + rest, ':') == |t|
  {
    var s := t + rest;
    var k := Index(s, ':');
    assert rest != "" ==> s[|t|] == ':';
    assert forall i :: 0 <= i < |t| ==> s[i] == t[i];
  }

  // A group at the front is read as its two bytes.
  lemma ParseGroup(h: Byte, l: Byte, rest: string, out: seq<Byte>, split: int)
    requires (h != 0 || l != 0) && |out| < SIZE - 1 && (rest == "" || rest[0] == ':')
    ensures Parse(GroupText(h, l) + rest, out, split) == Parse(rest, out + [h, l], split)
  {
    var t := GroupText(h, l);
    GroupReads(h, l);
    hide GroupText, Index, Segment;
    IndexIs(t, rest);
    var s := t + rest;
    assert s[0] == t[0] && s[..|t|] == t && s[|t|..] == rest;
    ParseUnfolds(s, out, split);
  }

  // A single colon at the front is passed over.
  lemma ParseColon(rest: string, out: seq<Byte>, split: int)
    requires |out| < SIZE - 1 && (split != -1 || rest == "" || rest[0] != ':')
    ensures Parse(":" + rest, out, split) == Parse(rest, out, split)
  {
    hide Index, Segment;
    var s := ":" + rest;
    assert s[1..] == rest;
    IndexIs("", s);
    assert "" + s == s;
    ParseUnfolds(s, out, split);
  }

  // The first double colon marks the place of the missing zeros.
  lemma ParseDouble(rest: string, out: seq<Byte>)
    requires |out| < SIZE - 1
    ensures Parse("::" + rest, out, -1) == Parse(rest, out, |out|)
  {
    hide Index, Segment;
    var s := "::" + rest;
    assert s[2..] == rest && s[0] == ':' && s[1] == ':';
    ParseUnfolds(s, out, -1);
    if rest != "" {
      ParseUnfolds(rest, out, |out|);
    } else {
      IndexIs("", "");
      assert "" + "" == "";
    }
  }

  lemma ParseUnfolds(s: string, out: seq<Byte>, split: int)
    requires |out| < SIZE - 1 && s != ""
    ensures var double := split == -1 && StartsDouble(s);
            var rest := if double then s[2..] else s;
            var at := if double then |out| else split;
            var n := Index(rest, ':');
            Parse(s, out, split) ==
            (if n > 4 then Stuck
             else if n > 0 then Parse(rest[n..], out + Segment(rest[..n]), at)
             else if rest == "" then Done(out, at)
             else Parse(rest[1..], out, at))
  {
    hide Index, Segment;
  }

  lemma AfterStart(a: seq<Byte>, g: nat)
    requires |a| == SIZE && 1 <= g <= GROUPS
    ensures After(a, g) == "" || After(a, g)[0] == ':'
    ensures g < GROUPS && Zero(a, GROUPS - 1) ==> After(a, g) != ""
    decreases GROUPS - g
  {
    if g < GROUPS {
      AfterStart(a, g + 1);
    }
  }

  lemma TextStart(h: Byte, l: Byte, rest: string)
    requires h != 0 || l != 0
    ensures (GroupText(h, l) + rest)[0] != ':'
  {
    GroupReads(h, l);
  }

  // One group in front of a text: its colon and its digits are read as its two bytes.
  lemma ParsePiece(a: seq<Byte>, g: nat, rest: string, out: seq<Byte>, split: int)
    requires |a| == SIZE && g < GROUPS && |out| < SIZE - 1 && (rest == "" || rest[0] == ':')
    ensures Parse(Piece(a, g) + rest, out, split)
         == Parse(rest, out + if Zero(a, g) then [] else a[2 * g..2 * g + 2], split)
  {
    hide GroupText, Parse;
    if Zero(a, g) {
      assert "" + rest == rest && out + [] == out;
    } else {
      var h, l := a[2 * g], a[2 * g + 1];
      var t := GroupText(h, l);
      assert a[2 * g..2 * g + 2] == [h, l];
      TextStart(h, l, rest);
      ParseGroup(h, l, rest, out, split);
      if g > 0 {
        assert Piece(a, g) + rest == ":" + (t + rest);
        ParseColon(t + rest, out, split);
      } else {
        assert Piece(a, g) + rest == t + rest;
      }
    }
  }

  lemma Associates<T>(a: seq<T>, b: seq<T>, c: seq<T>)
    ensures (a + b) + c == a + (b + c)
  {
  }

  lemma ParseEnd(a: seq<Byte>, out: seq<Byte>, split: int)
    requires |a| == SIZE
    ensures Parse(After(a, GROUPS), out, split) == Done(out, split)
  {
    if |out| < SIZE - 1 && Zero(a, GROUPS - 1) {
      ParseColon("", out, split);
      assert ":" + "" == ":";
    }
  }

  lemma Unfolds(a: seq<Byte>, g: nat)
    requires |a| == SIZE && g < GROUPS
    ensures After(a, g) == Piece(a, g) + After(a, g + 1)
    ensures Kept(a, g, GROUPS) == (if Zero(a, g) then [] else a[2 * g..2 * g + 2]) + Kept(a, g + 1, GROUPS)
  {
  }

  lemma {:induction false} ParseAfter(a: seq<Byte>, g: nat, out: seq<Byte>, split: int)
    requires |a| == SIZE && g <= GROUPS && |out| <= 2 * g
    ensures Parse(After(a, g), out, split) == Done(out + Kept(a, g, GROUPS), split)
    decreases GROUPS - g
  {
    if g == GROUPS {
      ParseEnd(a, out, split);
      assert Kept(a, g, GROUPS) == [] && out + [] == out;
    } else {
      Unfolds(a, g);
      AfterStart(a, g + 1);
      hide Parse, Piece, After, Kept, Zero;
      ParsePiece(a, g, After(a, g + 1), out, split);
      var one := if Zero(a, g) then [] else a[2 * g..2 * g + 2];
      ParseAfter(a, g + 1, out + one, split);
      Associates(out, one, Kept(a, g + 1, GROUPS));
    }
  }

  // The groups from g up to, and not including, m.
  function Between(a: seq<Byte>, g: nat, m: nat): string
    requires |a| == SIZE && g <= m <= GROUPS
    decreases m - g
  {
    if g == m then "" else Piece(a, g) + Between(a, g + 1, m)
  }

  lemma {:induction false} BetweenOneMore(a: seq<Byte>, g: nat, m: nat)
    requires |a| == SIZE && g <= m < GROUPS
    ensures Between(a, g, m + 1) == Between(a, g, m) + Piece(a, m)
    decreases m - g
  {
    hide Piece, Zero;
    if g < m {
      BetweenOneMore(a, g + 1, m);
      Associates(Piece(a, g), Between(a, g + 1, m), Piece(a, m));
    } else {
      BetweenOne(a, m);
    }
  }

  lemma BetweenOne(a: seq<Byte>, m: nat)
    requires |a| == SIZE && m < GROUPS
    ensures Between(a, m, m) == "" && Between(a, m, m + 1) == Piece(a, m) == "" + Piece(a, m)
  {
    hide Piece;
    assert Between(a, m + 1, m + 1) == "";
    assert Piece(a, m) + "" == Piece(a, m);
  }

  lemma {:induction false} BeforeIsBetween(a: seq<Byte>, m: nat)
    requires |a| == SIZE && m <= GROUPS
    ensures Before(a, m) == Between(a, 0, m)
  {
    hide Piece;
    if m > 0 {
      BeforeIsBetween(a, m - 1);
      BetweenOneMore(a, 0, m - 1);
    }
  }

  lemma BetweenStart(a: seq<Byte>, g: nat, m: nat, rest: string)
    requires |a| == SIZE && 1 <= g <= m <= GROUPS
    ensures (Between(a, g, m) + ":" + rest)[0] == ':'
    decreases m - g
  {
    if g < m && Zero(a, g) {
      BetweenStart(a, g + 1, m, rest);
      assert Between(a, g, m) == Between(a, g + 1, m);
    }
  }

  lemma {:induction false} ParseBetween(a: seq<Byte>, g: nat, m: nat, out: seq<Byte>)
    requires |a| == SIZE && g <= m < GROUPS && Zero(a, m) && |out| <= 2 * g
    ensures Parse(Between(a, g, m) + ":" + After(a, m), out, -1)
         == Done(out + Kept(a, g, m) + Kept(a, m, GROUPS), |out + Kept(a, g, m)|)
    decreases m - g
  {
    hide Parse, Piece;
    if g == m {
      var rest := After(a, m);
      AfterIsColon(a, m);
      assert "" + ":" + rest == "::" + rest[1..];
      ParseDouble(rest[1..], out);
      ParseColon(rest[1..], out, |out|);
      assert ":" + rest[1..] == rest;
      ParseAfter(a, m, out, |out|);
      assert out + [] == out;
    } else {
      var one := if Zero(a, g) then [] else a[2 * g..2 * g + 2];
      var rest := Between(a, g + 1, m) + ":" + After(a, m);
      BetweenStart(a, g + 1, m, After(a, m));
      assert Between(a, g, m) + ":" + After(a, m) == Piece(a, g) + rest;
      ParsePiece(a, g, rest, out, -1);
      ParseBetween(a, g + 1, m, out + one);
      Associates(out, one, Kept(a, g + 1, m));
    }
  }

  lemma ColonInFront(a: seq<Byte>, g: nat)
    requires |a| == SIZE && g <= GROUPS
    ensures g == GROUPS && Zero(a, GROUPS - 1) ==> After(a, g) == ":"
    ensures 0 < g < GROUPS && !Zero(a, g) ==> Piece(a, g) != "" && Piece(a, g)[0] == ':'
    ensures g < GROUPS && Zero(a, g) ==> Piece(a, g) == ""
  {
  }

  lemma AfterIsColon(a: seq<Byte>, m: nat)
    requires |a| == SIZE && m < GROUPS && Zero(a, m)
    ensures After(a, m) != "" && After(a, m)[0] == ':'
    decreases GROUPS - m
  {
    hide After, Piece, Kept, Zero;
    Unfolds(a, m);
    ColonInFront(a, m);
    ColonInFront(a, m + 1);
    assert "" + After(a, m + 1) == After(a, m + 1);
    if m + 1 < GROUPS {
      Unfolds(a, m + 1);
      if Zero(a, m + 1) {
        AfterIsColon(a, m + 1);
      }
    }
  }

  // ----- the round trip

  // The zero groups lie together.
  predicate OneRun(a: seq<Byte>)
    requires |a| == SIZE
  {
    forall i, j, k :: 0 <= i < j < k < GROUPS && Zero(a, i) && Zero(a, k) ==> Zero(a, j)
  }

  predicate ZeroPair(b: seq<Byte>, i: nat)
    requires 2 * i + 1 < |b|
  {
    b[2 * i] == 0 && b[2 * i + 1] == 0
  }

  lemma KeptUnfolds(a: seq<Byte>, g: nat, h: nat)
    requires |a| == SIZE && g < h <= GROUPS
    ensures Zero(a, g) ==> Kept(a, g, h) == Kept(a, g + 1, h)
    ensures !Zero(a, g) ==> Kept(a, g, h) == a[2 * g..2 * g + 2] + Kept(a, g + 1, h)
    ensures !Zero(a, g) ==> !ZeroPair(a[2 * g..2 * g + 2], 0)
  {
  }

  lemma {:induction false} KeptOfNonZero(a: seq<Byte>, g: nat, h: nat)
    requires |a| == SIZE && g <= h <= GROUPS && forall i :: g <= i < h ==> !Zero(a, i)
    ensures Kept(a, g, h) == a[2 * g..2 * h]
    decreases h - g
  {
    if g < h {
      assert !Zero(a, g);
      KeptUnfolds(a, g, h);
      hide Kept, Zero;
      KeptOfNonZero(a, g + 1, h);
      assert a[2 * g..2 * g + 2] + a[2 * g + 2..2 * h] == a[2 * g..2 * h];
    }
  }

  lemma {:induction false} KeptOfZero(a: seq<Byte>, g: nat, m: nat, h: nat)
    requires |a| == SIZE && g <= m <= h <= GROUPS && forall i :: g <= i < m ==> Zero(a, i)
    ensures Kept(a, g, h) == Kept(a, m, h)
    decreases m - g
  {
    hide Kept, Zero;
    if g < m {
      assert Zero(a, g);
      KeptUnfolds(a, g, h);
      KeptOfZero(a, g + 1, m, h);
    }
  }

  ghost predicate NoZeroPair(b: seq<Byte>) {
    |b| % 2 == 0 && forall i: nat :: 2 * i + 1 < |b| ==> !ZeroPair(b, i)
  }

  lemma PairInFront(pair: seq<Byte>, rest: seq<Byte>)
    requires |pair| == 2 && !ZeroPair(pair, 0) && NoZeroPair(rest)
    ensures NoZeroPair(pair + rest)
  {
    var b := pair + rest;
    forall i: nat | 2 * i + 1 < |b| ensures !ZeroPair(b, i) {
      if i > 0 {
        assert b[2 * i] == rest[2 * (i - 1)] && b[2 * i + 1] == rest[2 * (i - 1) + 1];
        assert !ZeroPair(rest, i - 1);
      }
    }
  }

  // No group among the kept ones is zero.
  lemma {:induction false} KeptIsNonZero(a: seq<Byte>, g: nat, h: nat)
    requires |a| == SIZE && g <= h <= GROUPS
    ensures NoZeroPair(Kept(a, g, h))
    decreases h - g
  {
    if g < h {
      KeptUnfolds(a, g, h);
      hide *;
      KeptIsNonZero(a, g + 1, h);
      if !Zero(a, g) {
        PairInFront(a[2 * g..2 * g + 2], Kept(a, g + 1, h));
      }
    }
  }

  lemma {:induction false} KeptIsShort(a: seq<Byte>, g: nat, h: nat, z: nat)
    requires |a| == SIZE && g <= z < h <= GROUPS && Zero(a, z)
    ensures |Kept(a, g, h)| <= 2 * (h - g) - 2
    decreases h - g
  {
    if g < z {
      KeptIsShort(a, g + 1, h, z);
    }
  }

  // What an address becomes when its kept groups are spread around one gap at m.
  function Spread(a: seq<Byte>, m: nat): (b: seq<Byte>)
    requires |a| == SIZE && m <= GROUPS
    ensures |b| == SIZE
  {
    Kept(a, 0, m) + Zeros(SIZE - |Kept(a, 0, m)| - |Kept(a, m, GROUPS)|) + Kept(a, m, GROUPS)
  }

  // Group i of left, a gap, and right, all of whole groups.
  lemma GroupOf(left: seq<Byte>, right: seq<Byte>, from: nat, to: nat, i: nat)
    requires |left| == 2 * from && |right| == 2 * (GROUPS - to) && from <= to <= GROUPS && i < GROUPS
    ensures var b := left + Zeros(2 * (to - from)) + right;
            && |b| == SIZE
            && (i < from ==> b[2 * i] == left[2 * i] && b[2 * i + 1] == left[2 * i + 1])
            && (from <= i < to ==> b[2 * i] == 0 && b[2 * i + 1] == 0)
            && (i >= to ==> b[2 * i] == right[2 * (i - to)] && b[2 * i + 1] == right[2 * (i - to) + 1])
  {
  }

  lemma SpreadIsOneRun(a: seq<Byte>, m: nat)
    requires |a| == SIZE && m <= GROUPS
    ensures OneRun(Spread(a, m))
  {
    hide Kept, Spread, Zeros, Zero, NoZeroPair;
    KeptIsNonZero(a, 0, m);
    KeptIsNonZero(a, m, GROUPS);
    SpreadIs(a, m);
    ApartIsOneRun(Kept(a, 0, m), Kept(a, m, GROUPS));
  }

  lemma SpreadIs(a: seq<Byte>, m: nat)
    requires |a| == SIZE && m <= GROUPS
    ensures Spread(a, m) == Apart(Kept(a, 0, m), Kept(a, m, GROUPS))
  {
    hide Kept;
  }

  function Apart(left: seq<Byte>, right: seq<Byte>): (b: seq<Byte>)
    requires |left| + |right| <= SIZE
    ensures |b| == SIZE
  {
    left + Zeros(SIZE - |left| - |right|) + right
  }

  lemma ApartIsOneRun(left: seq<Byte>, right: seq<Byte>)
    requires |left| + |right| <= SIZE && NoZeroPair(left) && NoZeroPair(right)
    ensures OneRun(Apart(left, right))
  {
    var b, from, to := Apart(left, right), |left| / 2, GROUPS - |right| / 2;
    assert b == left + Zeros(2 * (to - from)) + right;
    hide Apart, Zeros;
    forall i | 0 <= i < GROUPS ensures Zero(b, i) <==> from <= i < to {
      GroupOf(left, right, from, to, i);
      if i < from {
        assert !ZeroPair(left, i);
      } else if i >= to {
        assert !ZeroPair(right, i - to);
      }
    }
    hide Zero;
  }

  // The run that ends at e starts where the zeros before e start.
  lemma {:induction false} RunIsZero(a: seq<Byte>, e: nat)
    requires |a| == SIZE && e <= GROUPS
    ensures var m := e - RunBefore(a, e);
            (forall i :: m <= i < e ==> Zero(a, i)) && (m > 0 ==> !Zero(a, m - 1))
    decreases e
  {
    if e > 0 && Zero(a, e - 1) {
      RunIsZero(a, e - 1);
    }
  }

  lemma RunGrows(a: seq<Byte>, e: nat)
    requires |a| == SIZE && e < GROUPS
    ensures Zero(a, e) ==> RunBefore(a, e + 1) == 1 + RunBefore(a, e)
  {
  }

  lemma LongestIsWhole(a: seq<Byte>, e: nat)
    requires |a| == SIZE && LongestEndsAt(a, e)
    ensures e < GROUPS ==> !Zero(a, e)
  {
    if e < GROUPS {
      RunGrows(a, e);
      hide RunBefore;
    }
  }

  lemma OnlyRun(a: seq<Byte>, m: nat, e: nat)
    requires |a| == SIZE && m < e <= GROUPS && OneRun(a) && Zero(a, m) && Zero(a, e - 1)
    requires (m > 0 ==> !Zero(a, m - 1)) && (e < GROUPS ==> !Zero(a, e))
    ensures forall i :: 0 <= i < m || e <= i < GROUPS ==> !Zero(a, i)
  {
    hide Zero, OneRun;
    forall i | 0 <= i < m || e <= i < GROUPS ensures !Zero(a, i) {
      if i < m - 1 && Zero(a, i) {
        Together(a, i, m - 1, m);
      } else if i > e && Zero(a, i) {
        Together(a, e - 1, e, i);
      }
    }
  }

  lemma Together(a: seq<Byte>, i: nat, j: nat, k: nat)
    requires |a| == SIZE && OneRun(a) && i < j < k < GROUPS && Zero(a, i) && Zero(a, k)
    ensures Zero(a, j)
  {
  }

  lemma OneRunSpreads(a: seq<Byte>, m: nat, e: nat)
    requires |a| == SIZE && m < e <= GROUPS && (forall i :: m <= i < e ==> Zero(a, i))
    requires forall i :: 0 <= i < m || e <= i < GROUPS ==> !Zero(a, i)
    ensures Spread(a, m) == a
  {
    hide Kept, Zero, Zeros, Spread, Apart;
    KeptOfNonZero(a, 0, m);
    KeptOfZero(a, m, e, GROUPS);
    KeptOfNonZero(a, e, GROUPS);
    SpreadIs(a, m);
    GapIsZero(a, m, e);
    CutInThree(a, m, e);
  }

  lemma CutInThree(a: seq<Byte>, m: nat, e: nat)
    requires |a| == SIZE && m < e <= GROUPS && a[2 * m..2 * e] == Zeros(2 * (e - m))
    ensures Apart(a[2 * 0..2 * m], a[2 * e..2 * GROUPS]) == a
  {
    hide Zeros;
    assert a[2 * 0..2 * m] == a[..2 * m] && a[2 * e..2 * GROUPS] == a[2 * e..];
    assert a == a[..2 * m] + a[2 * m..2 * e] + a[2 * e..];
  }

  lemma GapIsZero(a: seq<Byte>, m: nat, e: nat)
    requires |a| == SIZE && m < e <= GROUPS && forall i :: m <= i < e ==> Zero(a, i)
    ensures a[2 * m..2 * e] == Zeros(2 * (e - m))
  {
    var gap := a[2 * m..2 * e];
    forall i | 0 <= i < |gap| ensures gap[i] == 0 {
      assert Zero(a, m + i / 2);
    }
  }

  lemma SpreadRestores(a: seq<Byte>, e: nat)
    requires |a| == SIZE && LongestEndsAt(a, e)
    ensures Spread(a, e - RunBefore(a, e)) == a <==> OneRun(a)
  {
    var m := e - RunBefore(a, e);
    RunIsZero(a, e);
    LongestIsWhole(a, e);
    RunOf(a, e);
    SpreadIsOneRun(a, m);
    hide Spread, Zero, LongestEndsAt, RunBefore;
    if OneRun(a) {
      OnlyRun(a, m, e);
      OneRunSpreads(a, m, e);
    }
  }

  // Reading a printed address always ends, and gives the address back exactly when its
  // zero groups lie together.
  lemma RoundTrip(a: seq<Byte>, t: string)
    requires |a| == SIZE && IsText(a, t)
    ensures var p := Parse(t, [], -1);
            && p.Done? && |p.out| <= SIZE && -1 <= p.split <= |p.out|
            && (Expand(p.out, p.split) == a <==> OneRun(a))
  {
    hide Parse, Before, After, Kept, LongestEndsAt, Zero, Shortened;
    if NoZero(a) {
      NoZeroTrip(a);
    } else {
      var e: nat :| e <= GROUPS && LongestEndsAt(a, e) && t == Shortened(a, e);
      ShortenedTrip(a, e);
    }
  }

  lemma NoZeroTrip(a: seq<Byte>)
    requires |a| == SIZE && NoZero(a)
    ensures Parse(After(a, 0), [], -1) == Done(a, -1) && Expand(a, -1) == a && OneRun(a)
  {
    hide Parse, After, Kept, Zero;
    ParseAfter(a, 0, [], -1);
    KeptOfNonZero(a, 0, GROUPS);
    assert a[2 * 0..2 * GROUPS] == a && [] + a == a && a + Zeros(0) == a;
  }

  lemma ShortenedTrip(a: seq<Byte>, e: nat)
    requires |a| == SIZE && LongestEndsAt(a, e)
    ensures var p := Parse(Shortened(a, e), [], -1);
            && p.Done? && |p.out| <= SIZE && -1 <= p.split <= |p.out|
            && (Expand(p.out, p.split) == a <==> OneRun(a))
  {
    RunOf(a, e);
    RunIsZero(a, e);
    var m := e - RunBefore(a, e);
    assert Zero(a, m) && Shortened(a, e) == Before(a, m) + ":" + After(a, m);
    hide *;
    BeforeIsBetween(a, m);
    ParseBetween(a, 0, m, []);
    KeptIsShort(a, m, GROUPS, m);
    ExpandIsSpread(a, m);
    SpreadRestores(a, e);
  }

  lemma ExpandIsSpread(a: seq<Byte>, m: nat)
    requires |a| == SIZE && m <= GROUPS && |Kept(a, m, GROUPS)| <= 2 * (GROUPS - m) - 2
    ensures var left, right := Kept(a, 0, m), Kept(a, m, GROUPS);
            && |[] + left + right| <= SIZE && |[] + left| <= |[] + left + right|
            && Expand([] + left + right, |[] + left|) == Spread(a, m)
  {
    hide Kept, Zero;
    var left, right := Kept(a, 0, m), Kept(a, m, GROUPS);
    assert [] + left == left;
    assert (left + right)[..|left|] == left && (left + right)[|left|..] == right;
  }

  lemma RunOf(a: seq<Byte>, e: nat)
    requires |a| == SIZE && LongestEndsAt(a, e)
    ensures e <= GROUPS && RunBefore(a, e) > 0
  {
  }

  // ----- the parser

  // One segment becomes two bytes of the address.
  method PutSegment(text: string, i: nat, n: nat, addr: array<Byte>, at: nat)
    requires 1 <= n <= 4 && i + n <= |text| && at + 2 <= addr.Length == SIZE
    modifies addr
    ensures addr[..] == old(addr[..at]) + Segment(text[i..i + n]) + old(addr[at + 2..])
  {
    if n == 4 {
      addr[at] := TwoDigits(text[i], text[i + 1]);
      addr[at + 1] := TwoDigits(text[i + 2], text[i + 3]);
    } else if n == 3 {
      addr[at] := OneDigit(text[i]);
      addr[at + 1] := TwoDigits(text[i + 1], text[i + 2]);
    } else if n == 2 {
      addr[at] := 0;
      addr[at + 1] := TwoDigits(text[i], text[i + 1]);
    } else {
      addr[at] := 0;
      addr[at + 1] := OneDigit(text[i]);
    }
  }

  // The bytes read so far, in front of zeros.
  predicate Holds(addr: array<Byte>, out: seq<Byte>)
    reads addr
  {
    addr.Length == SIZE && |out| <= SIZE && addr[..] == out + Zeros(SIZE - |out|)
  }

  lemma OneSegment(before: seq<Byte>, out: seq<Byte>, b: seq<Byte>)
    requires |b| == 2 && |out| + 2 <= SIZE && before == out + Zeros(SIZE - |out|)
    ensures before[..|out|] + b + before[|out| + 2..] == (out + b) + Zeros(SIZE - |out + b|)
  {
  }

  // What is still to be read, from place i of the text on.
  function Remaining(text: string, i: nat, out: seq<Byte>, split: int): Parsed {
    if i <= |text| then Parse(text[i..], out, split) else Done(out, split)
  }

  // One pass of the loop: what it reads, if anything, and where it stops.
  lemma OnePass(text: string, i: nat, out: seq<Byte>, split: int)
    requires i < |text| && |out| < SIZE - 1
    ensures var double := split == -1 && StartsDouble(text[i..]);
            var k := if double then i + 2 else i;
            var at := if double then |out| else split;
            k <= |text| &&
            var n := Index(text[k..], ':');
            Remaining(text, i, out, split) ==
            (if n > 4 then Stuck
             else if n > 0 then Remaining(text, k + n, out + Segment(text[k..k + n]), at)
             else Remaining(text, k + 1, out, at))
  {
    hide Index, Segment, Parse;
    ParseUnfolds(text[i..], out, split);
    var double := split == -1 && StartsDouble(text[i..]);
    assert double ==> i + 2 <= |text|;
    hide StartsDouble;
    var k := if double then i + 2 else i;
    SliceTwice(text, i, k - i);
    var n := Index(text[k..], ':');
    SliceTwice(text, k, n);
    if k < |text| {
      SliceTwice(text, k, 1);
    }
  }

  lemma SliceTwice(text: string, i: nat, n: nat)
    requires i + n <= |text|
    ensures text[i..][n..] == text[i + n..] && text[i..][..n] == text[i..i + n] && text[i..][0..] == text[i..]
  {
  }

  // Reads the segments; false where the source would loop for ever.
  method ReadSegments(text: string, addr: array<Byte>) returns (ok: bool, n: nat, split: int)
    requires addr.Length == SIZE
    modifies addr
    ensures ok <==> !TooLong(Segments(text), GROUPS)
    ensures ok ==> n <= SIZE && Holds(addr, addr[..n]) && Parse(text, [], -1) == Done(addr[..n], split)
  {
    hide Parse, Index, Segment, Segments, TooLong;
    StuckExactly(text, [], -1);
    for k := 0 to SIZE
      invariant forall j :: 0 <= j < k ==> addr[j] == 0
    {
      addr[k] := 0;
    }
    var i := 0;
    n, split := 0, -1;
    ghost var out: seq<Byte> := [];
    assert text[0..] == text && addr[..] == [] + Zeros(SIZE);
    while n < SIZE - 1 && i < |text|
      invariant n == |out| <= SIZE && n % 2 == 0 && Holds(addr, out)
      invariant Remaining(text, i, out, split) == Parse(text, [], -1)
      decreases |text| + 1 - i
    {
      OnePass(text, i, out, split);
      if split == -1 && i + 1 < |text| && text[i] == ':' && text[i + 1] == ':' {
        split := n;
        i := i + 2;
      }
      var length := FindChar(text[i..], ':');
      if length > 4 {
        return false, n, split;
      } else if length > 0 {
        ghost var before := addr[..];
        PutSegment(text, i, length, addr, n);
        OneSegment(before, out, Segment(text[i..i + length]));
        out := out + Segment(text[i..i + length]);
        n, i := n + 2, i + length;
      } else {
        i := i + 1;
      }
    }
    ReadingEnds(text, i, out, split);
    assert addr[..n] == out;
    ok := true;
  }

  lemma ReadingEnds(text: string, i: nat, out: seq<Byte>, split: int)
    requires |out| >= SIZE - 1 || i >= |text|
    ensures Remaining(text, i, out, split) == Done(out, split)
  {
  }

  // Everything behind place i has been moved `gap` places up; the places left behind are cleared.
  predicate Shifting(a: seq<Byte>, out: seq<Byte>, i: int, gap: nat) {
    && |a| == SIZE == |out| + gap && -1 <= i < |out|
    && (forall k :: 0 <= k <= i ==> a[k] == out[k])
    && (gap > 0 ==> (forall k :: i < k <= i + gap ==> a[k] == 0)
                    && (forall k :: i + gap < k < SIZE ==> a[k] == out[k - gap]))
    && (gap == 0 ==> forall k :: i < k < SIZE ==> a[k] == 0)
  }

  lemma OneShift(a: seq<Byte>, out: seq<Byte>, i: int, gap: nat)
    requires Shifting(a, out, i, gap) && i >= 0
    ensures Shifting(a[i + gap := a[i]][i := 0], out, i - 1, gap)
  {
  }

  // Moves the bytes behind the split to the end, from the last one on, and clears where they were.
  method ShiftBack(addr: array<Byte>, n: nat, split: nat)
    requires addr.Length == SIZE && split <= n <= SIZE && Holds(addr, addr[..n])
    modifies addr
    ensures addr[..] == Expand(old(addr[..n]), split)
  {
    ghost var out, gap := addr[..n], SIZE - n;
    HoldsZeros(addr, n);
    assert Shifting(addr[..], out, n - 1, gap);
    hide Expand, Shifting;
    var i: int, d: int := n - 1, SIZE - 1;
    while i >= split
      invariant split - 1 <= i < n && d == i + gap && Shifting(addr[..], out, i, gap)
    {
      OneShift(addr[..], out, i, gap);
      ghost var before := addr[..];
      addr[d] := addr[i];
      addr[i] := 0;
      assert addr[..] == before[d := before[i]][i := 0];
      i, d := i - 1, d - 1;
    }
    Shifted(addr[..], out, split);
  }

  lemma HoldsZeros(addr: array<Byte>, n: nat)
    requires addr.Length == SIZE && n <= SIZE && Holds(addr, addr[..n])
    ensures forall k :: n <= k < SIZE ==> addr[k] == 0
  {
    var out := addr[..n];
    forall k | n <= k < SIZE ensures addr[k] == 0 {
      assert addr[..][k] == (out + Zeros(SIZE - n))[k];
    }
  }

  lemma Shifted(a: seq<Byte>, out: seq<Byte>, split: nat)
    requires split <= |out| <= SIZE && Shifting(a, out, split - 1, SIZE - |out|)
    ensures a == Expand(out, split)
  {
    if |out| < SIZE {
      assert a == out[..split] + Zeros(SIZE - |out|) + out[split..];
    } else {
      assert a == out[..split] + Zeros(SIZE - split);
    }
  }

  method ParseAddress(text: string, addr: array<Byte>) returns (ok: bool)
    requires addr.Length == SIZE
    modifies addr
    ensures ok <==> !TooLong(Segments(text), GROUPS)
    ensures ok ==> (
              var p := Parse(text, [], -1);
              p.Done? && |p.out| <= SIZE && -1 <= p.split <= |p.out| && addr[..] == Expand(p.out, p.split))
  {
    hide Parse, Segments, TooLong;
    var n, split;
    ParseShape(text, [], -1);
    ok, n, split := ReadSegments(text, addr);
    if ok && split != -1 {
      ShiftBack(addr, n, split);
    }
  }

  // ----- the printer

  const BUFFER := 54

  // snprintf of a known text: the characters and the terminator behind them.
  method Put(ip: array<char>, j: nat, t: string) returns (j': nat)
    requires j + |t| < ip.Length
    modifies ip
    ensures j' == j + |t| && ip[..j'] == old(ip[..j]) + t
  {
    for i := 0 to |t|
      invariant ip[..j + i] == old(ip[..j]) + t[..i]
    {
      ip[j + i] := t[i];
      assert ip[..j + i + 1] == ip[..j + i] + [t[i]];
    }
    j' := j + |t|;
    ip[j'] := '\0';
    assert t[..|t|] == t;
  }

  // What one octet adds: nothing for a zero in front, one digit where a leading zero would stand.
  function OctetText(a: seq<Byte>, idx: nat): (t: string)
    requires |a| == SIZE && idx < SIZE
    ensures |t| <= 2
  {
    if idx % 2 == 0 && a[idx] == 0 then ""
    else if (idx % 2 == 0 || a[idx - 1] == 0) && a[idx] < 16 then [Digit(a[idx])]
    else Two(a[idx])
  }

  lemma OctetsAreGroup(a: seq<Byte>, g: nat)
    requires |a| == SIZE && g < GROUPS
    ensures OctetText(a, 2 * g) + OctetText(a, 2 * g + 1) == GroupText(a[2 * g], a[2 * g + 1])
  {
    hide Digit, Two;
    assert 2 * g % 2 == 0 && (2 * g + 1) % 2 == 1;
    if a[2 * g] == 0 {
      assert "" + OctetText(a, 2 * g + 1) == OctetText(a, 2 * g + 1);
    }
  }

  method PutOctet(a: seq<Byte>, idx: nat, ip: array<char>, j: nat) returns (j': nat)
    requires |a| == SIZE && idx < SIZE && j + 2 < ip.Length
    modifies ip
    ensures j' == j + |OctetText(a, idx)| && ip[..j'] == old(ip[..j]) + OctetText(a, idx)
  {
    hide Digit;
    if idx % 2 == 0 && a[idx] == 0 {
      assert ip[..j] == ip[..j] + "";
      j' := j;
    } else if (idx % 2 == 0 || a[idx - 1] == 0) && a[idx] < 16 {
      j' := Put(ip, j, [Digit(a[idx])]);
    } else {
      j' := Put(ip, j, Two(a[idx]));
    }
  }

  // Both octets of a group.
  method PutGroup(a: seq<Byte>, g: nat, ip: array<char>, j: nat) returns (j': nat)
    requires |a| == SIZE && g < GROUPS && j + 5 < ip.Length
    modifies ip
    ensures j' == j + |GroupText(a[2 * g], a[2 * g + 1])|
    ensures ip[..j'] == old(ip[..j]) + GroupText(a[2 * g], a[2 * g + 1])
  {
    OctetsAreGroup(a, g);
    hide OctetText, GroupText;
    j' := PutOctet(a, 2 * g, ip, j);
    j' := PutOctet(a, 2 * g + 1, ip, j');
    Associates(old(ip[..j]), OctetText(a, 2 * g), OctetText(a, 2 * g + 1));
  }

  // Where the second colon goes when the run that ends at e becomes "::".
  ghost predicate Place(a: seq<Byte>, start: nat, e: nat)
    requires |a| == SIZE
  {
    e <= GROUPS && LongestEndsAt(a, e) && start == 1 + |Before(a, e - RunBefore(a, e))|
  }

  // Among the places up to w, the first of the longest runs ends at c.
  predicate Best(a: seq<Byte>, w: nat, c: nat)
    requires |a| == SIZE && w <= GROUPS
  {
    c <= w && forall d :: 0 <= d <= w ==> RunBefore(a, d) <= RunBefore(a, c) && (d < c ==> RunBefore(a, d) < RunBefore(a, c))
  }

  lemma {:induction false} RunInside(a: seq<Byte>, z: nat, d: nat)
    requires |a| == SIZE && z <= GROUPS && z - RunBefore(a, z) <= d <= z
    ensures RunBefore(a, d) == d - (z - RunBefore(a, z))
    decreases z
  {
    if d < z {
      RunInside(a, z - 1, d);
    }
  }

  // A run is over: it is the best one if it is longer than the best so far.
  lemma BestGrows(a: seq<Byte>, w: nat, c: nat, z: nat)
    requires |a| == SIZE && z <= GROUPS && w == z - RunBefore(a, z) && Best(a, w, c)
    ensures Best(a, z, if RunBefore(a, z) > RunBefore(a, c) then z else c)
  {
    forall d | w <= d <= z ensures RunBefore(a, d) == d - w {
      RunInside(a, z, d);
    }
    hide RunBefore;
  }

  lemma BestSkips(a: seq<Byte>, w: nat, c: nat)
    requires |a| == SIZE && w < GROUPS && Best(a, w, c) && !Zero(a, w)
    ensures Best(a, w + 1, c)
  {
    assert RunBefore(a, w + 1) == 0;
  }

  // What the printer's counters say about the groups before g: z ends the last run of zeros,
  // c the best one that is over.
  ghost predicate Counted(a: seq<Byte>, g: nat, z: nat, c: nat, lastZeros: int, numZeros: int, startZeros: int,
                          maxNum: int, maxStart: int)
  {
    && |a| == SIZE && g <= GROUPS && z <= g && c <= g
    && (if g > 0 && Zero(a, g - 1) then lastZeros == 2 * (g - 1) && z == g
        else lastZeros != 2 * (g - 1) && RunBefore(a, z) <= RunBefore(a, c))
    && (lastZeros == SIZE || lastZeros < 2 * g)
    && numZeros == 2 * RunBefore(a, z) && maxNum == 2 * RunBefore(a, c)
    && (numZeros > 0 ==> startZeros == 1 + |Before(a, z - RunBefore(a, z))|)
    && maxStart == (if maxNum > 0 then 1 + |Before(a, c - RunBefore(a, c))| else 0)
    && Best(a, if g > 0 && Zero(a, g - 1) then g - RunBefore(a, g) else g, c)
  }

  lemma RunUnfolds(a: seq<Byte>, g: nat)
    requires |a| == SIZE && g < GROUPS && Zero(a, g)
    ensures RunBefore(a, g + 1) == 1 + RunBefore(a, g)
    ensures RunBefore(a, g) == 0 <==> (g == 0 || !Zero(a, g - 1))
  {
  }

  lemma CountZero(a: seq<Byte>, g: nat, z: nat, c: nat, lastZeros: int, numZeros: int, startZeros: int,
                  maxNum: int, maxStart: int)
    requires Counted(a, g, z, c, lastZeros, numZeros, startZeros, maxNum, maxStart) && g < GROUPS && Zero(a, g)
    ensures var opens := lastZeros != 2 * g - 2;
            Counted(a, g + 1, g + 1, c, 2 * g, (if opens then 0 else numZeros) + 2,
                    if opens then 1 + |Before(a, g)| else startZeros, maxNum, maxStart)
  {
    hide Before, Best, RunBefore;
    RunUnfolds(a, g);
    if g > 0 && Zero(a, g - 1) {
      assert lastZeros == 2 * g - 2;
    } else {
      assert lastZeros != 2 * g - 2;
    }
  }

  lemma CountNonZero(a: seq<Byte>, g: nat, z: nat, c: nat, lastZeros: int, numZeros: int, startZeros: int,
                     maxNum: int, maxStart: int)
    requires Counted(a, g, z, c, lastZeros, numZeros, startZeros, maxNum, maxStart) && g < GROUPS && !Zero(a, g)
    ensures var better := numZeros > maxNum;
            Counted(a, g + 1, z, if better then z else c, lastZeros, numZeros, startZeros,
                    if better then numZeros else maxNum, if better then startZeros else maxStart)
  {
    hide Before;
    var better := numZeros > maxNum;
    if g > 0 && Zero(a, g - 1) {
      BestGrows(a, g - RunBefore(a, g), c, g);
    }
    BestSkips(a, g, if better then z else c);
  }

  // At the end the best run is known, and is none only if no group is zero.
  lemma CountEnds(a: seq<Byte>, z: nat, c: nat, lastZeros: int, numZeros: int, startZeros: int, maxNum: int, maxStart: int)
    requires Counted(a, GROUPS, z, c, lastZeros, numZeros, startZeros, maxNum, maxStart)
    ensures lastZeros == SIZE - 2 <==> Zero(a, GROUPS - 1)
    ensures var better := numZeros > maxNum;
            var e, start := if better then z else c, if better then startZeros else maxStart;
            if start == 0 then NoZero(a)
            else e <= GROUPS && LongestEndsAt(a, e) && start == 1 + |Before(a, e - RunBefore(a, e))|
  {
    hide Before;
    var better := numZeros > maxNum;
    var e := if better then z else c;
    if Zero(a, GROUPS - 1) {
      BestGrows(a, GROUPS - RunBefore(a, GROUPS), c, GROUPS);
    }
    assert Best(a, GROUPS, e);
    if RunBefore(a, e) == 0 {
      forall g | 0 <= g < GROUPS ensures !Zero(a, g) {
        assert RunBefore(a, g + 1) == 0;
      }
    }
  }

  // A group that is not zero, behind a colon unless it is the first.
  method PutPiece(a: seq<Byte>, g: nat, ip: array<char>, j: nat) returns (j': nat)
    requires |a| == SIZE && g < GROUPS && !Zero(a, g) && j + 6 < ip.Length
    modifies ip
    ensures j' == j + |Piece(a, g)| <= ip.Length && ip[..j'] == old(ip[..j]) + Piece(a, g)
  {
    var colon := if g > 0 && g <= 7 then ":" else "";
    j' := j;
    if g > 0 && g <= 7 {
      ip[j'] := ':';
      j' := j' + 1;
    }
    assert ip[..j'] == old(ip[..j]) + colon;
    Associates(old(ip[..j]), colon, GroupText(a[2 * g], a[2 * g + 1]));
    hide GroupText;
    j' := PutGroup(a, g, ip, j');
  }

  // The first loop of the printer: all groups but the zero ones, and where the best run of zeros was.
  method PrintGroups(a: seq<Byte>, ip: array<char>) returns (j: nat, start: nat)
    requires |a| == SIZE && ip.Length == BUFFER
    modifies ip
    ensures 0 < j < BUFFER - 10 && ip[..j] == "[" + Uncompressed(a)
    ensures if start == 0 then NoZero(a) else exists e: nat :: Place(a, start, e)
  {
    hide Counted, Zero, GroupText, Before, Piece, RunBefore, LongestEndsAt, NoZero;
    var addrIdx, startZeros, lastZeros, numZeros, maxStart, maxNum := 0, 0, SIZE, 0, 0, 0;
    ghost var g: nat, z: nat, c: nat := 0, 0, 0;
    CountStarts(a);
    ip[0] := '[';
    j := 1;
    assert ip[..1] == "[" == "[" + Before(a, 0);
    while addrIdx < SIZE
      invariant addrIdx == 2 * g <= SIZE && j == 1 + |Before(a, g)|
      invariant ip[..j] == "[" + Before(a, g)
      invariant Counted(a, g, z, c, lastZeros, numZeros, startZeros, maxNum, maxStart) && startZeros >= 0
      decreases SIZE - addrIdx
    {
      ZeroIs(a, g);
      BeforeGrows(a, g);
      if a[addrIdx] == 0 && a[addrIdx + 1] == 0 {
        CountZero(a, g, z, c, lastZeros, numZeros, startZeros, maxNum, maxStart);
        if lastZeros != addrIdx - 2 {
          startZeros, numZeros := j, 0;
        }
        lastZeros, numZeros := addrIdx, numZeros + 2;
        z := g + 1;
      } else {
        CountNonZero(a, g, z, c, lastZeros, numZeros, startZeros, maxNum, maxStart);
        if numZeros > maxNum {
          maxNum, maxStart, c := numZeros, startZeros, z;
        }
        Associates("[", Before(a, g), Piece(a, g));
        j := PutPiece(a, addrIdx / 2, ip, j);
      }
      addrIdx, g := addrIdx + 2, g + 1;
    }
    CountEnds(a, z, c, lastZeros, numZeros, startZeros, maxNum, maxStart);
    ghost var best := if numZeros > maxNum then z else c;
    if numZeros > maxNum {
      maxStart := startZeros;
    }
    if lastZeros == SIZE - 2 {
      ip[j] := ':';
      j := j + 1;
    } else {
      assert ip[..j] + "" == ip[..j];
    }
    start := maxStart;
    Associates("[", Before(a, GROUPS), if Zero(a, GROUPS - 1) then ":" else "");
    assert start != 0 ==> Place(a, start, best);
  }

  lemma CountStarts(a: seq<Byte>)
    requires |a| == SIZE
    ensures Before(a, 0) == "" && Counted(a, 0, 0, 0, SIZE, 0, 0, 0, 0)
  {
  }

  lemma ZeroIs(a: seq<Byte>, g: nat)
    requires |a| == SIZE && g < GROUPS
    ensures Zero(a, g) <==> a[2 * g] == 0 && a[2 * g + 1] == 0
  {
  }

  lemma BeforeGrows(a: seq<Byte>, g: nat)
    requires |a| == SIZE && g < GROUPS
    ensures Before(a, g + 1) == Before(a, g) + Piece(a, g)
    ensures Zero(a, g) ==> Before(a, g + 1) == Before(a, g)
    ensures !Zero(a, g) ==> Piece(a, g) == (if g > 0 then ":" else "") + GroupText(a[2 * g], a[2 * g + 1])
  {
    if Zero(a, g) {
      assert Before(a, g) + "" == Before(a, g);
    }
  }

  // The first loop left this in the buffer.
  function Uncompressed(a: seq<Byte>): string
    requires |a| == SIZE
  {
    Before(a, GROUPS) + if Zero(a, GROUPS - 1) then ":" else ""
  }

  lemma NothingAfter(a: seq<Byte>)
    requires |a| == SIZE
    ensures Before(a, GROUPS) + After(a, GROUPS) == Uncompressed(a)
  {
  }

  // The text up to group m and from there on, whatever m is.
  lemma {:induction false} SplitAt(a: seq<Byte>, m: nat)
    requires |a| == SIZE && m <= GROUPS
    ensures Before(a, m) + After(a, m) == Uncompressed(a)
    decreases GROUPS - m
  {
    hide Piece, Before, After, Uncompressed, Zero, Kept;
    if m == GROUPS {
      NothingAfter(a);
    } else {
      SplitAt(a, m + 1);
      BeforeGrows(a, m);
      Unfolds(a, m);
      Associates(Before(a, m), Piece(a, m), After(a, m + 1));
    }
  }

  // Doubles the character at `start` by moving what follows it one place to the right.
  method Double(ip: array<char>, start: nat, j: nat)
    requires start < j < ip.Length
    modifies ip
    ensures ip[..j + 1] == old(ip[..j])[..start + 1] + old(ip[..j])[start..]
  {
    var i := j;
    while i > start
      invariant start <= i <= j
      invariant forall k :: 0 <= k <= i && k < j ==> ip[k] == old(ip[k])
      invariant forall k :: i < k <= j ==> ip[k] == old(ip[k - 1])
    {
      ip[i] := ip[i - 1];
      i := i - 1;
    }
  }

  // Puts the second colon where the run that ends at e was left out.
  method DoubleColon(a: seq<Byte>, ip: array<char>, start: nat, j: nat, ghost e: nat)
    requires |a| == SIZE && ip.Length == BUFFER && j < BUFFER - 10 && Place(a, start, e)
    requires ip[..j] == "[" + Uncompressed(a)
    modifies ip
    ensures e <= GROUPS && ip[..j + 1] == "[" + Shortened(a, e)
  {
    hide Place, LongestEndsAt, RunBefore, Before, After, Zero, Uncompressed, Shortened;
    PlaceIs(a, start, e);
    RunStart(a, e);
    ghost var m := e - RunBefore(a, e);
    AfterIsColon(a, m);
    SplitAt(a, m);
    ShortenedIs(a, e);
    Doubled(ip[..j], Before(a, m), After(a, m), start);
    Double(ip, start, j);
  }

  lemma PlaceIs(a: seq<Byte>, start: nat, e: nat)
    requires |a| == SIZE && Place(a, start, e)
    ensures e <= GROUPS && LongestEndsAt(a, e) && start == 1 + |Before(a, e - RunBefore(a, e))|
  {
  }

  lemma RunStart(a: seq<Byte>, e: nat)
    requires |a| == SIZE && LongestEndsAt(a, e)
    ensures e <= GROUPS && e - RunBefore(a, e) < GROUPS && Zero(a, e - RunBefore(a, e))
  {
    RunIsZero(a, e);
  }

  lemma ShortenedIs(a: seq<Byte>, e: nat)
    requires |a| == SIZE && e <= GROUPS
    ensures var m := e - RunBefore(a, e); Shortened(a, e) == Before(a, m) + ":" + After(a, m)
  {
    hide RunBefore, Before, After;
  }

  method PrintAddress(a: seq<Byte>, ip: array<char>) returns (j: nat)
    requires |a| == SIZE && ip.Length == BUFFER
    modifies ip
    ensures 0 < j < BUFFER - 8 && ip[..j] == "[" + ip[1..j] && IsText(a, ip[1..j])
  {
    var start;
    j, start := PrintGroups(a, ip);
    hide IsText, Place, NoZero, Uncompressed, Shortened, After;
    if start != 0 {
      ghost var e: nat :| Place(a, start, e);
      DoubleColon(a, ip, start, j, e);
      j := j + 1;
      IsShortened(a, start, e);
      Bracketed(ip[..j], Shortened(a, e));
    } else {
      IsWhole(a);
      Bracketed(ip[..j], Uncompressed(a));
    }
    assert ip[..j][1..] == ip[1..j];
  }

  lemma Bracketed(s: string, text: string)
    requires s == "[" + text
    ensures |s| > 0 && s == "[" + s[1..] && s[1..] == text
  {
  }

  lemma IsShortened(a: seq<Byte>, start: nat, e: nat)
    requires |a| == SIZE && Place(a, start, e)
    ensures e <= GROUPS && IsText(a, Shortened(a, e))
  {
    RunIsZero(a, e);
    assert Zero(a, e - 1);
    hide Zero, RunBefore, Shortened, Before, After;
    assert !NoZero(a);
  }

  lemma IsWhole(a: seq<Byte>)
    requires |a| == SIZE && NoZero(a)
    ensures IsText(a, Uncompressed(a))
  {
    SplitAt(a, 0);
    hide After, Zero;
    assert "" + After(a, 0) == After(a, 0);
  }

  lemma Doubled(text: string, front: string, rest: string, start: nat)
    requires text == "[" + (front + rest) && rest != "" && rest[0] == ':' && start == 1 + |front|
    ensures start < |text| && text[..start + 1] + text[start..] == "[" + (front + ":" + rest)
  {
  }
}
