/** Certificates as text: a second Base64 encoder that breaks its lines as it goes
    (security/oc_certs.c), against the form of section 2 of RFC 7468. */
module Pem {
  import opened Base64
  import opened Lists

  const LINE := 64
  const CRLF: seq<Byte> := [13, 10]
  const BEGIN_TEXT := "-----BEGIN CERTIFICATE-----\r\n"
  const END_TEXT := "-----END CERTIFICATE-----\r\n"

  function Ascii(text: string): (s: seq<Byte>)
    requires forall i :: 0 <= i < |text| ==> text[i] as int < 128
    ensures |s| == |text|
  {
    seq(|text|, i requires 0 <= i < |text| => text[i] as int as bv8)
  }

  const BEGIN: seq<Byte> := Ascii(BEGIN_TEXT)
  const END: seq<Byte> := Ascii(END_TEXT)

  // ----- the standard form

  // Lines of 64 characters, the last one possibly shorter, each with its line break.
  function Lines(t: seq<Byte>): (r: seq<Byte>)
  {
    if t == [] then []
    else
      var n := if |t| < LINE then |t| else LINE;
      t[..n] + CRLF + Lines(t[n..])
  }

  function Standard(s: seq<Byte>): seq<Byte> {
    BEGIN + Lines(Encoded(s)) + END
  }

  // The length that the code computes before it starts.
  function OutputLength(n: nat): nat {
    EncodedLength(n) + (EncodedLength(n) + 63) / 64 * 2 + |BEGIN_TEXT| + |END_TEXT|
  }

  lemma {:induction false} LinesLength(t: seq<Byte>)
    ensures |Lines(t)| == |t| + (|t| + 63) / 64 * 2
  {
    if |t| > LINE {
      LinesLength(t[LINE..]);
    }
  }

  lemma StandardLength(s: seq<Byte>)
    ensures |Standard(s)| == OutputLength(|s|)
  {
    hide Encoded, EncodedLength;
    assert |Encoded(s)| == EncodedLength(|s|) by {
      EncodedHasLength(s);
    }
    LinesLength(Encoded(s));
  }

  lemma EncodedHasLength(s: seq<Byte>)
    ensures |Encoded(s)| == EncodedLength(|s|)
  {
  }

  // ----- what the code writes

  // A line break follows every 64th character.
  function Wrapped(t: seq<Byte>): (r: seq<Byte>)
  {
    if t == [] then []
    else Wrapped(t[..|t| - 1]) + [t[|t| - 1]] + if |t| % LINE == 0 then CRLF else []
  }

  // Characters that are not padding.
  function DataChars(n: nat): (c: nat)
    ensures c <= EncodedLength(n)
  {
    CharsDone(n) + if n % 3 != 0 then 1 else 0
  }

  // Characters of the lines that the encoder itself fills.
  function FullChars(n: nat): (q: nat)
    ensures q <= DataChars(n)
  {
    DataChars(n) / LINE * LINE
  }

  // Padding is not counted towards a line, and one line break always follows it.
  function Written(s: seq<Byte>): seq<Byte> {
    BEGIN + Wrapped(Encoded(s)[..DataChars(|s|)]) + Encoded(s)[DataChars(|s|)..] + CRLF + END
  }

  lemma LinesUnfold(t: seq<Byte>)
    ensures Lines([]) == []
    ensures |t| >= LINE ==> Lines(t) == t[..LINE] + CRLF + Lines(t[LINE..])
    ensures 1 <= |t| <= LINE ==> Lines(t) == t[..|t|] + CRLF + Lines(t[|t|..])
  {
  }

  lemma FirstLine(a: seq<Byte>, b: seq<Byte>)
    requires |a| >= LINE
    ensures Lines(a + b) == a[..LINE] + CRLF + Lines(a[LINE..] + b)
  {
    LinesUnfold(a + b);
    hide Lines;
    assert (a + b)[..LINE] == a[..LINE] && (a + b)[LINE..] == a[LINE..] + b;
  }

  lemma OnlyLine(line: seq<Byte>)
    requires 1 <= |line| <= LINE
    ensures Lines(line) == line + CRLF
  {
    LinesUnfold(line);
    hide Lines;
    Ends(line);
    Nothing(line + CRLF);
  }

  lemma {:induction false} LastLine(a: seq<Byte>, line: seq<Byte>)
    requires |a| % LINE == 0 && 1 <= |line| <= LINE
    ensures Lines(a + line) == Lines(a) + line + CRLF
  {
    LinesUnfold(a);
    hide Lines;
    if a == [] {
      OnlyLine(line);
      Nothing(line);
    } else {
      FirstLine(a, line);
      LastLine(a[LINE..], line);
      var head, rest := a[..LINE] + CRLF, Lines(a[LINE..]);
      Regroup(head, rest + line, CRLF);
      Regroup(head, rest, line);
    }
  }

  // A character that ends a line, and one that does not.
  lemma LineEnds(t: seq<Byte>, p: nat)
    requires p + LINE == |t| && p % LINE == 0
    ensures Lines(t[..p]) + t[p..|t| - 1] + [t[|t| - 1]] + CRLF == Lines(t)
  {
    hide Lines;
    var line, last := t[p..|t| - 1], [t[|t| - 1]];
    assert t[p..] == line + last;
    Cut(t, p);
    LastLine(t[..p], t[p..]);
    Regroup(Lines(t[..p]), line, last);
  }

  // One character more, when the text before it is as it should be.
  lemma WrapOneMore(t: seq<Byte>, w: seq<Byte>)
    requires t != [] && var p := (|t| - 1) / LINE * LINE; w == Lines(t[..p]) + t[p..|t| - 1]
    ensures var q := |t| / LINE * LINE;
            w + [t[|t| - 1]] + (if |t| % LINE == 0 then CRLF else []) == Lines(t[..q]) + t[q..]
  {
    hide Lines;
    var n := |t|;
    if n % LINE == 0 {
      assert (n - 1) / LINE * LINE == n - LINE && t[..n] == t;
      LineEnds(t, n - LINE);
    } else {
      var q := n / LINE * LINE;
      assert (n - 1) / LINE * LINE == q && t[q..] == t[q..n - 1] + [t[n - 1]];
    }
  }

  lemma {:induction false} WrappedIsLines(t: seq<Byte>)
    ensures var q := |t| / LINE * LINE; Wrapped(t) == Lines(t[..q]) + t[q..]
  {
    if t != [] {
      hide Lines;
      var n := |t|;
      var p := (n - 1) / LINE * LINE;
      WrappedIsLines(t[..n - 1]);
      assert t[..n - 1][..p] == t[..p] && t[..n - 1][p..] == t[p..n - 1];
      WrapOneMore(t, Wrapped(t[..n - 1]));
    } else {
      assert t[..0] == [] && t[0..] == [];
    }
  }

  lemma LinesFilled(n: nat)
    ensures var rest := EncodedLength(n) - FullChars(n);
            if n % 48 == 0 then rest == 0 else 1 <= rest <= LINE
  {
    var a, b := n / 48, n % 48;
    assert n == 48 * a + b;
    assert n / 3 == 16 * a + b / 3 && n % 3 == b % 3;
    assert EncodedLength(n) == 64 * a + EncodedLength(b) && DataChars(n) == 64 * a + DataChars(b);
    assert DataChars(n) / LINE == a + DataChars(b) / LINE;
  }

  // The full lines, what is left of the text, and the line break and last line behind them.
  lemma WrittenBody(s: seq<Byte>)
    ensures var t, q := Encoded(s), FullChars(|s|);
            q <= |t| && Written(s) == BEGIN + (Lines(t[..q]) + t[q..]) + CRLF + END
  {
    hide Encoded, Wrapped, Lines, EncodedLength, DataChars, Ascii;
    EncodedHasLength(s);
    var t, c := Encoded(s), DataChars(|s|);
    var q := c / LINE * LINE;
    WrappedIsLines(t[..c]);
    assert t[..c][..q] == t[..q] && t[..c][q..] == t[q..c] && t[q..c] + t[c..] == t[q..];
    Regroup(BEGIN, Lines(t[..q]) + t[q..c], t[c..]);
    Regroup(Lines(t[..q]), t[q..c], t[c..]);
  }

  lemma FullLinesOnly(s: seq<Byte>)
    requires |s| % 48 == 0
    ensures Written(s) == BEGIN + Lines(Encoded(s)) + CRLF + END
  {
    WrittenBody(s);
    LinesFilled(|s|);
    hide *;
    EncodedHasLength(s);
    Ends(Encoded(s));
    Nothing(Lines(Encoded(s)));
  }

  lemma ShortLastLine(s: seq<Byte>)
    requires |s| % 48 != 0
    ensures Written(s) == BEGIN + Lines(Encoded(s)) + END
  {
    hide *;
    WrittenBody(s);
    var t, q := Encoded(s), FullChars(|s|);
    LastLength(s, q);
    CutLine(t, q);
    Join(BEGIN, Lines(t[..q]) + t[q..], CRLF, Lines(t), END);
  }

  lemma LastLength(s: seq<Byte>, q: nat)
    requires |s| % 48 != 0 && q == FullChars(|s|)
    ensures q % LINE == 0 && q + 1 <= |Encoded(s)| <= q + LINE
  {
    LinesFilled(|s|);
    hide Encoded, EncodedLength, DataChars;
    EncodedHasLength(s);
  }

  lemma Join(begin: seq<Byte>, x: seq<Byte>, crlf: seq<Byte>, lines: seq<Byte>, end: seq<Byte>)
    requires x + crlf == lines
    ensures begin + x + crlf + end == begin + lines + end
  {
    Regroup(begin, x, crlf);
  }

  lemma CutLine(t: seq<Byte>, q: nat)
    requires q % LINE == 0 && q + 1 <= |t| <= q + LINE
    ensures Lines(t[..q]) + t[q..] + CRLF == Lines(t)
  {
    hide Lines;
    LastLine(t[..q], t[q..]);
    Cut(t, q);
  }

  // The output is the standard form exactly when the certificate's length is not a
  // multiple of 48; then it has the length computed in advance. Otherwise there is
  // one empty line too many, and two bytes more than announced.
  lemma PemForm(s: seq<Byte>)
    ensures Written(s) == Standard(s) <==> |s| % 48 != 0
    ensures |Written(s)| == OutputLength(|s|) + if |s| % 48 == 0 then 2 else 0
    ensures |s| % 48 == 0 ==> Written(s) == BEGIN + Lines(Encoded(s)) + CRLF + END
  {
    hide Written, Encoded, Lines, EncodedLength, DataChars, Ascii;
    StandardLength(s);
    if |s| % 48 == 0 {
      FullLinesOnly(s);
    } else {
      ShortLastLine(s);
    }
  }

  // The smallest input on which the announced length is wrong, not counting the empty one.
  lemma FortyEightBytesRunOver()
    ensures var s := seq(48, _ => 0); |Written(s)| == 124 && OutputLength(|s|) == 122
  {
    hide Written, Encoded, Lines, Ascii;
    PemForm(seq(48, _ => 0));
  }

  // ----- the text without its line breaks

  function WithoutBreaks(t: seq<Byte>): seq<Byte> {
    if t == [] then []
    else (if t[0] in CRLF then [] else [t[0]]) + WithoutBreaks(t[1..])
  }

  lemma {:induction false} WithoutBreaksJoins(a: seq<Byte>, b: seq<Byte>)
    ensures WithoutBreaks(a + b) == WithoutBreaks(a) + WithoutBreaks(b)
  {
    if a == [] {
      assert a + b == b;
    } else {
      WithoutBreaksJoins(a[1..], b);
      FrontOf(a, b);
      Regroup(if a[0] in CRLF then [] else [a[0]], WithoutBreaks(a[1..]), WithoutBreaks(b));
    }
  }

  lemma {:induction false} WithoutBreaksKeeps(t: seq<Byte>)
    requires forall i :: 0 <= i < |t| ==> t[i] !in CRLF
    ensures WithoutBreaks(t) == t
  {
    if t != [] {
      WithoutBreaksKeeps(t[1..]);
      assert t == [t[0]] + t[1..];
    }
  }

  lemma NoBreakInCrlf()
    ensures WithoutBreaks(CRLF) == []
  {
    assert CRLF[1..] == [10] && CRLF[1..][1..] == [];
  }

  lemma {:induction false} LinesWithoutBreaks(t: seq<Byte>)
    requires forall i :: 0 <= i < |t| ==> t[i] !in CRLF
    ensures WithoutBreaks(Lines(t)) == t
  {
    if t != [] {
      hide WithoutBreaks;
      var n := if |t| < LINE then |t| else LINE;
      LinesWithoutBreaks(t[n..]);
      WithoutBreaksKeeps(t[..n]);
      NoBreakInCrlf();
      WithoutBreaksJoins(t[..n] + CRLF, Lines(t[n..]));
      WithoutBreaksJoins(t[..n], CRLF);
      Cut(t, n);
      Ends(t[..n]);
    }
  }

  // Every full line has 64 characters, and the body without its breaks is the Base64 encoding.
  lemma BodyIsBase64(s: seq<Byte>)
    ensures var body := Written(s)[|BEGIN|..|Written(s)| - |END|];
            && WithoutBreaks(body) == Encoded(s)
            && body == Lines(Encoded(s)) + if |s| % 48 == 0 then CRLF else []
  {
    PemForm(s);
    hide Written, Encoded, Lines, WithoutBreaks, Ascii;
    var t := Encoded(s);
    var body := Written(s)[|BEGIN|..|Written(s)| - |END|];
    var extra := if |s| % 48 == 0 then CRLF else [];
    assert body == Lines(t) + extra;
    NoBreakInEncoding(s);
    LinesWithoutBreaks(t);
    WithoutBreaksJoins(Lines(t), extra);
    NoBreakInCrlf();
    WithoutBreaksKeeps([]);
  }

  lemma NoBreakInEncoding(s: seq<Byte>)
    ensures forall i :: 0 <= i < |Encoded(s)| ==> Encoded(s)[i] !in CRLF
  {
    hide Sextet, Group;
  }

  // ----- the code

  // Appends one character, and a line break after every 64th.
  method Append(output: array<Byte>, x: Byte, j: nat, ch: nat, ghost t: seq<Byte>) returns (j': nat, ch': nat)
    requires |BEGIN| <= j && j + 2 < output.Length && ch == |t| && output[..j] == BEGIN + Wrapped(t)
    modifies output
    ensures ch' == ch + 1 && j' == j + (if ch' % LINE == 0 then 3 else 1)
    ensures output[..j'] == BEGIN + Wrapped(t + [x])
    ensures forall k :: j' <= k < output.Length ==> output[k] == old(output[k])
  {
    hide Ascii;
    assert (t + [x])[..|t|] == t;
    output[j] := x;
    j', ch' := j + 1, ch + 1;
    if ch' % LINE == 0 {
      output[j'], output[j' + 1] := 13, 10;
      j' := j' + 2;
      assert output[..j'] == old(output[..j]) + [x] + CRLF;
    } else {
      assert output[..j'] == old(output[..j]) + [x];
    }
  }

  lemma {:induction false} WrappedLength(t: seq<Byte>)
    ensures |Wrapped(t)| == |t| + |t| / LINE * 2
  {
    if t != [] {
      WrappedLength(t[..|t| - 1]);
    }
  }

  // The output so far: j bytes, of which ch are characters of the encoding.
  predicate Progress(out: seq<Byte>, input: seq<Byte>, j: nat, ch: nat) {
    ch <= EncodedLength(|input|) && j <= |out| && out[..j] == BEGIN + Wrapped(Encoded(input)[..ch])
  }

  lemma ProgressFits(out: seq<Byte>, input: seq<Byte>, j: nat, ch: nat)
    requires Progress(out, input, j, ch)
    ensures j == |BEGIN| + ch + ch / LINE * 2
    ensures j + |END| <= OutputLength(|input|)
    ensures ch < EncodedLength(|input|) ==> j + |END| + 2 < OutputLength(|input|)
  {
    hide Encoded, EncodedLength, Ascii, Wrapped;
    EncodedHasLength(input);
    WrappedLength(Encoded(input)[..ch]);
  }

  method AppendNext(input: seq<Byte>, output: array<Byte>, x: Byte, j: nat, ch: nat) returns (j': nat, ch': nat)
    requires Progress(output[..], input, j, ch) && ch < EncodedLength(|input|) && x == CharAt(input, ch)
    requires OutputLength(|input|) <= output.Length
    modifies output
    ensures Progress(output[..], input, j', ch') && ch' == ch + 1 && j < j' <= output.Length
    ensures forall k :: j' <= k < output.Length ==> output[k] == old(output[k])
  {
    hide CharAt, Ascii, Wrapped;
    ProgressFits(output[..], input, j, ch);
    assert output[..][..j] == output[..j];
    EncodedExtends(input, ch);
    hide Encoded, OutputLength;
    j', ch' := Append(output, x, j, ch, Encoded(input)[..ch]);
    assert output[..][..j'] == output[..j'];
  }

  lemma EncodedExtends(input: seq<Byte>, ch: nat)
    requires ch < EncodedLength(|input|)
    ensures Encoded(input)[..ch] + [CharAt(input, ch)] == Encoded(input)[..ch + 1]
  {
    hide CharAt;
  }

  // The loop over the certificate's bytes.
  method EncodeLines(input: seq<Byte>, output: array<Byte>, start: nat) returns (val: Byte, j: nat, ch: nat)
    requires Progress(output[..], input, start, 0) && start <= output.Length && OutputLength(|input|) <= output.Length
    modifies output
    ensures Progress(output[..], input, j, ch) && ch == CharsDone(|input|) && Carries(input, |input|, val)
    ensures start <= j <= output.Length
    ensures forall k :: j <= k < output.Length ==> output[k] == old(output[k])
  {
    hide CharAt, Letter, CarryFirst, CarrySecond, Progress, OutputLength;
    val, j, ch := 0, start, 0;
    for i := 0 to |input|
      invariant Progress(output[..], input, j, ch) && ch == CharsDone(i) && Carries(input, i, val) && start <= j <= output.Length
      invariant forall k :: j <= k < output.Length ==> output[k] == old(output[k])
    {
      EncoderStep(input, i, val);
      RoomFor(|input|, i);
      if i % 3 == 0 {
        j, ch := AppendNext(input, output, Letter((input[i] >> 2) as bv6), j, ch);
        val := CarryFirst(input[i]);
      } else if i % 3 == 1 {
        j, ch := AppendNext(input, output, Letter((val | (input[i] >> 4)) as bv6), j, ch);
        val := CarrySecond(input[i]);
      } else {
        j, ch := AppendNext(input, output, Letter((val | (input[i] >> 6)) as bv6), j, ch);
        val := input[i] & 0x3F;
        j, ch := AppendNext(input, output, Letter(val as bv6), j, ch);
      }
    }
  }

  lemma RoomFor(n: nat, i: nat)
    requires i < n
    ensures CharsDone(i + 1) <= EncodedLength(n)
  {
  }

  method CopyTo(output: array<Byte>, j: nat, src: seq<Byte>) returns (j': nat)
    requires j + |src| <= output.Length
    modifies output
    ensures j' == j + |src| && output[..j'] == old(output[..j]) + src
    ensures forall k :: j' <= k < output.Length ==> output[k] == old(output[k])
  {
    for i := 0 to |src|
      invariant output[..j + i] == old(output[..j]) + src[..i]
      invariant forall k :: j + i <= k < output.Length ==> output[k] == old(output[k])
    {
      output[j + i] := src[i];
      assert output[..j + i + 1] == output[..j + i] + [src[i]];
    }
    j' := j + |src|;
    assert src[..|src|] == src;
  }

  lemma Begins(out: seq<Byte>, input: seq<Byte>, j: nat)
    requires j == |BEGIN| <= |out| && out[..j] == BEGIN
    ensures Progress(out, input, j, 0)
  {
    assert Encoded(input)[..0] == [];
  }

  lemma LastFits(n: nat)
    requires n % 3 != 0
    ensures CharsDone(n) + 1 == DataChars(n) <= EncodedLength(n)
  {
  }

  lemma TextSoFar(out: seq<Byte>, input: seq<Byte>, j: nat, ch: nat)
    requires Progress(out, input, j, ch) && ch == DataChars(|input|)
    ensures out[..j] == BEGIN + Wrapped(Encoded(input)[..DataChars(|input|)])
  {
  }

  lemma Gap(n: nat, data: nat)
    requires data == |BEGIN_TEXT| + DataChars(n) + DataChars(n) / LINE * 2
    ensures var gap := OutputLength(n) - 2 - |END_TEXT| - data;
            EncodedLength(n) - DataChars(n) == if gap > 0 then gap else 0
  {
    LinesFilled(n);
    hide EncodedLength, DataChars;
  }

  // The padding loop writes exactly the padding, if there is any.
  lemma PadsFit(input: seq<Byte>, text: seq<Byte>)
    requires text == BEGIN + Wrapped(Encoded(input)[..DataChars(|input|)])
    ensures var n := EncodedLength(|input|) - DataChars(|input|);
            && n == (var gap := OutputLength(|input|) - 2 - |END| - |text|; if gap > 0 then gap else 0)
            && text + seq(n, _ => PAD) + CRLF + END == Written(input)
  {
    var t, c := Encoded(input), DataChars(|input|);
    PaddingOnly(input);
    hide Encoded, EncodedLength, DataChars, Ascii, Wrapped;
    EncodedHasLength(input);
    WrappedLength(t[..c]);
    Gap(|input|, |text|);
  }

  lemma PaddingOnly(input: seq<Byte>)
    ensures Encoded(input)[DataChars(|input|)..] == seq(EncodedLength(|input|) - DataChars(|input|), _ => PAD)
  {
    hide Letter, Sextet, Group;
  }

  // The header and every character that is not padding.
  method WriteData(input: seq<Byte>, output: array<Byte>) returns (j: nat)
    requires OutputLength(|input|) <= output.Length
    modifies output
    ensures j <= output.Length && output[..j] == BEGIN + Wrapped(Encoded(input)[..DataChars(|input|)])
    ensures forall k :: j <= k < output.Length ==> output[k] == old(output[k])
  {
    hide CharAt, Letter, Progress, Ascii, Wrapped, Encoded;
    j := CopyTo(output, 0, BEGIN);
    assert output[..][..j] == output[..j] == BEGIN;
    Begins(output[..], input, j);
    hide OutputLength;
    var val, ch;
    val, j, ch := EncodeLines(input, output, j);
    if |input| % 3 != 0 {
      LastChar(input, val);
      LastFits(|input|);
      j, ch := AppendNext(input, output, Letter(val as bv6), j, ch);
    }
    TextSoFar(output[..], input, j, ch);
    assert output[..][..j] == output[..j];
  }

  method WritePadding(output: array<Byte>, start: nat, limit: int) returns (j: nat)
    requires start <= output.Length && limit <= output.Length
    modifies output
    ensures start <= j <= output.Length && j == if start < limit then limit else start
    ensures output[..j] == old(output[..start]) + seq(j - start, _ => PAD)
    ensures forall k :: j <= k < output.Length ==> output[k] == old(output[k])
  {
    j := start;
    while j < limit
      invariant start <= j <= output.Length && (j <= limit || j == start)
      invariant output[..j] == old(output[..start]) + seq(j - start, _ => PAD)
      invariant forall k :: j <= k < output.Length ==> output[k] == old(output[k])
    {
      output[j] := PAD;
      j := j + 1;
      assert output[..j] == output[..j - 1] + [PAD];
    }
  }

  method Announced(inputLen: nat) returns (n: nat)
    ensures n == OutputLength(inputLen)
  {
    n := inputLen / 3 * 4;
    if inputLen % 3 != 0 {
      n := n + 4;
    }
    n := n + (n + 63) / 64 * 2 + |BEGIN| + |END|;
  }

  // The padding, its line break and the last line.
  method WriteEnd(input: seq<Byte>, output: array<Byte>, start: nat) returns (j: nat)
    requires start <= output.Length && |Written(input)| <= output.Length
    requires output[..start] == BEGIN + Wrapped(Encoded(input)[..DataChars(|input|)])
    modifies output
    ensures j == |Written(input)| && output[..j] == Written(input)
    ensures forall k :: j <= k < output.Length ==> output[k] == old(output[k])
  {
    PemForm(input);
    hide *;
    PadsFit(input, output[..start]);
    j := WritePadding(output, start, OutputLength(|input|) - 2 - |END|);
    j := CopyTo(output, j, CRLF);
    j := CopyTo(output, j, END);
  }

  method Terminate(output: array<Byte>, j: nat)
    requires j < output.Length
    modifies output
    ensures output[j] == 0 && output[..j] == old(output[..j])
    ensures forall k :: j < k < output.Length ==> output[k] == old(output[k])
  {
    output[j] := 0;
  }

  // Returns the number of bytes before the terminator, or -1 when `outputLen` is too small.
  // The text may run two bytes past the announced length: memory has to hold it and the
  // terminator, and they stay inside `outputLen` exactly when that leaves room for both.
  method Serialize(input: seq<Byte>, output: array<Byte>, outputLen: nat) returns (r: int)
    requires outputLen <= output.Length
    requires OutputLength(|input|) <= outputLen ==> |Written(input)| < output.Length
    modifies output
    ensures r == -1 <==> outputLen < OutputLength(|input|)
    ensures r == -1 ==> output[..] == old(output[..])
    ensures r != -1 ==> r == |Written(input)| < output.Length && output[..r] == Written(input) && output[r] == 0
    ensures r != -1 ==> forall k :: r < k < output.Length ==> output[k] == old(output[k])
    ensures r != -1 ==> (r < outputLen <==> OutputLength(|input|) + (if |input| % 48 == 0 then 2 else 0) < outputLen)
  {
    var n := Announced(|input|);
    if outputLen < n {
      return -1;
    }
    PemForm(input);
    hide *;
    if |input| == 0 {
      output[0] := 0;
    }
    var j := WriteData(input, output);
    j := WriteEnd(input, output, j);
    Terminate(output, j);
    r := j;
  }
}
