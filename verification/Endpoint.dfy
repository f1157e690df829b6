/** Endpoints as text (api/oc_endpoint.c): scheme, address and port, printed and read back. */
module Endpoint {
  import opened Payload
  import Ipv6
  import Text

  datatype Address = V4(octets: seq<nat>) | V6(bytes: seq<Ipv6.Byte>)

  datatype Endpoint = Endpoint(tcp: bool, secured: bool, address: Address, port: nat)

  predicate Proper(e: Endpoint) {
    && e.port < 65536
    && match e.address
       case V4(octets) => |octets| == 4 && forall i :: 0 <= i < 4 ==> octets[i] < 256
       case V6(bytes) => |bytes| == Ipv6.SIZE
  }

  // ----- decimal numbers

  predicate IsDigit(c: char) {
    '0' <= c <= '9'
  }

  function DigitOf(v: nat): char
    requires v < 10
  {
    ('0' as int + v) as char
  }

  function Dec(n: nat): (t: string)
    ensures |t| > 0
  {
    if n < 10 then [DigitOf(n)] else Dec(n / 10) + [DigitOf(n % 10)]
  }

  predicate AllDigits(s: string) {
    forall i :: 0 <= i < |s| ==> IsDigit(s[i])
  }

  function Number(s: string): nat
    requires AllDigits(s)
  {
    if s == "" then 0 else Number(s[..|s| - 1]) * 10 + (s[|s| - 1] as int - '0' as int)
  }

  // The leading digits.
  function Digits(s: string): (n: nat)
    ensures n <= |s| && AllDigits(s[..n]) && (n < |s| ==> !IsDigit(s[n]))
  {
    if s == "" || !IsDigit(s[0]) then 0
    else
      var n := Digits(s[1..]);
      assert s[..n + 1] == [s[0]] + s[1..][..n];
      n + 1
  }

  // The largest value of an unsigned long with 64 bits.
  const ULONG_MAX := 0xFFFF_FFFF_FFFF_FFFF

  predicate IsBlank(c: char) {
    c == ' ' || '\t' <= c <= '\r'
  }

  predicate IsSign(c: char) {
    c == '+' || c == '-'
  }

  // The leading blanks.
  function Blanks(s: string): (n: nat)
    ensures n <= |s| && (n < |s| ==> !IsBlank(s[n])) && forall i :: 0 <= i < n ==> IsBlank(s[i])
  {
    if s == "" || !IsBlank(s[0]) then 0 else 1 + Blanks(s[1..])
  }

  // The number at the front of a text and how many characters it takes, as strtoul reads it:
  // behind blanks and a sign; a minus negates modulo the word, and what is too large is the maximum.
  function Strtoul(s: string): (r: (nat, nat))
    ensures r.1 <= |s|
  {
    var b := Blanks(s);
    var k := if b < |s| && IsSign(s[b]) then b + 1 else b;
    var n := Digits(s[k..]);
    if n == 0 then (0, 0) else (Value(Number(s[k..][..n]), k > b && s[b] == '-'), k + n)
  }

  function Value(v: nat, negative: bool): nat {
    if v > ULONG_MAX then ULONG_MAX else if negative && v > 0 then ULONG_MAX + 1 - v else v
  }

  lemma {:induction false} DecReads(n: nat)
    ensures AllDigits(Dec(n)) && Number(Dec(n)) == n
  {
    if n >= 10 {
      DecReads(n / 10);
      assert Dec(n)[..|Dec(n)| - 1] == Dec(n / 10);
    } else {
      assert Dec(n)[..0] == "";
    }
  }

  lemma DigitsOf(t: string, rest: string)
    requires AllDigits(t) && (rest == "" || !IsDigit(rest[0]))
    ensures Digits(t + rest) == |t| && (t + rest)[..|t|] == t && (t + rest)[|t|..] == rest
  {
    hide Digits;
    var s := t + rest;
    var n := Digits(s);
    assert s[..|t|] == t;
    forall i | 0 <= i < |t| ensures IsDigit(s[i]) {
      assert s[i] == t[i];
    }
    forall i | 0 <= i < n ensures IsDigit(s[i]) {
      assert s[..n][i] == s[i];
    }
    assert rest != "" ==> s[|t|] == rest[0];
  }

  // Digits alone are read as the number they stand for.
  lemma StrtoulOf(t: string, rest: string)
    requires AllDigits(t) && t != "" && Number(t) <= ULONG_MAX && (rest == "" || !IsDigit(rest[0]))
    ensures Strtoul(t + rest) == (Number(t), |t|) && (t + rest)[|t|..] == rest
  {
    hide Digits, Number;
    DigitsOf(t, rest);
    var s := t + rest;
    assert s[0] == t[0] && s[0..] == s;
  }

  lemma {:induction false} DecLength(n: nat)
    ensures n < 10 ==> |Dec(n)| == 1
    ensures n < 100 ==> |Dec(n)| <= 2
    ensures n < 1000 ==> |Dec(n)| <= 3
    ensures n < 10000 ==> |Dec(n)| <= 4
    ensures n < 100000 ==> |Dec(n)| <= 5
  {
    if n >= 10 {
      DecLength(n / 10);
    }
  }

  // ----- IPv4 addresses

  function V4Text(octets: seq<nat>): string
    requires |octets| == 4
  {
    Dec(octets[0]) + "." + (Dec(octets[1]) + "." + (Dec(octets[2]) + "." + Dec(octets[3])))
  }

  // Up to four numbers, each with the character behind it; what is missing stays as it was.
  // Where there is no number the source stores 0 and goes on behind the next character.
  function ReadV4(s: string, octets: seq<nat>, k: nat): (r: seq<nat>)
    requires |octets| == 4 && k <= 4
    ensures |r| == 4
    decreases 4 - k
  {
    if k == 4 || s == "" then octets
    else
      var (v, n) := Strtoul(s);
      ReadV4(if n + 1 <= |s| then s[n + 1..] else "", octets[k := v % 256], k + 1)
  }

  lemma ReadUnfolds(s: string, octets: seq<nat>, k: nat)
    requires |octets| == 4 && k < 4 && s != ""
    ensures var (v, n) := Strtoul(s);
            ReadV4(s, octets, k) == ReadV4(if n + 1 <= |s| then s[n + 1..] else "", octets[k := v % 256], k + 1)
  {
    hide Strtoul;
  }

  lemma NumberThenDot(t: string, rest: string)
    requires AllDigits(t) && t != "" && Number(t) <= ULONG_MAX
    ensures var s := t + "." + rest;
            Strtoul(s) == (Number(t), |t|) && |t| + 1 <= |s| && s[|t| + 1..] == rest && s != ""
  {
    hide Strtoul, AllDigits, Number;
    assert t + "." + rest == t + ("." + rest);
    StrtoulOf(t, "." + rest);
  }

  // One number, and the dot behind it.
  lemma ReadOne(v: nat, rest: string, octets: seq<nat>, k: nat)
    requires |octets| == 4 && k < 4 && v < 256
    ensures ReadV4(Dec(v) + "." + rest, octets, k) == ReadV4(rest, octets[k := v], k + 1)
  {
    DecReads(v);
    hide Dec, Strtoul, Number, ReadV4, AllDigits;
    NumberThenDot(Dec(v), rest);
    ReadUnfolds(Dec(v) + "." + rest, octets, k);
  }

  lemma ReadLast(v: nat, octets: seq<nat>)
    requires |octets| == 4 && v < 256
    ensures ReadV4(Dec(v), octets, 3) == octets[3 := v]
  {
    DecReads(v);
    hide Dec, Strtoul, Number;
    StrtoulOf(Dec(v), "");
    assert Dec(v) + "" == Dec(v);
  }

  lemma V4RoundTrip(octets: seq<nat>, memory: seq<nat>)
    requires |octets| == 4 && |memory| == 4 && forall i :: 0 <= i < 4 ==> octets[i] < 256
    ensures ReadV4(V4Text(octets), memory, 0) == octets
  {
    hide Dec, ReadV4;
    var a := memory[0 := octets[0]];
    var b := a[1 := octets[1]];
    var c := b[2 := octets[2]];
    assert c[3 := octets[3]] == octets;
    var t3 := Dec(octets[3]);
    var t2 := Dec(octets[2]) + "." + t3;
    var t1 := Dec(octets[1]) + "." + t2;
    assert V4Text(octets) == Dec(octets[0]) + "." + t1;
    hide V4Text;
    ReadOne(octets[0], t1, memory, 0);
    ReadOne(octets[1], t2, a, 1);
    ReadOne(octets[2], t3, b, 2);
    ReadLast(octets[3], c);
  }

  lemma AllRead(s: string, octets: seq<nat>)
    requires |octets| == 4
    ensures ReadV4(s, octets, 4) == octets
  {
  }

  // ----- schemes

  const COAP := "coap://"
  const COAPS := "coaps://"
  const COAP_TCP := "coap+tcp://"
  const COAPS_TCP := "coaps+tcp://"

  function Scheme(tcp: bool, secured: bool): string {
    if tcp then (if secured then COAPS_TCP else COAP_TCP) else (if secured then COAPS else COAP)
  }

  predicate Begins(t: string, prefix: string) {
    |prefix| <= |t| && t[..|prefix|] == prefix
  }

  // The flags that the scheme stands for.
  function SchemeOf(t: string): Option<(bool, bool)> {
    if Begins(t, COAPS_TCP) then Some((true, true))
    else if Begins(t, COAP_TCP) then Some((true, false))
    else if Begins(t, COAPS) then Some((false, true))
    else if Begins(t, COAP) then Some((false, false))
    else None
  }

  lemma SchemeReads(tcp: bool, secured: bool, rest: string)
    ensures SchemeOf(Scheme(tcp, secured) + rest) == Some((tcp, secured))
  {
    var t := Scheme(tcp, secured) + rest;
    assert Begins(t, Scheme(tcp, secured));
    assert Begins(t, COAPS_TCP) ==> t[4] == 's' && t[5] == '+';
    assert Begins(t, COAP_TCP) ==> t[4] == '+';
    assert Begins(t, COAPS) ==> t[4] == 's' && t[5] == ':';
  }

  // A secured scheme has an "s" behind "coap", a TCP scheme "+tcp" behind that.
  lemma SchemeIsSpelt(tcp: bool, secured: bool)
    ensures Scheme(tcp, secured) == "coap" + (if secured then "s" else "") + (if tcp then "+tcp" else "") + "://"
  {
  }

  // The flags read off a text are those whose scheme stands there, spelt like that.
  lemma SchemeIsRead(t: string, tcp: bool, secured: bool)
    ensures SchemeOf(t) == Some((tcp, secured))
       <==> Begins(t, "coap" + (if secured then "s" else "") + (if tcp then "+tcp" else "") + "://")
  {
    SchemeIsSpelt(tcp, secured);
    var scheme := Scheme(tcp, secured);
    if Begins(t, scheme) {
      SchemeReads(tcp, secured, t[|scheme|..]);
      assert scheme + t[|scheme|..] == t;
    }
  }

  // ----- whole endpoints

  ghost predicate IsEndpointText(e: Endpoint, t: string)
    requires Proper(e)
  {
    match e.address
    case V4(octets) => t == Scheme(e.tcp, e.secured) + V4Text(octets) + ":" + Dec(e.port)
    case V6(bytes) =>
      exists s :: Ipv6.IsText(bytes, s) && t == Scheme(e.tcp, e.secured) + ("[" + s + "]") + ":" + Dec(e.port)
  }

  lemma SomeNumbers()
    ensures Dec(192) == "192" && Dec(168) == "168" && Dec(0) == "0" && Dec(10) == "10" && Dec(5683) == "5683" && Dec(5684) == "5684"
  {
    assert Dec(1) == "1" && Dec(5) == "5";
    assert Dec(19) == "19" && Dec(16) == "16" && Dec(56) == "56";
    assert Dec(568) == "568";
  }

  // One endpoint of each family spelt out: the order of the parts, of the numbers and of their digits.
  lemma V4TextExample(t: string)
    ensures IsEndpointText(Endpoint(false, true, V4([192, 168, 0, 10]), 5684), t) <==> t == "coaps://192.168.0.10:5684"
  {
    SomeNumbers();
    hide Dec;
    assert V4Text([192, 168, 0, 10]) == "192.168.0.10";
    assert Scheme(false, true) == "coaps://";
    hide V4Text, Scheme;
    assert "coaps://" + "192.168.0.10" + ":" + "5684" == "coaps://192.168.0.10:5684";
  }

  lemma V6TextIs(e: Endpoint, s: string, t: string)
    requires Proper(e) && e.address.V6? && forall x :: Ipv6.IsText(e.address.bytes, x) <==> x == s
    ensures IsEndpointText(e, t) <==> t == Scheme(e.tcp, e.secured) + ("[" + s + "]") + ":" + Dec(e.port)
  {
    hide Ipv6.IsText, Dec, Scheme;
    assert Ipv6.IsText(e.address.bytes, s);
  }

  lemma LocalIsProper()
    ensures |Ipv6.LOCAL| == Ipv6.SIZE && Proper(Endpoint(true, false, V6(Ipv6.LOCAL), 5683))
  {
  }

  lemma V6TextJoined()
    ensures Scheme(true, false) + ("[" + "fe80::20f:ab" + "]") + ":" + Dec(5683) == "coap+tcp://[fe80::20f:ab]:5683"
  {
    assert Scheme(true, false) == "coap+tcp://";
    SomeNumbers();
    hide Dec, Scheme;
    assert "coap+tcp://" + ("[" + "fe80::20f:ab" + "]") + ":" + "5683" == "coap+tcp://[fe80::20f:ab]:5683";
  }

  lemma V6TextExample(t: string)
    ensures IsEndpointText(Endpoint(true, false, V6(Ipv6.LOCAL), 5683), t) <==> t == "coap+tcp://[fe80::20f:ab]:5683"
  {
    hide *;
    LocalIsProper();
    var e := Endpoint(true, false, V6(Ipv6.LOCAL), 5683);
    forall x ensures Ipv6.IsText(Ipv6.LOCAL, x) <==> x == "fe80::20f:ab" {
      Ipv6.LocalText(x);
    }
    V6TextIs(e, "fe80::20f:ab", t);
    V6TextJoined();
  }

  // What reading a text comes to: `Undefined` where the source looks outside the text,
  // `Failed` where it returns -1, `Endless` where its loop does not end.
  datatype Outcome = Undefined | Failed | Endless | Read(endpoint: Endpoint, uri: string)

  function LastIndex(s: string, c: char): (k: int)
    ensures -1 <= k < |s| && (k >= 0 ==> s[k] == c) && forall j :: k < j < |s| ==> s[j] != c
  {
    if s == "" then -1 else if s[|s| - 1] == c then |s| - 1 else LastIndex(s[..|s| - 1], c)
  }

  predicate IsLetter(c: char) {
    'A' <= c <= 'Z' || 'a' <= c <= 'z'
  }

  // A host name would be looked up; without that service the source gives up.
  function ReadAddress(address: string, memory: seq<nat>): Option<Option<Address>>
    requires address != "" && |memory| == 4
  {
    var last := address[|address| - 1];
    if IsLetter(last) then Some(None)
    else if address[0] == '[' && last == ']' then
      Ipv6.ParseShape(address[1..|address| - 1], [], -1);
      match Ipv6.Parse(address[1..|address| - 1], [], -1)
      case Stuck => None
      case Done(out, split) => Some(Some(V6(Ipv6.Expand(out, split))))
    else Some(Some(V4(ReadV4(address, memory, 0))))
  }

  function ReadEndpoint(t: string, memory: seq<nat>): Outcome
    requires |memory| == 4
  {
    var flags := SchemeOf(t);
    if flags.None? then Failed
    else
      var colon, slash := LastIndex(t, ':'), Text.Index(t, '/');
      if colon <= slash + 2 then Undefined
      else
        var rest := t[colon + 1..];
        var (port, n) := Strtoul(rest);
        match ReadAddress(t[slash + 2..colon], memory)
        case None => Endless
        case Some(None) => Failed
        case Some(Some(address)) =>
          Read(Endpoint(flags.value.0, flags.value.1, address, port % 65536), rest[n..])
  }

  // ----- texts on which reading does not end

  // A bracketed host in which a segment of more than four characters comes too early.
  predicate Hangs(t: string) {
    var colon, slash := LastIndex(t, ':'), Text.Index(t, '/');
    && SchemeOf(t).Some? && slash + 2 < colon
    && var host := t[slash + 2..colon];
    && host[0] == '[' && host[|host| - 1] == ']'
    && Ipv6.TooLong(Ipv6.Segments(host[1..|host| - 1]), Ipv6.GROUPS)
  }

  lemma EndlessExactly(t: string, memory: seq<nat>)
    requires |memory| == 4
    ensures ReadEndpoint(t, memory) == Endless <==> Hangs(t)
  {
    hide Strtoul, SchemeOf, LastIndex, Text.Index, ReadV4, Ipv6.Parse, Ipv6.Segments, Ipv6.TooLong, Ipv6.Expand;
    var colon, slash := LastIndex(t, ':'), Text.Index(t, '/');
    if slash + 2 < colon {
      var host := t[slash + 2..colon];
      if host[0] == '[' && host[|host| - 1] == ']' {
        Ipv6.StuckExactly(host[1..|host| - 1], [], -1);
      }
    }
  }

  // ----- the round trip

  lemma NoColonInDec(n: nat)
    ensures forall i :: 0 <= i < |Dec(n)| ==> Dec(n)[i] != ':'
  {
    DecReads(n);
  }

  lemma LastIndexIs(front: string, back: string)
    requires forall i :: 0 <= i < |back| ==> back[i] != ':'
    ensures LastIndex(front + ":" + back, ':') == |front|
  {
    hide LastIndex;
    var s := front + ":" + back;
    var k := LastIndex(s, ':');
    assert s[|front|] == ':';
    forall i | |front| < i < |s| ensures s[i] != ':' {
      assert s[i] == back[i - |front| - 1];
    }
  }

  lemma SlashOf(tcp: bool, secured: bool, rest: string)
    ensures Text.Index(Scheme(tcp, secured) + rest, '/') + 2 == |Scheme(tcp, secured)|
  {
    hide Text.Index;
    var scheme := Scheme(tcp, secured);
    var t := scheme + rest;
    var k := Text.Index(t, '/');
    assert t[|scheme| - 2] == scheme[|scheme| - 2] == '/';
    assert forall i :: 0 <= i < |scheme| - 2 ==> t[i] == scheme[i] && scheme[i] != '/';
  }

  // The parts of a printed endpoint are where the parser looks for them.
  lemma Parts(tcp: bool, secured: bool, host: string, port: nat, t: string)
    requires host != "" && t == Scheme(tcp, secured) + host + ":" + Dec(port)
    ensures SchemeOf(t) == Some((tcp, secured))
    ensures var colon, slash := LastIndex(t, ':'), Text.Index(t, '/');
            slash + 2 < colon && t[slash + 2..colon] == host && t[colon + 1..] == Dec(port)
  {
    var scheme := Scheme(tcp, secured);
    hide Scheme, Dec, SchemeOf, LastIndex, Text.Index;
    NoColonInDec(port);
    LastIndexIs(scheme + host, Dec(port));
    assert t == scheme + (host + ":" + Dec(port));
    SchemeReads(tcp, secured, host + ":" + Dec(port));
    SlashOf(tcp, secured, host + ":" + Dec(port));
  }

  lemma PortReads(port: nat)
    requires port < 65536
    ensures var t := Dec(port); Strtoul(t) == (port, |t|) && t[|t|..] == ""
  {
    DecReads(port);
    hide Dec, Strtoul, Number;
    StrtoulOf(Dec(port), "");
    assert Dec(port) + "" == Dec(port);
  }

  lemma V4Ends(octets: seq<nat>)
    requires |octets| == 4
    ensures V4Text(octets) != "" && V4Text(octets)[0] != '[' && !IsLetter(V4Text(octets)[|V4Text(octets)| - 1])
  {
    DecReads(octets[0]);
    DecReads(octets[3]);
    var last := Dec(octets[3]);
    assert V4Text(octets)[0] == Dec(octets[0])[0];
    assert V4Text(octets)[|V4Text(octets)| - 1] == last[|last| - 1];
  }

  // What is printed is read back: always for IPv4, and for IPv6 exactly when the zero groups lie together.
  lemma EndpointRoundTrip(e: Endpoint, t: string, memory: seq<nat>)
    requires Proper(e) && IsEndpointText(e, t) && |memory| == 4
    ensures ReadEndpoint(t, memory) == Read(e, "") <==> (e.address.V6? ==> Ipv6.OneRun(e.address.bytes))
    ensures ReadEndpoint(t, memory).Read?
  {
    hide IsEndpointText, ReadEndpoint;
    if e.address.V4? {
      V4EndpointTrip(e, t, memory);
    } else {
      V6EndpointTrip(e, t, memory);
    }
  }

  // The port and the flags are always read back; the address is what its reader makes of it.
  lemma HostReads(e: Endpoint, host: string, t: string, memory: seq<nat>)
    requires Proper(e) && |memory| == 4 && host != "" && t == Scheme(e.tcp, e.secured) + host + ":" + Dec(e.port)
    requires ReadAddress(host, memory).Some? && ReadAddress(host, memory).value.Some?
    ensures ReadEndpoint(t, memory) == Read(e.(address := ReadAddress(host, memory).value.value), "")
  {
    hide Dec, Strtoul, SchemeOf, Scheme, LastIndex, Text.Index, ReadAddress;
    PortReads(e.port);
    Parts(e.tcp, e.secured, host, e.port, t);
  }

  // On a bracketed host reading does not end exactly when a segment is too long, too early.
  lemma BracketedHostHangs(e: Endpoint, inside: string, t: string, memory: seq<nat>)
    requires |memory| == 4 && t == Scheme(e.tcp, e.secured) + ("[" + inside + "]") + ":" + Dec(e.port)
    ensures ReadEndpoint(t, memory) == Endless <==> Ipv6.TooLong(Ipv6.Segments(inside), Ipv6.GROUPS)
  {
    hide ReadEndpoint, Dec, SchemeOf, Scheme, LastIndex, Text.Index, Ipv6.Segments, Ipv6.TooLong;
    EndlessExactly(t, memory);
    var host := "[" + inside + "]";
    Parts(e.tcp, e.secured, host, e.port, t);
    InBrackets(inside);
    BracketsHang(t, host, inside);
  }

  lemma InBrackets(inside: string)
    ensures var host := "[" + inside + "]";
            |host| >= 2 && host[0] == '[' && host[|host| - 1] == ']' && host[1..|host| - 1] == inside
  {
  }

  lemma BracketsHang(t: string, host: string, inside: string)
    requires SchemeOf(t).Some?
    requires var colon, slash := LastIndex(t, ':'), Text.Index(t, '/'); slash + 2 < colon && t[slash + 2..colon] == host
    requires |host| >= 2 && host[0] == '[' && host[|host| - 1] == ']' && host[1..|host| - 1] == inside
    ensures Hangs(t) <==> Ipv6.TooLong(Ipv6.Segments(inside), Ipv6.GROUPS)
  {
    hide SchemeOf, LastIndex, Text.Index, Ipv6.Segments, Ipv6.TooLong;
  }

  lemma EndlessExample(memory: seq<nat>)
    requires |memory| == 4
    ensures ReadEndpoint("coap://[12345]:1", memory) == Endless
  {
    hide ReadEndpoint, Ipv6.Parse, Ipv6.Segments;
    Ipv6.StuckExample();
    Ipv6.StuckExactly("12345", [], -1);
    assert Dec(1) == "1";
    BracketedHostHangs(Endpoint(false, false, V4([]), 1), "12345", "coap://[12345]:1", memory);
  }

  lemma V4EndpointTrip(e: Endpoint, t: string, memory: seq<nat>)
    requires Proper(e) && e.address.V4? && IsEndpointText(e, t) && |memory| == 4
    ensures ReadEndpoint(t, memory) == Read(e, "")
  {
    var host := V4Text(e.address.octets);
    V4Ends(e.address.octets);
    V4RoundTrip(e.address.octets, memory);
    hide Dec, Scheme, V4Text, ReadV4, ReadEndpoint;
    HostReads(e, host, t, memory);
  }

  lemma V6EndpointTrip(e: Endpoint, t: string, memory: seq<nat>)
    requires Proper(e) && e.address.V6? && IsEndpointText(e, t) && |memory| == 4
    ensures ReadEndpoint(t, memory).Read?
    ensures ReadEndpoint(t, memory) == Read(e, "") <==> Ipv6.OneRun(e.address.bytes)
  {
    hide Dec, Scheme, ReadEndpoint, Ipv6.Parse, Ipv6.OneRun, Ipv6.IsText, Ipv6.Expand;
    var s :| Ipv6.IsText(e.address.bytes, s) && t == Scheme(e.tcp, e.secured) + ("[" + s + "]") + ":" + Dec(e.port);
    var host := "[" + s + "]";
    assert host[1..|host| - 1] == s;
    Ipv6.RoundTrip(e.address.bytes, s);
    HostReads(e, host, t, memory);
  }

  const TWO_RUNS: seq<Ipv6.Byte> := [0, 1, 0, 0, 0, 2, 0, 0, 0, 0, 0, 3, 0, 4, 0, 5]

  lemma TwoRunsApart()
    ensures !Ipv6.OneRun(TWO_RUNS)
  {
    assert Ipv6.Zero(TWO_RUNS, 1) && !Ipv6.Zero(TWO_RUNS, 2) && Ipv6.Zero(TWO_RUNS, 3);
  }

  // With two runs of zero groups the address read back is another one: here 1:0:2:0:0:3:4:5.
  lemma TwoRunsExample(t: string, memory: seq<nat>)
    requires |memory| == 4 && IsEndpointText(Endpoint(false, false, V6(TWO_RUNS), 5683), t)
    ensures ReadEndpoint(t, memory) != Read(Endpoint(false, false, V6(TWO_RUNS), 5683), "")
  {
    TwoRunsApart();
    hide IsEndpointText, ReadEndpoint, Ipv6.OneRun;
    EndpointRoundTrip(Endpoint(false, false, V6(TWO_RUNS), 5683), t, memory);
  }

  // ----- the code

  method PrintV4(octets: seq<nat>, port: nat) returns (text: string)
    requires |octets| == 4 && (forall i :: 0 <= i < 4 ==> octets[i] < 256) && port < 65536
    ensures text == V4Text(octets) + ":" + Dec(port)
  {
    hide Dec;
    var ip := new char[22];
    var j: nat := 0;
    for i := 0 to 4
      invariant j <= 4 * i <= ip.Length && ip[..j] == Dots(octets, i)
    {
      DecLength(octets[i]);
      j := Ipv6.Put(ip, j, Dec(octets[i]));
      j := Ipv6.Put(ip, j, if i < 3 then "." else ":");
    }
    DecLength(port);
    j := Ipv6.Put(ip, j, Dec(port));
    text := ip[..j];
    DotsAreText(octets, port);
  }

  // The first i numbers, each with the character behind it.
  function Dots(octets: seq<nat>, i: nat): string
    requires |octets| == 4 && i <= 4
  {
    if i == 0 then "" else Dots(octets, i - 1) + Dec(octets[i - 1]) + if i < 4 then "." else ":"
  }

  lemma DotsAreText(octets: seq<nat>, port: nat)
    requires |octets| == 4
    ensures Dots(octets, 4) + Dec(port) == V4Text(octets) + ":" + Dec(port)
  {
    hide Dec;
    var a, b, c, d := Dec(octets[0]), Dec(octets[1]), Dec(octets[2]), Dec(octets[3]);
    assert Dots(octets, 1) == a + ".";
    assert Dots(octets, 2) == a + "." + b + ".";
    assert Dots(octets, 3) == a + "." + b + "." + c + ".";
    assert Dots(octets, 4) == a + "." + b + "." + c + "." + d + ":";
    assert V4Text(octets) == a + "." + b + "." + c + "." + d;
  }

  // Fits its buffer for every address and port.
  method PrintV6(bytes: seq<Ipv6.Byte>, port: nat) returns (text: string)
    requires |bytes| == Ipv6.SIZE && port < 65536
    ensures exists s :: Ipv6.IsText(bytes, s) && text == ("[" + s + "]") + ":" + Dec(port)
  {
    hide Dec, Ipv6.IsText;
    var ip := new char[Ipv6.BUFFER];
    var j := Ipv6.PrintAddress(bytes, ip);
    ghost var s := ip[1..j];
    assert ip[..j] == "[" + s;
    DecLength(port);
    j := Ipv6.Put(ip, j, "]:");
    assert ip[..j] == "[" + s + "]:";
    j := Ipv6.Put(ip, j, Dec(port));
    text := ip[..j];
    assert "[" + s + "]:" + Dec(port) == ("[" + s + "]") + ":" + Dec(port);
  }

  method Print(e: Endpoint) returns (t: string)
    requires Proper(e)
    ensures IsEndpointText(e, t)
  {
    hide Dec, Scheme, V4Text, Ipv6.IsText;
    var scheme := Scheme(e.tcp, e.secured);
    match e.address {
      case V4(octets) =>
        var text := PrintV4(octets, e.port);
        t := scheme + text;
        assert t == scheme + V4Text(octets) + ":" + Dec(e.port);
      case V6(bytes) =>
        var text := PrintV6(bytes, e.port);
        ghost var s :| Ipv6.IsText(bytes, s) && text == ("[" + s + "]") + ":" + Dec(e.port);
        t := scheme + text;
        assert t == scheme + ("[" + s + "]") + ":" + Dec(e.port);
    }
  }

  method ReadNumber(s: string, i: nat) returns (v: nat, n: nat)
    requires i <= |s|
    ensures (v, n) == Strtoul(s[i..])
  {
    hide Digits, Number, Value, Blanks;
    ghost var r := s[i..];
    assert forall j :: 0 <= j < |r| ==> r[j] == s[i + j];
    var b := CountBlanks(s, i);
    var k := if i + b < |s| && IsSign(s[i + b]) then b + 1 else b;
    var digits: nat;
    digits, v := CountDigits(s, i + k);
    assert r[k..] == s[i + k..];
    if digits == 0 {
      return 0, 0;
    }
    v, n := Value(v, k > b && s[i + b] == '-'), k + digits;
  }

  method CountBlanks(s: string, i: nat) returns (b: nat)
    requires i <= |s|
    ensures b == Blanks(s[i..])
  {
    hide Blanks;
    b := 0;
    while i + b < |s| && IsBlank(s[i + b])
      invariant i + b <= |s| && forall j :: 0 <= j < b ==> IsBlank(s[i..][j])
    {
      b := b + 1;
    }
    ghost var n := Blanks(s[i..]);
  }

  method CountDigits(s: string, i: nat) returns (n: nat, v: nat)
    requires i <= |s|
    ensures n == Digits(s[i..]) && v == Number(s[i..][..n])
  {
    n, v := 0, 0;
    while i + n < |s| && IsDigit(s[i + n])
      invariant i + n <= |s| && AllDigits(s[i..][..n]) && v == Number(s[i..][..n])
    {
      assert s[i..][..n + 1] == s[i..][..n] + [s[i + n]];
      v := v * 10 + (s[i + n] as int - '0' as int);
      n := n + 1;
    }
    DigitsOf(s[i..][..n], s[i + n..]);
    assert s[i..][..n] + s[i + n..] == s[i..];
  }

  method ParseV4(text: string, memory: seq<nat>) returns (octets: seq<nat>)
    requires |memory| == 4
    ensures octets == ReadV4(text, memory, 0)
  {
    hide Strtoul;
    var addr := new nat[4](i requires 0 <= i < 4 => memory[i]);
    var i: nat, k: nat := 0, 0;
    assert text[0..] == text && addr[..] == memory;
    while k < 4 && i < |text|
      invariant k <= 4
      invariant ReadV4(text, memory, 0) == ReadV4(if i <= |text| then text[i..] else "", addr[..], k)
      decreases 4 - k
    {
      var v, n := ReadNumber(text, i);
      ghost var before := addr[..];
      addr[k] := v % 256;
      assert addr[..] == before[k := v % 256];
      assert n + 1 <= |text[i..]| ==> text[i..][n + 1..] == text[i + n + 1..];
      k := k + 1;
      if k < 4 {
        i := i + n + 1;
      } else {
        AllRead(if n + 1 <= |text[i..]| then text[i..][n + 1..] else "", addr[..]);
        AllRead(text[i..], addr[..]);
      }
    }
    octets := addr[..];
  }

  method FindLast(t: string, c: char) returns (k: int)
    ensures k == LastIndex(t, c)
  {
    hide LastIndex;
    k := |t| - 1;
    while k >= 0 && t[k] != c
      invariant -1 <= k < |t| && forall j :: k < j < |t| ==> t[j] != c
    {
      k := k - 1;
    }
    ghost var i := LastIndex(t, c);
  }

  method ParseAddress(address: string, memory: seq<nat>) returns (r: Option<Option<Address>>)
    requires address != "" && |memory| == 4
    ensures r == ReadAddress(address, memory)
  {
    hide Ipv6.Parse, Ipv6.Segments, Ipv6.TooLong, ReadV4;
    var last := address[|address| - 1];
    if IsLetter(last) {
      return Some(None);
    }
    if address[0] == '[' && last == ']' {
      var addr := new Ipv6.Byte[16];
      var ok := Ipv6.ParseAddress(address[1..|address| - 1], addr);
      if !ok {
        Ipv6.StuckExactly(address[1..|address| - 1], [], -1);
        return None;
      }
      r := Some(Some(V6(addr[..])));
    } else {
      var octets := ParseV4(address, memory);
      r := Some(Some(V4(octets)));
    }
  }

  // `memory` is what the address bytes of an IPv4 endpoint hold before.
  method ParseEndpoint(t: string, memory: seq<nat>) returns (o: Outcome)
    requires |memory| == 4
    ensures o == ReadEndpoint(t, memory)
    ensures o == Endless <==> Hangs(t)
  {
    hide Strtoul, SchemeOf, LastIndex, Text.Index, ReadAddress, Hangs;
    EndlessExactly(t, memory);
    var flags := SchemeOf(t);
    if flags.None? {
      return Failed;
    }
    var colon := FindLast(t, ':');
    var slash := Text.FindChar(t, '/');
    if colon <= slash + 2 {
      return Undefined;
    }
    var port, n := ReadNumber(t, colon + 1);
    var address := ParseAddress(t[slash + 2..colon], memory);
    match address {
      case None =>
        return Endless;
      case Some(None) =>
        return Failed;
      case Some(Some(a)) =>
        o := Read(Endpoint(flags.value.0, flags.value.1, a, port % 65536), t[colon + 1..][n..]);
    }
  }
}
