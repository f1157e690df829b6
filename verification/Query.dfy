/** Queries of key=value pairs: splitting (api/oc_ri.c), iteration (api/oc_server_api.c)
    and the resource type filter built on it (api/oc_core_res.c). */
module Query {
  import opened Payload
  import opened Text

  // ----- well-formed queries

  datatype Pair = Pair(key: string, value: string)

  predicate Proper(p: Pair) {
    '=' !in p.key && '&' !in p.key && '&' !in p.value
  }

  predicate AllProper(ps: seq<Pair>) {
    forall i :: 0 <= i < |ps| ==> Proper(ps[i])
  }

  function Show(p: Pair): string {
    p.key + "=" + p.value
  }

  function Join(ps: seq<Pair>): string
    decreases |ps|, 1
  {
    if ps == [] then "" else Show(ps[0]) + Tail(ps)
  }

  // The text after the first pair.
  function Tail(ps: seq<Pair>): string
    requires ps != []
    decreases |ps|, 0
  {
    if |ps| == 1 then "" else ['&'] + Join(ps[1..])
  }

  // Two pairs as text.
  lemma JoinExample()
    ensures Join([Pair("rt", "x.y"), Pair("if", "")]) == "rt=x.y&if="
  {
    var ps := [Pair("rt", "x.y"), Pair("if", "")];
    assert ps[1..] == [Pair("if", "")];
    assert Join(ps[1..]) == "if=";
    assert Tail(ps) == "&if=";
  }

  // ----- splitting

  // A pair that was found, and where the text after it begins.
  datatype Hit = Hit(key: string, value: string, next: nat)

  // The pair at the start of a text: up to the first '=', then up to the next '&'.
  function PairOf(s: string): (h: Option<Hit>)
    ensures h.Some? ==> 0 < h.value.next <= |s| + 1
  {
    var e := Index(s, '=');
    if e == |s| then None
    else
      var v := Index(s[e + 1..], '&');
      Some(Hit(s[..e], s[e + 1..][..v], e + 1 + v + 1))
  }

  // What follows the first n '&'.
  function Skip(s: string, n: nat): (r: Option<nat>)
    ensures r.Some? ==> n <= r.value <= |s|
    decreases n
  {
    if n == 0 then Some(0)
    else
      var k := Index(s, '&');
      if k == |s| then None
      else
        var r := Skip(s[k + 1..], n - 1);
        if r.None? then None else Some(k + 1 + r.value)
  }

  // The n-th pair, counting from 1; its `next` counts from the start of the query.
  function Nth(s: string, n: nat): (h: Option<Hit>)
    requires n > 0
    ensures h.Some? ==> n <= |s| + 1
  {
    var start := Skip(s, n - 1);
    if start.None? then None
    else
      var h := PairOf(s[start.value..]);
      if h.None? then None else Some(h.value.(next := start.value + h.value.next))
  }

  // A text begins with a pair: up to the first '=', then up to the next '&' or the end.
  predicate BeginsWith(s: string, key: string, value: string) {
    && '=' !in key && '&' !in value && key + "=" + value <= s
    && (|s| == |key| + 1 + |value| || s[|key| + 1 + |value|] == '&')
  }

  lemma BeginsOnce(s: string, key: string, value: string)
    requires BeginsWith(s, key, value)
    ensures Index(s, '=') == |key| < |s| && key == s[..|key|]
    ensures var rest := s[|key| + 1..]; Index(rest, '&') == |value| && rest[..|value|] == value
  {
    hide Index;
    var text := s[..|key| + 1 + |value|];
    assert text == key + "=" + value;
    assert s[|key|] == text[|key|] == '=';
    assert s[..|key|] == text[..|key|] == key;
    var rest := s[|key| + 1..];
    assert rest[..|value|] == value;
    assert forall j :: 0 <= j < |value| ==> rest[j] == value[j];
  }

  lemma PairExactly(s: string, key: string, value: string)
    ensures (PairOf(s).Some? && PairOf(s).value.key == key && PairOf(s).value.value == value) <==> BeginsWith(s, key, value)
    ensures PairOf(s).None? <==> '=' !in s
  {
    if BeginsWith(s, key, value) {
      BeginsOnce(s, key, value);
    }
    var e := Index(s, '=');
    if e < |s| {
      var rest := s[e + 1..];
      var v := Index(rest, '&');
      assert s[..e] + "=" + rest[..v] == s[..e + 1 + v];
      assert e + 1 + v < |s| ==> s[e + 1 + v] == rest[v];
    }
  }

  function Ampersands(s: string): nat {
    if s == "" then 0 else (if s[0] == '&' then 1 else 0) + Ampersands(s[1..])
  }

  lemma {:induction false} AmpersandsJoin(a: string, b: string)
    ensures Ampersands(a + b) == Ampersands(a) + Ampersands(b)
  {
    if a == "" {
      assert a + b == b;
    } else {
      assert (a + b)[1..] == a[1..] + b;
      AmpersandsJoin(a[1..], b);
    }
  }

  lemma {:induction false} NoAmpersandIn(s: string)
    ensures Ampersands(s) == 0 <==> '&' !in s
  {
    if s != "" {
      NoAmpersandIn(s[1..]);
      assert s == [s[0]] + s[1..];
    }
  }

  // The n-th pair begins behind the n-th '&' of the text, whatever stands before it.
  lemma {:induction false} SkipExactly(s: string, n: nat, k: nat)
    requires k <= |s|
    ensures Skip(s, n) == Some(k) <==> Ampersands(s[..k]) == n && (k == 0 || s[k - 1] == '&')
    decreases n
  {
    hide Index, Ampersands;
    var i := Index(s, '&');
    NoAmpersandIn(s[..k]);
    if n > 0 && k > i {
      SkipExactly(s[i + 1..], n - 1, k - i - 1);
      hide Skip;
      FirstAmpersand(s, i, k);
    }
  }

  lemma FirstAmpersand(s: string, i: nat, k: nat)
    requires i < k <= |s| && s[i] == '&' && '&' !in s[..i]
    ensures Ampersands(s[..k]) == 1 + Ampersands(s[i + 1..][..k - i - 1])
    ensures k > i + 1 ==> s[k - 1] == s[i + 1..][k - i - 2]
  {
    var rest := s[i + 1..][..k - i - 1];
    assert s[..k] == s[..i] + ("&" + rest) && ("&" + rest)[1..] == rest;
    NoAmpersandIn(s[..i]);
    AmpersandsJoin(s[..i], "&" + rest);
  }

  lemma SkipOne(s: string, start: nat, m: nat)
    requires start <= |s| && m > 0
    ensures var k := start + Index(s[start..], '&');
            var r := if k == |s| then None else Skip(s[k + 1..], m - 1);
            Skip(s[start..], m) == if r.None? then None else Some(k + 1 - start + r.value)
  {
    hide Index;
    var k := start + Index(s[start..], '&');
    if k < |s| {
      assert s[start..][k - start + 1..] == s[k + 1..];
    }
  }

  method SkipPairs(query: string, n: nat) returns (start: Option<nat>)
    ensures start == Skip(query, n)
  {
    hide Index, Skip;
    var i: nat, k: nat := 0, 0;
    Here(query, 0);
    while i < n
      invariant i <= n && k <= |query|
      invariant Skip(query, n) == (var r := Skip(query[k..], n - i); if r.None? then None else Some(k + r.value))
    {
      var offset := FindChar(query[k..], '&');
      var current := k + offset;
      SkipOne(query, k, n - i);
      if current == |query| {
        return None;
      }
      i, k := i + 1, current + 1;
    }
    SkipNone(query[k..]);
    start := Some(k);
  }

  lemma SkipNone(s: string)
    ensures Skip(s, 0) == Some(0)
  {
  }

  method ReadPair(query: string, start: nat) returns (h: Option<Hit>)
    requires start <= |query|
    ensures var p := PairOf(query[start..]); h == if p.None? then None else Some(p.value.(next := start + p.value.next))
  {
    hide Index;
    var length := FindChar(query[start..], '=');
    var e := start + length;
    if e == |query| {
      return None;
    }
    length := FindChar(query[e + 1..], '&');
    var v := e + 1 + length;
    assert query[start..][..e - start] == query[start..e];
    assert query[start..][e - start + 1..] == query[e + 1..];
    assert query[e + 1..][..v - e - 1] == query[e + 1..v];
    h := Some(Hit(query[start..e], query[e + 1..v], v + 1));
  }

  // The source returns -1 where this returns None.
  method GetNthKeyValue(query: string, n: nat) returns (h: Option<Hit>)
    requires n > 0
    ensures h == Nth(query, n)
  {
    hide Index, Skip, PairOf;
    var start := SkipPairs(query, n - 1);
    if start.None? {
      return None;
    }
    h := ReadPair(query, start.value);
  }

  lemma Here(s: string, k: nat)
    requires k <= |s|
    ensures s[0..] == s && s[k..][0..] == s[k..]
  {
  }

  // ----- splitting what was joined

  lemma IndexAt(a: string, c: char, b: string)
    requires c !in a
    ensures Index(a + [c] + b, c) == |a|
    ensures Index(a, c) == |a|
  {
    var s := a + [c] + b;
    assert s[|a|] == c;
    assert forall j :: 0 <= j < |a| ==> s[j] == a[j];
  }

  lemma Regroup(key: string, value: string, tail: string)
    ensures (key + "=" + value) + tail == key + ['='] + (value + tail)
  {
  }

  lemma JoinSplits(ps: seq<Pair>)
    requires ps != []
    ensures Join(ps) == Show(ps[0]) + Tail(ps) == ps[0].key + ['='] + (ps[0].value + Tail(ps))
  {
    hide Tail;
    Regroup(ps[0].key, ps[0].value, Tail(ps));
  }

  lemma PairOfText(key: string, value: string, tail: string)
    requires '=' !in key && '&' !in value && (tail == "" || tail[0] == '&')
    ensures PairOf(key + ['='] + (value + tail)) == Some(Hit(key, value, |key| + 1 + |value| + 1))
  {
    hide Index;
    var s := key + ['='] + (value + tail);
    IndexAt(key, '=', value + tail);
    assert s[..|key|] == key && s[|key| + 1..] == value + tail;
    if tail == "" {
      IndexAt(value, '&', "");
      assert value + tail == value;
    } else {
      IndexAt(value, '&', tail[1..]);
      assert value + tail == value + ['&'] + tail[1..];
    }
    assert (value + tail)[..|value|] == value;
  }

  // The first pair of a query, and what is left after it.
  lemma JoinHead(ps: seq<Pair>)
    requires AllProper(ps) && ps != []
    ensures PairOf(Join(ps)) == Some(Hit(ps[0].key, ps[0].value, |Show(ps[0])| + 1))
    ensures |ps| > 1 ==> |Show(ps[0])| < |Join(ps)| && Join(ps)[|Show(ps[0])| + 1..] == Join(ps[1..])
  {
    hide Index, Join, PairOf;
    JoinSplits(ps);
    PairOfText(ps[0].key, ps[0].value, Tail(ps));
  }

  lemma JoinAmpersand(ps: seq<Pair>)
    requires AllProper(ps) && ps != []
    ensures Index(Join(ps), '&') == |Show(ps[0])| && (|ps| == 1 <==> |Show(ps[0])| == |Join(ps)|)
  {
    hide Index, Join;
    var t := Show(ps[0]);
    assert '&' !in t by {
      assert forall i :: 0 <= i < |t| ==> t[i] in ps[0].key || t[i] == '=' || t[i] in ps[0].value;
    }
    JoinSplits(ps);
    if |ps| == 1 {
      IndexAt(t, '&', "");
      assert Join(ps) == t;
    } else {
      IndexAt(t, '&', Join(ps[1..]));
      assert Join(ps) == t + ['&'] + Join(ps[1..]);
    }
  }

  lemma SkipUnfolds(s: string, n: nat)
    requires n > 0
    ensures var k := Index(s, '&');
            Skip(s, n) == if k == |s| || Skip(s[k + 1..], n - 1).None? then None
                          else Some(k + 1 + Skip(s[k + 1..], n - 1).value)
  {
    hide Index;
  }

  lemma SkipFirst(ps: seq<Pair>, n: nat)
    requires AllProper(ps) && |ps| > 1 && n > 0
    ensures var r, k := Skip(Join(ps[1..]), n - 1), |Show(ps[0])| + 1;
            && Skip(Join(ps), n) == (if r.None? then None else Some(k + r.value))
            && (r.Some? ==> Join(ps)[k + r.value..] == Join(ps[1..])[r.value..])
  {
    hide Index, Join, Skip, Show, AllProper;
    JoinHead(ps);
    JoinAmpersand(ps);
    SkipUnfolds(Join(ps), n);
  }

  lemma SkipLast(ps: seq<Pair>, n: nat)
    requires AllProper(ps) && |ps| <= 1 && n > 0
    ensures Skip(Join(ps), n).None?
  {
    hide Index, Skip;
    if ps == [] {
      NoAmpersand();
      SkipUnfolds("", n);
    } else {
      JoinAmpersand(ps);
      SkipUnfolds(Join(ps), n);
    }
  }

  lemma NoAmpersand()
    ensures Index("", '&') == 0
  {
  }

  // The text after n pairs is the query of the remaining pairs.
  predicate SkipsTo(ps: seq<Pair>, n: nat)
    requires n < |ps|
  {
    var start := Skip(Join(ps), n);
    start.Some? && Join(ps)[start.value..] == Join(ps[n..])
  }

  lemma SkipMore(ps: seq<Pair>, n: nat)
    requires AllProper(ps) && 0 < n < |ps| && SkipsTo(ps[1..], n - 1)
    ensures SkipsTo(ps, n)
  {
    hide Index, Join, Skip, Show;
    SkipFirst(ps, n);
    assert ps[1..][n - 1..] == ps[n..];
  }

  lemma {:induction false} SkipJoined(ps: seq<Pair>, n: nat)
    requires AllProper(ps)
    ensures n < |ps| ==> SkipsTo(ps, n)
    ensures 0 < n && n >= |ps| ==> Skip(Join(ps), n).None?
    decreases n
  {
    hide Index, Join, Skip, Show;
    if n == 0 {
      SkipNone(Join(ps));
      assert ps[0..] == ps && Join(ps)[0..] == Join(ps);
    } else if |ps| <= 1 {
      SkipLast(ps, n);
    } else if n < |ps| {
      SkipJoined(ps[1..], n - 1);
      hide SkipsTo;
      SkipMore(ps, n);
    } else {
      SkipJoined(ps[1..], n - 1);
      SkipFirst(ps, n);
    }
  }

  // Iteration yields exactly the pairs, in order, and then nothing; only the last one ends at the end.
  lemma NthOfJoin(ps: seq<Pair>, n: nat)
    requires AllProper(ps) && n > 0
    ensures n > |ps| ==> Nth(Join(ps), n) == None
    ensures n <= |ps| ==> (
              var h := Nth(Join(ps), n);
              && h.Some? && h.value.key == ps[n - 1].key && h.value.value == ps[n - 1].value
              && (h.value.next < |Join(ps)| <==> n < |ps|))
  {
    hide Index, Skip, Join, PairOf;
    SkipJoined(ps, n - 1);
    if n <= |ps| {
      var rest := ps[n - 1..];
      JoinHead(rest);
      JoinAmpersand(rest);
      if |rest| > 1 {
        JoinLong(rest);
      }
    } else if n == 1 {
      EmptyQuery(ps);
    }
  }

  lemma EmptyQuery(ps: seq<Pair>)
    requires ps == []
    ensures Nth(Join(ps), 1) == None
  {
  }

  lemma JoinLong(ps: seq<Pair>)
    requires |ps| > 1
    ensures |Join(ps)| >= |Show(ps[0])| + 2
  {
    hide Join;
    JoinSplits(ps);
    JoinSplits(ps[1..]);
  }

  // ----- one value by key

  function Lower(c: char): char {
    if 'A' <= c <= 'Z' then (c as int + 32) as char else c
  }

  predicate SameIgnoringCase(a: string, b: string) {
    |a| == |b| && forall i :: 0 <= i < |a| ==> Lower(a[i]) == Lower(b[i])
  }

  predicate IsLetter(c: char) {
    'A' <= c <= 'Z' || 'a' <= c <= 'z'
  }

  // The same letter in the other case.
  function OtherCase(c: char): char
    requires IsLetter(c)
  {
    if 'a' <= c <= 'z' then CAPITALS[c as int - 'a' as int]
    else MINUSCULES[c as int - 'A' as int]
  }

  // Keys are the same exactly when each character is the other's, or the same letter in the other case.
  lemma SameExactly(a: string, b: string)
    ensures SameIgnoringCase(a, b)
       <==> |a| == |b| && forall i :: 0 <= i < |a| ==> a[i] == b[i] || (IsLetter(a[i]) && b[i] == OtherCase(a[i]))
  {
    if |a| == |b| {
      forall i | 0 <= i < |a|
        ensures Lower(a[i]) == Lower(b[i]) <==> a[i] == b[i] || (IsLetter(a[i]) && b[i] == OtherCase(a[i]))
      {
        SameLetter(a[i], b[i]);
      }
    }
  }

  lemma SameLetter(c: char, d: char)
    ensures Lower(c) == Lower(d) <==> c == d || (IsLetter(c) && d == OtherCase(c))
  {
    if IsLetter(c) {
      var i := if 'a' <= c <= 'z' then c as int - 'a' as int else c as int - 'A' as int;
      Capitals(i);
      Minuscules(i);
    }
  }

  // Texts without letters are the same only when they are equal.
  lemma SameWithoutLetters(a: string, b: string)
    requires forall i :: 0 <= i < |a| ==> !IsLetter(a[i])
    ensures SameIgnoringCase(a, b) <==> a == b
  {
    SameExactly(a, b);
  }

  function QueryValue(s: string, key: string): Option<string>
    decreases |s|
  {
    if s == "" then None
    else
      var h := PairOf(s);
      if h.None? then None
      else if SameIgnoringCase(h.value.key, key) then Some(h.value.value)
      else if h.value.next >= |s| then None
      else QueryValue(s[h.value.next..], key)
  }

  method GetQueryValue(query: string, key: string) returns (value: Option<string>)
    ensures value == QueryValue(query, key)
  {
    hide Index, Skip, PairOf, SameIgnoringCase, Nth;
    var pos := 0;
    Here(query, 0);
    while pos < |query|
      invariant QueryValue(query, key) == if pos <= |query| then QueryValue(query[pos..], key) else None
      decreases |query| - pos
    {
      var h := GetNthKeyValue(query[pos..], 1);
      FirstIsPair(query[pos..]);
      if h.None? {
        return None;
      }
      if SameIgnoringCase(h.value.key, key) {
        return Some(h.value.value);
      }
      assert h.value.next < |query| - pos ==> query[pos..][h.value.next..] == query[pos + h.value.next..];
      pos := pos + h.value.next;
    }
    value := None;
  }

  lemma FirstIsPair(s: string)
    ensures Nth(s, 1) == PairOf(s)
  {
    hide PairOf;
    assert s[0..] == s;
  }

  // The value of the first pair with this key.
  function FirstValue(ps: seq<Pair>, key: string): Option<string> {
    if ps == [] then None
    else if SameIgnoringCase(ps[0].key, key) then Some(ps[0].value)
    else FirstValue(ps[1..], key)
  }

  lemma {:induction false} QueryValueOfJoin(ps: seq<Pair>, key: string)
    requires AllProper(ps)
    ensures QueryValue(Join(ps), key) == FirstValue(ps, key)
  {
    if ps != [] {
      hide Index, Join, PairOf, SameIgnoringCase;
      JoinHead(ps);
      JoinAmpersand(ps);
      JoinSplits(ps);
      if |ps| > 1 {
        JoinLong(ps);
        QueryValueOfJoin(ps[1..], key);
      }
    }
  }

  // ----- iteration

  // The next value of a key after n pairs: is there more text, the value, and how many pairs were read.
  function NextValue(s: string, key: string, n: nat): (r: (bool, Option<string>, nat))
    ensures n < r.2 && (r.0 ==> r.2 <= |s| + 1)
    decreases |s| + 1 - n
  {
    var h := Nth(s, n + 1);
    if h.None? then (false, None, n + 1)
    else if h.value.key == key then (h.value.next < |s|, Some(h.value.value), n + 1)
    else NextValue(s, key, n + 1)
  }

  // The filter as the source runs it: an empty value is passed over.
  predicate Filtered(s: string, types: seq<string>, n: nat, found: bool)
    decreases |s| + 1 - n
  {
    var (more, rt, m) := NextValue(s, "rt", n);
    if rt.Some? && rt.value != "" then rt.value in types || (more && Filtered(s, types, m, false))
    else if more then Filtered(s, types, m, found)
    else found
  }

  class QueryIterator {
    var position: nat

    constructor ()
      ensures position == 0
    {
      position := 0;
    }

    method Init()
      modifies this
      ensures position == 0
    {
      position := 0;
    }

    method Iterate(query: string) returns (h: Option<Hit>)
      modifies this
      ensures position == old(position) + 1 && h == Nth(query, position)
    {
      position := position + 1;
      h := GetNthKeyValue(query, position);
    }

    method GetValues(query: string, key: string) returns (more: bool, value: Option<string>)
      modifies this
      ensures (more, value, position) == NextValue(query, key, old(position))
    {
      hide Nth;
      var h := Iterate(query);
      while h.Some? && h.value.key != key
        invariant position > 0 && h == Nth(query, position)
        invariant NextValue(query, key, old(position)) == NextValue(query, key, position - 1)
        decreases |query| + 2 - position
      {
        h := Iterate(query);
      }
      if h.Some? {
        more, value := h.value.next < |query|, Some(h.value.value);
      } else {
        more, value := false, None;
      }
    }

    method Listed(types: seq<string>, rt: string) returns (found: bool)
      ensures found <==> rt in types
    {
      for i := 0 to |types|
        invariant rt !in types[..i]
      {
        if types[i] == rt {
          return true;
        }
      }
      found := false;
    }

    method FilterByRt(query: string, types: seq<string>) returns (found: bool)
      modifies this
      ensures found == Filtered(query, types, 0, true)
    {
      Init();
      found := true;
      var more := true;
      hide Filtered, NextValue;
      while more
        invariant Filtered(query, types, 0, true) == if more then Filtered(query, types, position, found) else found
        decreases more, |query| + 1 - position
      {
        FilteredUnfolds(query, types, position, found);
        var rt;
        more, rt := GetValues(query, "rt");
        if rt.Some? && rt.value != "" {
          found := false;
          var listed := Listed(types, rt.value);
          if listed {
            return true;
          }
        }
      }
    }
  }

  lemma FilteredUnfolds(s: string, types: seq<string>, n: nat, found: bool)
    ensures var (more, rt, m) := NextValue(s, "rt", n);
            var (hit, next) := (rt.Some? && rt.value != "", if rt.Some? && rt.value != "" then false else found);
            Filtered(s, types, n, found) ==
            ((hit && rt.value in types) || (if more then Filtered(s, types, m, next) else next))
  {
    hide NextValue;
  }

  // ----- iterating over what was joined

  // The next value belongs to the next pair with exactly this key.
  lemma {:induction false} NextValueOfJoin(ps: seq<Pair>, key: string, n: nat)
    requires AllProper(ps) && n <= |ps|
    ensures var (more, value, m) := NextValue(Join(ps), key, n);
            if value.None? then !more && forall i :: n <= i < |ps| ==> ps[i].key != key
            else && n < m <= |ps| && ps[m - 1] == Pair(key, value.value) && (more <==> m < |ps|)
                 && forall i :: n <= i < m - 1 ==> ps[i].key != key
    decreases |ps| - n
  {
    hide Nth, Join;
    NthOfJoin(ps, n + 1);
    if n < |ps| && ps[n].key != key {
      NextValueOfJoin(ps, key, n + 1);
    }
  }

  predicate IsRt(p: Pair) {
    p.key == "rt" && p.value != ""
  }

  lemma {:induction false} FilteredFrom(ps: seq<Pair>, types: seq<string>, n: nat, found: bool)
    requires AllProper(ps) && n <= |ps|
    ensures Filtered(Join(ps), types, n, found) <==>
            if exists i :: n <= i < |ps| && IsRt(ps[i]) then exists i :: n <= i < |ps| && IsRt(ps[i]) && ps[i].value in types
            else found
    decreases |ps| - n
  {
    hide NextValue, Join;
    NextValueOfJoin(ps, "rt", n);
    var (more, rt, m) := NextValue(Join(ps), "rt", n);
    if rt.Some? {
      assert ps[m - 1].key == "rt" && ps[m - 1].value == rt.value;
      FilteredFrom(ps, types, m, if rt.value != "" then false else found);
    }
  }

  // A resource passes when no non-empty rt is asked for, or one that is asked for is among its types.
  lemma FilterOfJoin(ps: seq<Pair>, types: seq<string>)
    requires AllProper(ps)
    ensures Filtered(Join(ps), types, 0, true) <==>
            || (forall i :: 0 <= i < |ps| ==> !IsRt(ps[i]))
            || (exists i :: 0 <= i < |ps| && IsRt(ps[i]) && ps[i].value in types)
  {
    FilteredFrom(ps, types, 0, true);
  }
}
