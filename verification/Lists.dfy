/** Facts about sequences that loops over lists use. */
module Lists {

  // One element more of a list that a loop walks.
  lemma OneMore<T>(s: seq<T>, i: nat)
    requires i < |s|
    ensures s[i..] != [] && s[i..][0] == s[i] && s[i..][1..] == s[i + 1..]
    ensures s[..i + 1][..i] == s[..i] && |s[..i + 1]| == i + 1 && s[..i + 1][i] == s[i]
  {
  }

  lemma Ends<T>(s: seq<T>)
    ensures s[0..] == s && s[..|s|] == s && s[|s|..] == [] && s[..0] == []
  {
  }

  lemma Nothing<T>(s: seq<T>)
    ensures s + [] == s && [] + s == s
  {
  }

  lemma Regroup<T>(a: seq<T>, b: seq<T>, c: seq<T>)
    ensures a + (b + c) == a + b + c
  {
  }

  // The first element of a concatenation, and what is behind it.
  lemma FrontOf<T>(a: seq<T>, b: seq<T>)
    requires a != []
    ensures (a + b)[0] == a[0] && (a + b)[1..] == a[1..] + b
  {
  }

  lemma Cut<T>(s: seq<T>, i: nat)
    requires i <= |s|
    ensures s[..i] + s[i..] == s
  {
  }
}
