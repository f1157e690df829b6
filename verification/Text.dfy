/** Searching texts for a character, as strchr and memchr do, and the letters of ASCII. */
module Text {

  // The first place of a character, or the length.
  function Index(s: string, c: char): (k: nat)
    ensures k <= |s| && (k < |s| ==> s[k] == c) && forall j :: 0 <= j < k ==> s[j] != c
  {
    if s == "" || s[0] == c then 0 else 1 + Index(s[1..], c)
  }

  method FindChar(text: string, c: char) returns (n: nat)
    ensures n == Index(text, c)
  {
    hide Index;
    n := 0;
    while n < |text| && text[n] != c
      invariant n <= |text| && forall j :: 0 <= j < n ==> text[j] != c
    {
      n := n + 1;
    }
    ghost var k := Index(text, c);
  }

  // ----- the letters of ASCII

  const CAPITALS := "ABCDEFGHIJKLMNOPQRSTUVWXYZ"
  const MINUSCULES := "abcdefghijklmnopqrstuvwxyz"

  lemma Capitals(i: int)
    requires 0 <= i < 26
    ensures CAPITALS[i] as int == 'A' as int + i
  {
  }

  lemma Minuscules(i: int)
    requires 0 <= i < 26
    ensures MINUSCULES[i] as int == 'a' as int + i
  {
  }
}
