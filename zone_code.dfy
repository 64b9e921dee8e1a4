/** Zone-code normalisation applied when the zoning layer is loaded:
    `str.replace(" ", "")` removes every U+0020 space from the code and
    leaves every other character, tabs included, where it was. */
module ZoneCode {

  /** The code with every `' '` removed. */
  function StripSpaces(s: string): (r: string)
    ensures |r| <= |s|
    ensures ' ' !in r
    ensures forall c :: c != ' ' ==> multiset(r)[c] == multiset(s)[c]
  {
    if s == [] then []
    else
      assert s == [s[0]] + s[1..];
      (if s[0] == ' ' then [] else [s[0]]) + StripSpaces(s[1..])
  }

  /** A code without spaces is left as it is. */
  lemma {:induction false} StripSpacesNoSpace(s: string)
    requires ' ' !in s
    ensures StripSpaces(s) == s
  {
    if s != [] {
      assert s[0] != ' ';
      assert ' ' !in s[1..];
      StripSpacesNoSpace(s[1..]);
      assert s == [s[0]] + s[1..];
    }
  }

  /** Normalising twice is normalising once. */
  lemma StripSpacesIdempotent(s: string)
    ensures StripSpaces(StripSpaces(s)) == StripSpaces(s)
  {
    StripSpacesNoSpace(StripSpaces(s));
  }

  /** Removal works character by character: the non-space characters keep
      their order, whichever way the code is cut into pieces. */
  lemma {:induction false} StripSpacesAppend(a: string, b: string)
    ensures StripSpaces(a + b) == StripSpaces(a) + StripSpaces(b)
  {
    if a == [] {
      assert a + b == b;
    } else {
      assert (a + b)[0] == a[0];
      assert (a + b)[1..] == a[1..] + b;
      StripSpacesAppend(a[1..], b);
    }
  }
}
