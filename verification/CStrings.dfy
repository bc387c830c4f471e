/** Strings as C sees them. */
module CStrings {

  /** The elements in front of the first nul: what strlen and strcmp see of a buffer. */
  function UpTo<T(==)>(s: seq<T>, nul: T): (r: seq<T>)
    ensures r <= s && nul !in r
    ensures r == s <==> nul !in s
  {
    if s == [] || s[0] == nul then []
    else
      var r := [s[0]] + UpTo(s[1..], nul);
      assert s == [s[0]] + s[1..];
      r
  }
}
