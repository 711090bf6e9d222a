/** Small string helpers shared by the notifier message builders. */
module Strings {

  /** Index of the first `c` in `s`, or `|s|` when there is none (Python's `str.find` with the
      "not found" answer moved to the end of the string). */
  function IndexOf(s: string, c: char): (k: nat)
    ensures k <= |s|
    ensures k < |s| ==> s[k] == c
    ensures c !in s[..k]
  {
    if s == [] then 0
    else if s[0] == c then 0
    else
      var k := 1 + IndexOf(s[1..], c);
      assert s[..k] == [s[0]] + s[1..][..k - 1];
      k
  }

  /** The first `c` in `x + [c] + rest` is the separator when `x` holds no `c`. */
  lemma {:induction false} IndexOfSeparator(x: string, c: char, rest: string)
    requires c !in x
    ensures IndexOf(x + [c] + rest, c) == |x|
  {
    if x != [] {
      assert (x + [c] + rest)[1..] == x[1..] + [c] + rest;
      IndexOfSeparator(x[1..], c, rest);
    }
  }
}
