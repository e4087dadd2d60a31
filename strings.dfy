/** Character search and ASCII lower-casing, shared by the number parser,
    the path splitter, the ObjectId reader and the search filter. */
module Strings {
  /** Position of the first `c` in `s`, or |s| when there is none. */
  function IndexOf(s: string, c: char): (k: nat)
    ensures k <= |s|
    ensures k < |s| ==> s[k] == c
    ensures forall j :: 0 <= j < k ==> s[j] != c
  {
    if s == [] then 0 else if s[0] == c then 0 else 1 + IndexOf(s[1..], c)
  }

  /** In `a + t`, when `a` has no `c` and `t` is empty or starts with one,
      the first `c` (or the end) is where `t` begins. */
  lemma {:induction false} IndexOfAfter(a: string, t: string, c: char)
    requires c !in a
    requires t == [] || t[0] == c
    ensures IndexOf(a + t, c) == |a|
  {
    if a != [] {
      assert (a + t)[1..] == a[1..] + t;
      IndexOfAfter(a[1..], t, c);
    }
  }

  /** `toLowerCase` on ASCII letters. */
  function LowerChar(c: char): char
  {
    if 'A' <= c <= 'Z' then (c as int + 32) as char else c
  }

  function Lower(s: string): string
  {
    seq(|s|, i requires 0 <= i < |s| => LowerChar(s[i]))
  }
}
