/** Text operations the codecs share. */
module Strings {

  lemma Assoc<T>(a: seq<T>, b: seq<T>, c: seq<T>)
    ensures a + (b + c) == a + b + c
  {
  }

  lemma TailOfConcat(a: string, b: string)
    requires a != ""
    ensures (a + b)[1..] == a[1..] + b
  {
  }

  /** str.rstrip with one character */
  function StripRight(s: string, c: char): string {
    if |s| > 0 && s[|s| - 1] == c then StripRight(s[..|s| - 1], c) else s
  }

  /** The index of the first dot, or the length. */
  function FirstDot(s: string): (n: nat)
    ensures n <= |s| && '.' !in s[..n] && (n < |s| ==> s[n] == '.')
  {
    if |s| == 0 || s[0] == '.' then 0 else
      var n := FirstDot(s[1..]);
      assert s[..n + 1] == [s[0]] + s[1..][..n];
      n + 1
  }

  lemma {:induction false} DotAfter(head: string, tail: string)
    requires '.' !in head
    ensures FirstDot(head + "." + tail) == |head|
  {
    if head != "" {
      DotAfter(head[1..], tail);
      TailOfConcat(head, ".");
      TailOfConcat(head + ".", tail);
    }
  }

  lemma SplitAtDot(head: string, tail: string)
    requires '.' !in head
    ensures var token := head + "." + tail;
            FirstDot(token) == |head| && token[..|head|] == head && token[|head| + 1..] == tail
  {
    DotAfter(head, tail);
  }
}
