/** Text in a buffer, up to its first terminator. */
module CStrings {
  const NUL := '\0'

  /** The length of the text in a buffer: the place of its first terminator. */
  method StringLength(a: array<char>) returns (n: nat)
    requires exists k :: 0 <= k < a.Length && a[k] == NUL
    ensures n < a.Length && a[n] == NUL && forall k :: 0 <= k < n ==> a[k] != NUL
  {
    n := 0;
    while a[n] != NUL
      invariant n < a.Length && forall k :: 0 <= k < n ==> a[k] != NUL
      decreases a.Length - n
    {
      n := n + 1;
    }
  }
}
