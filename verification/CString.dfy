/** C strings: sequences without NUL characters, the terminator left implicit. */
module CString {

  const NUL := '\0'

  predicate NulFree(s: string) { forall i :: 0 <= i < |s| ==> s[i] != NUL }

  /** Character i of a C string. */
  function At(s: string, i: int): char { if 0 <= i < |s| then s[i] else NUL }
}
