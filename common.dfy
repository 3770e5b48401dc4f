// Shared vocabulary of the CPF middleware model: an optional value, the four
// local result codes, and the length of a NUL-terminated C string.

module Wrappers {

  /** A present or absent value; stands for a C pointer that may be NULL. */
  datatype Option<+T> = None | Some(value: T)
}

module LocalCodes {

  /** The codes the middleware hands back to its caller. */
  const CODE_200_CPF_OK: int := 200
  const CODE_400_INVALID_FORMAT: int := 400
  const CODE_403_SUBJECT_REJECTED: int := 403
  const CODE_500_SERVER_PROBLEM: int := 500

  predicate IsLocalCode(r: int)
  {
    r == CODE_200_CPF_OK || r == CODE_400_INVALID_FORMAT ||
    r == CODE_403_SUBJECT_REJECTED || r == CODE_500_SERVER_PROBLEM
  }
}

module CStrings {

  const NUL: char := '\0'

  /** True when `s` holds no NUL, i.e. it can be the text of one C string. */
  predicate NulFree(s: seq<char>)
  {
    forall i :: 0 <= i < |s| ==> s[i] != NUL
  }

  /**
   * What C's `strlen` returns for a buffer holding `s`: the index of the
   * first NUL, or |s| when there is none.
   */
  function StrLen(s: seq<char>): (n: nat)
    ensures n <= |s|
    ensures NulFree(s[..n])
    ensures n < |s| ==> s[n] == NUL
  {
    if s == [] || s[0] == NUL then 0
    else
      assert s[1..][..StrLen(s[1..])] == s[1..1 + StrLen(s[1..])];
      1 + StrLen(s[1..])
  }

  /** The text of the C string stored in a buffer: everything before the first NUL. */
  function CString(s: seq<char>): (t: seq<char>)
    ensures NulFree(t)
  {
    s[..StrLen(s)]
  }

  /** Any NUL-free prefix followed by a NUL fixes the length `strlen` reports. */
  lemma StrLenOfTerminated(s: seq<char>, n: nat)
    requires n < |s| && s[n] == NUL
    requires NulFree(s[..n])
    ensures StrLen(s) == n
  {
  }
}
