// Null-terminated strings in a character buffer.

module CStrings {
  const NUL := '\0'

  /** `s` is the C string at position `p`. */
  ghost predicate CStr(buf: seq<char>, p: int, s: string) {
    && 0 <= p && p + |s| < |buf|
    && (forall i {:trigger s[i]} :: 0 <= i < |s| ==> buf[p + i] == s[i] && s[i] != NUL)
    && buf[p + |s|] == NUL
  }
}
