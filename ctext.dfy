/**
 * C-string conventions shared by the firmware's fixed-size char buffers:
 * a buffer holds the text up to its first NUL, the rest is ignored.
 */
module CText {

  datatype Option<T> = None | Some(value: T)

  const NUL: char := '\0'

  /** strlen: the index of the first NUL of the buffer, or its length when it holds none. */
  function StrLen(buf: seq<char>): (n: nat)
    ensures n <= |buf|
    ensures forall i :: 0 <= i < n ==> buf[i] != NUL
    ensures n < |buf| ==> buf[n] == NUL
  {
    if buf == [] || buf[0] == NUL then 0 else 1 + StrLen(buf[1..])
  }

  /** The text a C string function sees in the buffer. */
  function CStr(buf: seq<char>): (s: seq<char>)
    ensures |s| <= |buf| && s == buf[..|s|]
    ensures NUL !in s
    ensures |s| < |buf| ==> buf[|s|] == NUL
  {
    buf[..StrLen(buf)]
  }

  /** A buffer of n NUL characters, as left by memset(buf, 0, n). */
  function Zeros(n: nat): (z: seq<char>)
    ensures |z| == n
    ensures forall i :: 0 <= i < n ==> z[i] == NUL
  {
    seq(n, _ => NUL)
  }

  /** A buffer that holds text s (free of NUL) followed by a NUL reads back as s. */
  lemma CStrOfTerminated(s: seq<char>, buf: seq<char>)
    requires NUL !in s
    requires |s| < |buf| && buf[..|s|] == s && buf[|s|] == NUL
    ensures CStr(buf) == s
  {
  }

  /** The C string that starts j characters into a buffer, for j within the string. */
  lemma CStrFrom(buf: seq<char>, j: nat)
    requires j <= StrLen(buf)
    ensures CStr(buf[j..]) == CStr(buf)[j..]
  {
    var n := StrLen(buf);
    if n < |buf| {
      assert buf[j..][n - j] == NUL;
    }
  }

  /**
   * strncpy(dst, src, n) followed by dst[n] = NUL: the text dst then holds is
   * the C string at src, cut to at most n characters.
   */
  function StrNCpy(src: seq<char>, n: nat): (d: seq<char>)
    ensures |d| == if StrLen(src) <= n then StrLen(src) else n
    ensures d == CStr(src)[..|d|]
  {
    var t := CStr(src);
    if |t| <= n then t else t[..n]
  }
}
