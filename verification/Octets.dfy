/** The bytes that files, sockets and hashers carry. */
module Octets {

  type byte = x: int | 0 <= x < 256

  /** At most n bytes from the front. */
  function Front(s: seq<byte>, n: nat): (f: seq<byte>)
    ensures f <= s && |f| <= n
    ensures |f| == n || f == s
  {
    if n <= |s| then s[..n] else s
  }
}
