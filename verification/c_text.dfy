/**
  C text as the D-Bus code sees it. A `const char *` is a NUL-terminated run of
  8-bit characters and is modelled as the string before its terminator; a
  `std::string` may hold NULs, and `c_str()` exposes only the part before the
  first one.
 */
module CText {

  newtype byte = x: int | 0 <= x < 256

  const NUL: char := '\0'

  /** What `strlen`/`c_str()` see of a character buffer: the longest NUL-free prefix. */
  function CStr(s: string): (r: string)
    ensures NUL !in r
    ensures r <= s
    ensures |r| < |s| ==> s[|r|] == NUL
  {
    if |s| == 0 || s[0] == NUL then [] else [s[0]] + CStr(s[1..])
  }

  /** A buffer with no NUL inside passes through `c_str()` unchanged. */
  lemma {:induction false} CStrOfNulFree(s: string)
    requires NUL !in s
    ensures CStr(s) == s
  {
    if |s| > 0 {
      assert s[0] in s;
      assert NUL !in s[1..] by {
        forall i | 0 <= i < |s[1..]| ensures s[1..][i] != NUL {
          assert s[1..][i] == s[i + 1];
        }
      }
      CStrOfNulFree(s[1..]);
      assert s == [s[0]] + s[1..];
    }
  }

  /** The octets of a C string, in order: the bytes `add_bytearray` copies one by one. A C `char` is
      one octet; a character code beyond 255, which C text cannot hold, is reduced to its low 8 bits. */
  function Octets(s: string): (r: seq<byte>)
    ensures |r| == |s|
    ensures forall i :: 0 <= i < |s| ==> r[i] as int == s[i] as int % 256
  {
    seq(|s|, i requires 0 <= i < |s| => (s[i] as int % 256) as byte)
  }
}
