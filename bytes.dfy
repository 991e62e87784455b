/** Byte-level vocabulary shared by the command encoder and the reply decoder:
    8-bit bytes, the ASCII characters the protocol uses, C strings and the
    low-nibble masks that the driver applies to reply digits. */
module Bytes {

  /** A C `char` / `uint8_t`, taken as its unsigned value. */
  type byte = b: int | 0 <= b < 256

  datatype Option<+T> = None | Some(value: T)

  const NUL: byte := 0
  const SPACE: byte := ' ' as int
  const ZERO: byte := '0' as int

  /** ASCII digit of a decimal value, as in `'0' + channel`. */
  function Digit(d: int): (b: byte)
    requires 0 <= d <= 9
    ensures '0' as int <= b <= '9' as int
    ensures b - ZERO == d
  {
    ZERO + d
  }

  predicate IsDigit(b: byte) {
    '0' as int <= b <= '9' as int
  }

  /** `x & 0x0F` on an 8-bit value: for a non-negative value, keeping the four
      low bits is the remainder modulo 16. */
  function LowNibble(x: byte): (n: byte)
    ensures n < 16
    ensures x < 16 ==> n == x
    ensures (x - n) % 16 == 0
  {
    x % 16
  }

  /** The driver's `(uint8_t)(c - '0') & 0x0F`: subtract the ASCII zero,
      truncate to 8 bits, keep the low nibble.  Since '0' is 48, a multiple
      of 16, the subtraction never changes the low nibble. */
  function MaskedDigit(c: byte): (n: byte)
    ensures n < 16
    ensures n == c % 16
  {
    var diff: byte := (c - ZERO) % 256;
    assert diff % 16 == c % 16 by { SubtractZeroKeepsNibble(c); }
    LowNibble(diff)
  }

  lemma SubtractZeroKeepsNibble(c: byte)
    ensures ((c - ZERO) % 256) % 16 == c % 16
  {
    if c >= 48 {
      assert (c - ZERO) % 256 == c - 48;
      assert c - 48 == (c / 16 - 3) * 16 + c % 16;
    } else {
      assert (c - ZERO) % 256 == c + 208;
      assert c + 208 == (c / 16 + 13) * 16 + c % 16;
    }
  }

  /** A digit masked back is the digit's value: the reply decoder inverts `Digit`
      (and, past '9', the characters ':' .. '?' stand for 10 .. 15). */
  lemma MaskedDigitInvertsDigit(d: int)
    requires 0 <= d < 16
    ensures MaskedDigit(ZERO + d) == d
  {
  }

  predicate NoNul(s: seq<byte>) {
    forall j :: 0 <= j < |s| ==> s[j] != NUL
  }

  /** `strlen`: the number of bytes before the first NUL, or the whole
      sequence when it holds no NUL. */
  function CStrLen(s: seq<byte>): (n: nat)
    ensures n <= |s|
    ensures NoNul(s[..n])
    ensures n < |s| ==> s[n] == NUL
  {
    if s == [] || s[0] == NUL then 0
    else
      var n := 1 + CStrLen(s[1..]);
      assert s[..n] == [s[0]] + s[1..][..n - 1];
      n
  }

  /** The length of a C string is fixed by where its first NUL is. */
  lemma {:induction false} CStrLenIs(s: seq<byte>, k: nat)
    requires k <= |s|
    requires NoNul(s[..k])
    requires k < |s| ==> s[k] == NUL
    ensures CStrLen(s) == k
  {
    if k > 0 {
      assert s[..k][0] == s[0];
      assert s[1..][..k - 1] == s[..k][1..];
      CStrLenIs(s[1..], k - 1);
    }
  }

  /** The C string held by a sequence of bytes: everything before the first NUL. */
  function CString(s: seq<byte>): (r: seq<byte>)
    ensures NoNul(r)
    ensures r <= s
    ensures |r| == |s| || s[|r|] == NUL
  {
    s[..CStrLen(s)]
  }

  /** A sequence without NUL is its own C string, and only such sequences are. */
  lemma CStringOfNoNul(s: seq<byte>)
    ensures NoNul(s) <==> CString(s) == s
  {
  }
}
