/** Text as UTF-8 bytes (RFC 3629). */
module Utf8 {
  import opened ByteForms

  function Continuation(n: nat): byte { (128 + n % 64) as byte }

  function Encoded(c: char): (bytes: Bytes)
    ensures 1 <= |bytes| <= 4
    ensures c as int < 128 ==> bytes == [c as byte]
    ensures c as int >= 128 ==> forall b :: b in bytes ==> b >= 128
  {
    var n := c as int;
    if n < 0x80 then [n as byte]
    else if n < 0x800 then [(0xc0 + n / 64) as byte, Continuation(n)]
    else if n < 0x10000 then [(0xe0 + n / 4096) as byte, Continuation(n / 64), Continuation(n)]
    else [(0xf0 + n / 262144) as byte, Continuation(n / 4096), Continuation(n / 64), Continuation(n)]
  }

  /** The bytes lead back to the character: the first says how many follow, and each
      that follows carries six bits of it. */
  lemma EncodedIs(c: char)
    ensures var (bytes, n) := (Encoded(c), c as int);
            && (|bytes| == 1 ==> n == bytes[0] as int < 128)
            && (|bytes| > 1 ==> forall k :: 0 < k < |bytes| ==> 128 <= bytes[k] as int < 192)
            && (|bytes| == 2 ==> 192 <= bytes[0] as int < 224 && n == (bytes[0] as int - 192) * 64 + (bytes[1] as int - 128))
            && (|bytes| == 3 ==> 224 <= bytes[0] as int < 240
                                 && n == (bytes[0] as int - 224) * 4096 + (bytes[1] as int - 128) * 64 + (bytes[2] as int - 128))
            && (|bytes| == 4 ==> 240 <= bytes[0] as int
                                 && n == (bytes[0] as int - 240) * 262144 + (bytes[1] as int - 128) * 4096
                                         + (bytes[2] as int - 128) * 64 + (bytes[3] as int - 128))
  {
    var n := c as int;
    assert n / 64 == n / 4096 * 64 + n / 64 % 64;
    assert n / 4096 == n / 262144 * 64 + n / 4096 % 64;
  }

  function Utf8Bytes(text: string): Bytes { if text == "" then [] else Encoded(text[0]) + Utf8Bytes(text[1..]) }

  /** How many bytes a text takes. */
  function Size(text: string): nat { |Utf8Bytes(text)| }

  lemma {:induction false} SizeAppend(a: string, b: string)
    ensures Size(a + b) == Size(a) + Size(b)
  {
    if a == "" {
      assert a + b == b;
    } else {
      assert (a + b)[1..] == a[1..] + b;
      SizeAppend(a[1..], b);
    }
  }

  /** Text all below 128 takes a byte a character. */
  lemma {:induction false} AsciiSize(text: string)
    requires forall c :: c in text ==> c as int < 128
    ensures Size(text) == |text|
  {
    if text != "" {
      assert text[0] in text && forall c :: c in text[1..] ==> c in text;
      AsciiSize(text[1..]);
    }
  }

  lemma {:induction false} SizeAtLeast(text: string)
    ensures |text| <= Size(text) <= 4 * |text|
  {
    if text != "" { SizeAtLeast(text[1..]); }
  }
}
