/** pkcs5_pad: the padding encryptPassword applies before the block cipher.
    It is the PKCS#5/PKCS#7 scheme of section 6.1.1 of RFC 8018 and
    section 10.3 of RFC 2315: append n bytes of value n, where n is the
    distance to the next multiple of the block size, a whole block if the
    text already ends on a block boundary. */
module Padding {
  import opened Optional

  newtype byte = x: int | 0 <= x < 256

  /** PHP's chr(): the byte whose value is its argument modulo 256. */
  function Chr(n: int): byte {
    (n % 256) as byte
  }

  /** `$text . str_repeat(chr($pad), $pad)` with `$pad = $blocksize - (strlen($text) % $blocksize)`. */
  function Pkcs5Pad(text: seq<byte>, blockSize: int): (r: seq<byte>)
    requires blockSize > 0
    ensures |r| % blockSize == 0
    ensures |text| < |r| <= |text| + blockSize
    ensures r[..|text|] == text
    ensures forall i :: |text| <= i < |r| ==> r[i] == Chr(|r| - |text|)
    ensures |text| % blockSize == 0 ==> |r| == |text| + blockSize
  {
    var pad := blockSize - |text| % blockSize;
    var r := text + seq(pad, _ => Chr(pad));
    var q := |text| / blockSize;
    assert |r| == (q + 1) * blockSize by {
      assert (q + 1) * blockSize == q * blockSize + blockSize;
    }
    DivModUnique(|r|, blockSize, q + 1, 0);
    r
  }

  /** Division by a positive divisor is determined by any quotient and
      remainder that fit. */
  lemma DivModUnique(x: int, b: int, q: int, m: int)
    requires b > 0 && 0 <= m < b && x == q * b + m
    ensures x / b == q && x % b == m
  {
    var q', m' := x / b, x % b;
    assert x == q' * b + m';
    if q' > q {
      assert (q' - q) * b == q' * b - q * b;
      MulAtLeast(q' - q, b);
    } else if q' < q {
      assert (q - q') * b == q * b - q' * b;
      MulAtLeast(q - q', b);
    }
  }

  lemma MulAtLeast(k: int, b: int)
    requires k >= 1 && b > 0
    ensures k * b >= b
  {
    assert k * b == (k - 1) * b + b;
  }

  /** The inverse the receiving side applies: read the count from the last
      byte, check that many bytes all carry it, and strip them. */
  function Pkcs5Unpad(padded: seq<byte>): (r: Option<seq<byte>>)
    ensures r.Some? ==> |r.value| < |padded| && padded[..|r.value|] == r.value
  {
    if padded == [] then None
    else
      var n := padded[|padded| - 1] as int;
      if n == 0 || n > |padded| then None
      else if forall i :: |padded| - n <= i < |padded| ==> padded[i] as int == n then Some(padded[..|padded| - n])
      else None
  }

  /** The pad is the shortest non-empty one reaching a block boundary. */
  lemma PadIsShortest(text: seq<byte>, blockSize: int, k: int)
    requires blockSize > 0
    requires 0 < k < |Pkcs5Pad(text, blockSize)| - |text|
    ensures (|text| + k) % blockSize != 0
  {
    var q, m := |text| / blockSize, |text| % blockSize;
    assert |text| == q * blockSize + m;
    assert 0 < m + k < blockSize;
    DivModUnique(|text| + k, blockSize, q, m + k);
  }

  /** Unpadding recovers the text whenever every pad count fits in a byte,
      which block sizes below 256 guarantee (Blowfish uses 8). */
  lemma UnpadPad(text: seq<byte>, blockSize: int)
    requires 0 < blockSize < 256
    ensures Pkcs5Unpad(Pkcs5Pad(text, blockSize)) == Some(text)
  {
    var r := Pkcs5Pad(text, blockSize);
    var n := |r| - |text|;
    assert Chr(n) as int == n;
    assert r[|r| - 1] as int == n;
    assert r[..|r| - n] == text;
  }

  /** For a block size that is a multiple of 256 chr() wraps: a text on a
      block boundary gets a whole block of zeros, which cannot be read back. */
  lemma WideBlockLosesCount(text: seq<byte>, blockSize: int)
    requires blockSize > 0 && blockSize % 256 == 0 && |text| % blockSize == 0
    ensures var r := Pkcs5Pad(text, blockSize); r[|r| - 1] == 0 && Pkcs5Unpad(r) == None
  {
    var r := Pkcs5Pad(text, blockSize);
    assert r[|r| - 1] == Chr(blockSize);
  }
}
