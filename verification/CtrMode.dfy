/** AES-256-CTR with a zero first counter block (section 6.5 of NIST SP 800-38A), over any block
    cipher: the hand-written 128-bit carry and the keystream it drives. */
module CtrMode {
  import opened Common

  type Block = s: Bytes | |s| == 16 witness seq(16, _ => 0)

  function Pow2(width: nat): nat {
    if width == 0 then 1 else 2 * Pow2(width - 1)
  }

  /** Bitwise exclusive or, lowest bit first. */
  function XorBits(a: nat, b: nat): nat
    decreases a + b
  {
    if a == 0 && b == 0 then 0 else (if a % 2 == b % 2 then 0 else 1) + 2 * XorBits(a / 2, b / 2)
  }

  /** Bit `k` of the result is set iff the bits of the two differ. */
  lemma {:induction false} XorBitsDiffer(a: nat, b: nat, k: nat)
    ensures Bit(XorBits(a, b), k) <==> Bit(a, k) != Bit(b, k)
    decreases k
  {
    var x := XorBits(a, b);
    if a == 0 && b == 0 {
      ZeroHasNoBits(k);
    } else {
      assert x / 2 == XorBits(a / 2, b / 2) && x % 2 == if a % 2 == b % 2 then 0 else 1;
      if k > 0 {
        XorBitsDiffer(a / 2, b / 2, k - 1);
      }
    }
  }

  lemma {:induction false} ZeroHasNoBits(k: nat)
    ensures !Bit(0, k)
  {
    if k > 0 {
      ZeroHasNoBits(k - 1);
    }
  }

  predicate Bit(n: nat, k: nat) {
    if k == 0 then n % 2 == 1 else Bit(n / 2, k - 1)
  }

  lemma {:induction false} XorBitsBelow(a: nat, b: nat, width: nat)
    requires a < Pow2(width) && b < Pow2(width)
    ensures XorBits(a, b) < Pow2(width)
  {
    if width > 0 {
      XorBitsBelow(a / 2, b / 2, width - 1);
    }
  }

  lemma {:induction false} XorBitsTwice(a: nat, b: nat)
    ensures XorBits(XorBits(a, b), b) == a
    decreases a + b
  {
    if a != 0 || b != 0 {
      XorBitsTwice(a / 2, b / 2);
      var x := XorBits(a, b);
      assert x / 2 == XorBits(a / 2, b / 2) && x % 2 == if a % 2 == b % 2 then 0 else 1;
    }
  }

  lemma EightBits()
    ensures Pow2(8) == 256
  {
    assert Pow2(4) == 16;
  }

  function Xor(a: byte, b: byte): byte {
    EightBits();
    XorBitsBelow(a, b, 8);
    XorBits(a, b)
  }

  lemma XorTwice(a: byte, b: byte)
    ensures Xor(Xor(a, b), b) == a
  {
    XorBitsTwice(a, b);
  }

  // ----- the counter -----

  /** `n` in big-endian bytes; what does not fit in `width` bytes is dropped. */
  function BigEndian(n: nat, width: nat): (b: Bytes)
    ensures |b| == width
  {
    if width == 0 then [] else BigEndian(n / 256, width - 1) + [n % 256]
  }

  function ValueOf(b: Bytes): nat {
    if b == [] then 0 else ValueOf(b[..|b| - 1]) * 256 + b[|b| - 1]
  }

  function Pow256(width: nat): nat {
    if width == 0 then 1 else 256 * Pow256(width - 1)
  }

  lemma ModStep(n: nat, m: nat)
    requires m > 0
    ensures (n / 256 % m) * 256 + n % 256 == n % (256 * m)
  {
    var q, r := n / 256 / m, n / 256 % m;
    assert n / 256 == q * m + r;
    assert n == (q * m + r) * 256 + n % 256;
    assert n == q * (256 * m) + (r * 256 + n % 256);
    assert 0 <= r * 256 + n % 256 < 256 * m;
    ModUnique(n, 256 * m, q, r * 256 + n % 256);
  }

  lemma ModUnique(n: nat, m: nat, q: nat, r: nat)
    requires m > 0 && n == q * m + r && r < m
    ensures n % m == r
  {
    var q', r' := n / m, n % m;
    assert (q' - q) * m == r - r' by {
      assert n == q' * m + r';
    }
    SmallMultiple(q' - q, m);
  }

  lemma SmallMultiple(d: int, m: int)
    requires -m < d * m < m
    ensures d == 0
  {
    assert d >= 1 ==> d * m >= m;
    assert d <= -1 ==> d * m <= -m;
  }

  lemma {:induction false} Pow256Positive(width: nat)
    ensures Pow256(width) > 0
  {
    if width > 0 {
      Pow256Positive(width - 1);
    }
  }

  /** The counter block for `n` stands for n mod 256^width. */
  lemma {:induction false} BigEndianValue(n: nat, width: nat)
    ensures Pow256(width) > 0 && ValueOf(BigEndian(n, width)) == n % Pow256(width)
  {
    Pow256Positive(width);
    if width > 0 {
      BigEndianValue(n / 256, width - 1);
      assert BigEndian(n, width)[..width - 1] == BigEndian(n / 256, width - 1);
      ModStep(n, Pow256(width - 1));
    }
  }

  /** Adding one with carry, last byte first. */
  function Increment(b: Bytes): Bytes {
    if b == [] then []
    else
      var init, last := b[..|b| - 1], b[|b| - 1];
      if last == 255 then Increment(init) + [0] else init + [last + 1]
  }

  /** The carry is addition: the block for `n` becomes the block for `n + 1`, wrapping at the end. */
  lemma {:induction false} IncrementAdds(n: nat, width: nat)
    ensures Increment(BigEndian(n, width)) == BigEndian(n + 1, width)
  {
    if width > 0 {
      IncrementAdds(n / 256, width - 1);
      assert BigEndian(n, width)[..width - 1] == BigEndian(n / 256, width - 1);
      if n % 256 == 255 {
        assert (n + 1) / 256 == n / 256 + 1 && (n + 1) % 256 == 0;
      } else {
        assert (n + 1) / 256 == n / 256 && (n + 1) % 256 == n % 256 + 1;
      }
    }
  }

  /** The in-place loop over the counter array: wrap each byte and stop at the first without a carry. */
  method IncrementInPlace(counter: array<byte>)
    modifies counter
    ensures counter[..] == Increment(old(counter[..]))
  {
    var i := counter.Length;
    ghost var was := counter[..];
    assert was[..i] == was;
    while i > 0
      invariant 0 <= i <= counter.Length
      invariant counter[..i] == was[..i]
      invariant Increment(was) == Increment(was[..i]) + counter[i..]
    {
      i := i - 1;
      assert was[..i + 1][..i] == was[..i] && was[..i + 1][i] == counter[i];
      ghost var rest := counter[i + 1..];
      var last: int := counter[i];
      var next: byte := (last + 1) % 256;
      counter[i] := next;
      assert counter[i..] == [next] + rest;
      if next != 0 {
        assert Increment(was[..i + 1]) == was[..i] + [next];
        assert counter[..] == was[..i] + [next] + rest;
        return;
      }
    }
    assert counter[0..] == counter[..];
  }

  // ----- the keystream -----

  type Cipher = (Bytes, Block) -> Block

  /** The byte that masks position `j`: byte `j % 16` of the cipher of block number `j / 16`. */
  function Mask(cipher: Cipher, key: Bytes, j: nat): byte {
    cipher(key, BigEndian(j / 16, 16))[j % 16]
  }

  function Ctr(cipher: Cipher, key: Bytes, text: Bytes): Bytes {
    seq(|text|, j requires 0 <= j < |text| => Xor(text[j], Mask(cipher, key, j)))
  }

  /** For every block function and every length, the transform keeps the length and undoes itself. */
  lemma CtrIsItsOwnInverse(cipher: Cipher, key: Bytes, text: Bytes)
    ensures |Ctr(cipher, key, text)| == |text|
    ensures Ctr(cipher, key, Ctr(cipher, key, text)) == text
  {
    forall j | 0 <= j < |text| ensures Ctr(cipher, key, Ctr(cipher, key, text))[j] == text[j] {
      XorTwice(text[j], Mask(cipher, key, j));
    }
  }

  /** The counter wraps after 2^128 blocks, as section B.1 of the standard allows. */
  lemma CounterIsBlockIndex(n: nat)
    ensures ValueOf(BigEndian(n, 16)) == n % 0x1_0000_0000_0000_0000_0000_0000_0000_0000
  {
    BigEndianValue(n, 16);
    assert Pow256(4) == 0x1_0000_0000;
    assert Pow256(8) == 0x1_0000_0000_0000_0000;
    assert Pow256(12) == 0x1_0000_0000_0000_0000_0000_0000;
    assert Pow256(16) == 0x1_0000_0000_0000_0000_0000_0000_0000_0000;
  }

  /** The inner loop: one chunk against one block of keystream. */
  method MaskChunk(chunk: Bytes, block: Block) returns (out: Bytes)
    requires |chunk| <= 16
    ensures |out| == |chunk| && forall i :: 0 <= i < |chunk| ==> out[i] == Xor(chunk[i], block[i])
  {
    out := [];
    for i := 0 to |chunk|
      invariant |out| == i && forall k :: 0 <= k < i ==> out[k] == Xor(chunk[k], block[k])
    {
      out := out + [Xor(chunk[i], block[i])];
    }
  }

  /** A masked chunk of block number `n` is the transform's output at its place. */
  lemma ChunkOfCtr(cipher: Cipher, key: Bytes, text: Bytes, n: nat, end: nat, masked: Bytes, block: Block)
    requires 16 * n <= end <= |text| && end <= 16 * n + 16 && |masked| == end - 16 * n
    requires block == cipher(key, BigEndian(n, 16))
    requires forall i :: 0 <= i < |masked| ==> masked[i] == Xor(text[16 * n..end][i], block[i])
    ensures Ctr(cipher, key, text)[..16 * n] + masked == Ctr(cipher, key, text)[..end]
  {
    var all := Ctr(cipher, key, text);
    forall i | 0 <= i < |masked| ensures masked[i] == all[16 * n + i] {
      CtrAt(cipher, key, text, n, i);
      assert text[16 * n..end][i] == text[16 * n + i];
    }
    PrefixGrows(all, 16 * n, masked);
  }

  lemma CtrAt(cipher: Cipher, key: Bytes, text: Bytes, n: nat, i: nat)
    requires i < 16 && 16 * n + i < |text|
    ensures Ctr(cipher, key, text)[16 * n + i] == Xor(text[16 * n + i], cipher(key, BigEndian(n, 16))[i])
  {
    MaskOfBlock(cipher, key, n, i);
  }

  lemma PrefixGrows(all: Bytes, at: nat, more: Bytes)
    requires at + |more| <= |all| && forall i :: 0 <= i < |more| ==> more[i] == all[at + i]
    ensures all[..at] + more == all[..at + |more|]
  {
  }

  lemma MaskOfBlock(cipher: Cipher, key: Bytes, n: nat, i: nat)
    requires i < 16
    ensures Mask(cipher, key, 16 * n + i) == cipher(key, BigEndian(n, 16))[i]
  {
    assert (16 * n + i) / 16 == n && (16 * n + i) % 16 == i;
  }

  /** `aes256_ctr_encrypt`. */
  method Aes256CtrEncrypt(cipher: Cipher, key: Bytes, plaintext: Bytes) returns (r: Result<Bytes, ()>)
    ensures r == if |key| == 32 then Ok(Ctr(cipher, key, plaintext)) else Err(())
  {
    if |key| != 32 {
      return Err(());
    }
    var counter := new byte[16](_ => 0);
    var out: Bytes := [];
    var n: nat := 0;
    ghost var all := Ctr(cipher, key, plaintext);
    ZeroBlock(16);
    assert counter[..] == BigEndian(0, 16);
    while 16 * n < |plaintext|
      invariant counter[..] == BigEndian(n, 16)
      invariant out == all[..if 16 * n < |plaintext| then 16 * n else |plaintext|]
      decreases |plaintext| - 16 * n
    {
      var block := cipher(key, counter[..]);
      var end := if 16 * n + 16 < |plaintext| then 16 * n + 16 else |plaintext|;
      var masked := MaskChunk(plaintext[16 * n..end], block);
      ChunkOfCtr(cipher, key, plaintext, n, end, masked, block);
      out := out + masked;
      IncrementAdds(n, 16);
      IncrementInPlace(counter);
      n := n + 1;
    }
    assert all[..|plaintext|] == all;
    r := Ok(out);
  }

  lemma {:induction false} ZeroBlock(width: nat)
    ensures BigEndian(0, width) == seq(width, _ => 0)
  {
    if width > 0 {
      ZeroBlock(width - 1);
    }
  }
}
