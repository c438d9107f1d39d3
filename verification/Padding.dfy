/** Signal's application padding: a 0x80 marker, then zeros to the next multiple of 160. */
module Padding {
  import opened Common

  const UNIT: nat := 160

  function Zeros(n: nat): Bytes {
    seq(n, _ => 0)
  }

  /** The least multiple of 160 strictly above `n`. */
  function PaddedLen(n: nat): nat {
    (n / UNIT + 1) * UNIT
  }

  lemma PaddedLenIsLeast(n: nat, m: nat)
    ensures PaddedLen(n) % 160 == 0 && n < PaddedLen(n) <= n + 160
    ensures m % 160 == 0 && n < m ==> PaddedLen(n) <= m
  {
  }

  function Pad(content: Bytes): Bytes {
    content + [0x80] + Zeros(PaddedLen(|content|) - |content| - 1)
  }

  /** `signal_pad`. */
  method SignalPad(content: Bytes) returns (out: Bytes)
    ensures out == Pad(content)
  {
    out := content + [0x80];
    PaddedLenIsLeast(|content|, 0);
    while |out| % UNIT != 0
      invariant |content| < |out| <= PaddedLen(|content|)
      invariant out == content + [0x80] + Zeros(|out| - |content| - 1)
      decreases PaddedLen(|content|) - |out|
    {
      out := out + [0x00];
    }
    PaddedLenIsLeast(|content|, |out|);
  }

  function StripZeros(b: Bytes): Bytes {
    if b != [] && b[|b| - 1] == 0 then StripZeros(b[..|b| - 1]) else b
  }

  function Strip(b: Bytes): Bytes {
    var s := StripZeros(b);
    if s != [] && s[|s| - 1] == 0x80 then s[..|s| - 1] else s
  }

  /** `strip_signal_padding`. */
  method StripSignalPadding(plaintext: Bytes) returns (out: Bytes)
    ensures out == Strip(plaintext)
  {
    out := plaintext;
    while out != [] && out[|out| - 1] == 0x00
      invariant StripZeros(out) == StripZeros(plaintext)
      decreases |out|
    {
      out := out[..|out| - 1];
    }
    if out != [] && out[|out| - 1] == 0x80 {
      out := out[..|out| - 1];
    }
  }

  lemma {:induction false} StripTrailing(b: Bytes, n: nat)
    requires b != [] && b[|b| - 1] != 0
    ensures StripZeros(b + Zeros(n)) == b
  {
    if n > 0 {
      var p := b + Zeros(n);
      assert p[..|p| - 1] == b + Zeros(n - 1);
      StripTrailing(b, n - 1);
    } else {
      assert b + Zeros(0) == b;
    }
  }

  /** Stripping undoes padding for every content, one that ends in zeros or markers included. */
  lemma StripUndoesPad(content: Bytes)
    ensures Strip(Pad(content)) == content
    ensures |Pad(content)| == PaddedLen(|content|)
  {
    PaddedLenIsLeast(|content|, 0);
    StripTrailing(content + [0x80], PaddedLen(|content|) - |content| - 1);
  }
}
