/**
  The streaming half of MD5: the partial-block buffer, the 64-bit length counter kept in two 32-bit
  words, and the two padding branches.

  The compression function and the encoding of the chaining value are parameters, so nothing here
  depends on what they compute.  The host is little-endian, as the rest of the program presumes
  (the shard number is read from the digest through an integer pointer).
*/
module Md5Stream {
  import opened Bytes

  const TWO32: int := 0x1_0000_0000
  const TWO64: int := 0x1_0000_0000_0000_0000

  function Zeros(n: nat): (r: seq<byte>)
    ensures |r| == n
  {
    seq(n, _ => 0)
  }

  function LittleEndian32(n: nat): (r: seq<byte>)
    ensures |r| == 4
  {
    [n % 256, n / 256 % 256, n / 65536 % 256, n / 16777216 % 256]
  }

  function LittleEndian64(n: nat): (r: seq<byte>)
    ensures |r| == 8
  {
    LittleEndian32(n % TWO32) + LittleEndian32(n / TWO32)
  }

  // ----- the specification: sections 3.1, 3.2 and 3.4 of RFC 1321 -----

  // as few zero bytes as bring the length to 56 modulo 64
  function PaddingZeros(length: nat): (r: nat)
    ensures (length + 1 + r) % 64 == 56 && r < 64
  {
    (119 - length % 64) % 64
  }

  function Padded(msg: seq<byte>): (r: seq<byte>) {
    msg + [0x80] + Zeros(PaddingZeros(|msg|)) + LittleEndian64(8 * |msg| % TWO64)
  }

  lemma FourBytesRead(n: nat)
    requires n < TWO32
    ensures var b := LittleEndian32(n);
            (b[0] as int) + 0x100 * (b[1] as int) + 0x1_0000 * (b[2] as int) + 0x100_0000 * (b[3] as int) == n
  {
    assert n / 65536 == n / 256 / 256 && n / 16777216 == n / 65536 / 256;
  }

  // whole blocks: the message, a one bit, zero bits, fewer than a block of them, and the length in bits, modulo 2^64
  // and low byte first
  lemma PaddedForm(msg: seq<byte>)
    ensures var p, m := Padded(msg), |msg|;
            var n := |p| - 8;
            && |p| % 64 == 0 && m < n <= m + 64
            && p[..m] == msg && p[m] == 128 && (forall i :: m < i < n ==> p[i] == 0)
            && (p[n] as int) + 0x100 * (p[n + 1] as int) + 0x1_0000 * (p[n + 2] as int) +
               0x100_0000 * (p[n + 3] as int) == 8 * m % TWO64 % TWO32
            && (p[n + 4] as int) + 0x100 * (p[n + 5] as int) + 0x1_0000 * (p[n + 6] as int) +
               0x100_0000 * (p[n + 7] as int) == 8 * m % TWO64 / TWO32
  {
    var bits := 8 * |msg| % TWO64;
    FourBytesRead(bits % TWO32);
    FourBytesRead(bits / TWO32);
    WholeBlocks(|msg|);
  }

  lemma WholeBlocks(n: nat)
    ensures (n + 1 + PaddingZeros(n) + 8) % 64 == 0
  {
  }

  // the chaining value after the first n blocks of s
  function Chained<C>(f: (C, seq<byte>) -> C, iv: C, s: seq<byte>, n: nat): C
    requires 64 * n <= |s|
  {
    if n == 0 then iv else f(Chained(f, iv, s, n - 1), s[64 * (n - 1)..64 * n])
  }

  function DigestOf<C>(f: (C, seq<byte>) -> C, iv: C, encode: C -> seq<byte>, msg: seq<byte>): seq<byte> {
    encode(Chained(f, iv, Padded(msg), |Padded(msg)| / 64))
  }

  // the blocks of a prefix
  lemma {:induction false} ChainedPrefix<C>(f: (C, seq<byte>) -> C, iv: C, s: seq<byte>, t: seq<byte>, n: nat)
    requires 64 * n <= |s|
    ensures Chained(f, iv, s + t, n) == Chained(f, iv, s, n)
  {
    if n > 0 {
      ChainedPrefix(f, iv, s, t, n - 1);
      assert (s + t)[64 * (n - 1)..64 * n] == s[64 * (n - 1)..64 * n];
    }
  }

  // ----- the two counter words -----

  function LowAdd(low: nat, n: nat): nat {
    (low + 8 * n % TWO32) % TWO32
  }

  function HighAdd(low: nat, high: nat, n: nat): nat {
    ((if LowAdd(low, n) < low then (high + 1) % TWO32 else high) + n / 0x2000_0000) % TWO32
  }

  lemma CounterAdds(low: nat, high: nat, n: nat, total: nat)
    requires low < TWO32 && high < TWO32 && n < TWO32
    requires low + TWO32 * high == 8 * total % TWO64
    ensures LowAdd(low, n) + TWO32 * HighAdd(low, high, n) == 8 * (total + n) % TWO64
  {
    var add := 8 * n % TWO32;
    var over := n / 0x2000_0000;
    assert 8 * n == add + TWO32 * over;
    var carry := if low + add >= TWO32 then 1 else 0;
    assert LowAdd(low, n) == low + add - TWO32 * carry;
    assert LowAdd(low, n) < low <==> carry == 1;
    var high' := HighAdd(low, high, n);
    var wrap := (high + carry + over) / TWO32;
    assert high' == high + carry + over - TWO32 * wrap by {
      HighWraps(high, carry, over);
    }
    var q := 8 * total / TWO64;
    assert LowAdd(low, n) + TWO32 * high' == 8 * (total + n) - TWO64 * q - TWO64 * wrap;
    ModUnique(LowAdd(low, n) + TWO32 * high', 8 * (total + n), q + wrap);
  }

  lemma HighWraps(high: nat, carry: nat, over: nat)
    requires high < TWO32 && carry <= 1
    ensures ((if carry == 1 then (high + 1) % TWO32 else high) + over) % TWO32
            == high + carry + over - TWO32 * ((high + carry + over) / TWO32)
  {
    if carry == 1 && high + 1 == TWO32 {
      assert (high + 1 + over) / TWO32 == over / TWO32 + 1;
    }
  }

  lemma ModUnique(r: nat, n: nat, q: int)
    requires r < TWO64 && n == r + TWO64 * q
    ensures r == n % TWO64
  {
  }

  // the low word gives the fill of the buffer
  lemma LowWordGivesFill(low: nat, high: nat, total: nat)
    requires low < TWO32 && low + TWO32 * high == 8 * total % TWO64
    ensures low / 8 % 64 == total - 64 * (total / 64)
  {
    var q := 8 * total / TWO64;
    var m := 0x80_0000 * (high + TWO32 * q);
    assert 8 * total == low + 512 * m;
    assert low == 8 * (total - 64 * m);
    Fill(total, m, low / 8);
  }

  lemma Fill(total: nat, m: nat, rest: nat)
    requires total == 64 * m + rest
    ensures rest % 64 == total - 64 * (total / 64)
  {
    assert total == 64 * (m + rest / 64) + rest % 64;
  }

  lemma CounterBytes(low: nat, high: nat)
    requires low < TWO32 && high < TWO32
    ensures LittleEndian64(low + TWO32 * high) == LittleEndian32(low) + LittleEndian32(high)
  {
    assert (low + TWO32 * high) % TWO32 == low;
    assert (low + TWO32 * high) / TWO32 == high;
  }

  lemma WordRoundTrip(b0: byte, b1: byte, b2: byte, b3: byte)
    ensures LittleEndian32((b3 * 256 + b2) * 65536 + (b1 * 256 + b0)) == [b0, b1, b2, b3]
  {
    var n := (b3 * 256 + b2) * 65536 + (b1 * 256 + b0);
    assert n / 256 == b3 * 65536 + b2 * 256 + b1;
    assert n / 65536 == b3 * 256 + b2;
    assert n / 16777216 == b3;
  }

  // ----- the padding branches -----

  // the two ways Final finishes, from chaining value c and the bytes left in the buffer
  function LastBlocks<C>(f: (C, seq<byte>) -> C, c: C, rest: seq<byte>, bits: seq<byte>): C
    requires |rest| < 64
  {
    if |rest| < 56 then f(c, rest + [0x80] + Zeros(55 - |rest|) + bits)
    else f(f(c, rest + [0x80] + Zeros(63 - |rest|)), Zeros(56) + bits)
  }

  lemma OneLastBlock<C>(f: (C, seq<byte>) -> C, iv: C, msg: seq<byte>, k: nat, bits: seq<byte>)
    requires 64 * k <= |msg| < 64 * k + 56 && |bits| == 8
    ensures var s := msg + [0x80] + Zeros(64 * k + 55 - |msg|) + bits;
            |s| == 64 * (k + 1) &&
            Chained(f, iv, s, k + 1) == LastBlocks(f, Chained(f, iv, msg, k), msg[64 * k..], bits)
  {
    var tail := [0x80] + Zeros(64 * k + 55 - |msg|) + bits;
    var s := msg + [0x80] + Zeros(64 * k + 55 - |msg|) + bits;
    assert s == msg + tail;
    ChainedPrefix(f, iv, msg, tail, k);
    assert s[64 * k..64 * (k + 1)] == msg[64 * k..] + [0x80] + Zeros(64 * k + 55 - |msg|) + bits;
  }

  lemma TwoLastBlocks<C>(f: (C, seq<byte>) -> C, iv: C, msg: seq<byte>, k: nat, bits: seq<byte>)
    requires 64 * k + 56 <= |msg| < 64 * k + 64 && |bits| == 8
    ensures var s := msg + [0x80] + Zeros(64 * k + 119 - |msg|) + bits;
            |s| == 64 * (k + 2) &&
            Chained(f, iv, s, k + 2) == LastBlocks(f, Chained(f, iv, msg, k), msg[64 * k..], bits)
  {
    var tail := [0x80] + Zeros(64 * k + 119 - |msg|) + bits;
    var s := msg + [0x80] + Zeros(64 * k + 119 - |msg|) + bits;
    assert s == msg + tail;
    ChainedPrefix(f, iv, msg, tail, k);
    assert s[64 * k..64 * (k + 1)] == msg[64 * k..] + [0x80] + Zeros(64 * k + 63 - |msg|);
    assert s[64 * (k + 1)..64 * (k + 2)] == Zeros(56) + bits;
    var c1 := Chained(f, iv, s, k + 1);
    assert c1 == f(Chained(f, iv, s, k), s[64 * k..64 * (k + 1)]);
    assert Chained(f, iv, s, k + 2) == f(c1, s[64 * (k + 1)..64 * (k + 2)]);
  }

  lemma BlockCount(length: nat, k: nat)
    requires 64 * k <= length < 64 * k + 64
    ensures length / 64 == k
  {
  }

  lemma ZerosCount(length: nat, k: nat)
    requires 64 * k <= length < 64 * k + 64
    ensures PaddingZeros(length) == if length < 64 * k + 56 then 64 * k + 55 - length else 64 * k + 119 - length
  {
    assert length % 64 == length - 64 * k;
  }

  // the padded message is the whole blocks, then one or two blocks built from the rest
  lemma PaddedBlocks<C>(f: (C, seq<byte>) -> C, iv: C, msg: seq<byte>, k: nat)
    requires 64 * k <= |msg| < 64 * k + 64
    ensures Chained(f, iv, Padded(msg), |Padded(msg)| / 64)
            == LastBlocks(f, Chained(f, iv, msg, k), msg[64 * k..], LittleEndian64(8 * |msg| % TWO64))
  {
    var bits := LittleEndian64(8 * |msg| % TWO64);
    ZerosCount(|msg|, k);
    if |msg| < 64 * k + 56 {
      OneLastBlock(f, iv, msg, k, bits);
    } else {
      TwoLastBlocks(f, iv, msg, k, bits);
    }
  }

  // ----- the object -----

  // memcpy and memset into a fixed buffer
  method CopyInto(dst: array<byte>, at: nat, src: seq<byte>)
    requires at + |src| <= dst.Length
    modifies dst
    ensures dst[..] == old(dst[..at]) + src + old(dst[at + |src|..])
  {
    forall k | 0 <= k < |src| {
      dst[at + k] := src[k];
    }
  }

  class Md5<C> {
    const f: (C, seq<byte>) -> C
    const iv: C
    const encode: C -> seq<byte>

    var chain: C                 // m_uiBuf
    var low: nat                 // m_uiBits[0]
    var high: nat                // m_uiBits[1]
    const input: array<byte>     // m_ucIn

    ghost var msg: seq<byte>     // everything fed in since Init

    constructor (f: (C, seq<byte>) -> C, iv: C, encode: C -> seq<byte>)
      ensures this.f == f && this.iv == iv && this.encode == encode
      ensures Valid() && msg == [] && fresh(input)
    {
      this.f, this.iv, this.encode := f, iv, encode;
      chain, low, high, msg := iv, 0, 0, [];
      input := new byte[64](_ => 0);
    }

    ghost predicate Counted()
      reads this
    {
      low < TWO32 && high < TWO32 && low + TWO32 * high == 8 * |msg| % TWO64
    }

    // k whole blocks are compressed and the bytes after them are in the buffer
    ghost predicate Holds(k: nat)
      reads this, input
    {
      && input.Length == 64
      && 64 * k <= |msg| < 64 * k + 64
      && input[..|msg| - 64 * k] == msg[64 * k..]
      && chain == Chained(f, iv, msg, k)
    }

    // the counter holds 8 * total mod 2^64, the buffer the last (total mod 64) bytes,
    // and the chaining value the fold over all the whole blocks before them
    ghost predicate Valid()
      reads this, input
    {
      Counted() && Holds(|msg| / 64)
    }

    method Init()
      requires input.Length == 64
      modifies this
      ensures Valid() && msg == []
    {
      chain := iv;
      low, high := 0, 0;
      msg := [];
    }

    // on a little-endian host reading each word least byte first and storing it back is the identity
    method ByteReverse(words: nat)
      requires input.Length == 64 && 1 <= words <= 16
      modifies input
      ensures input[..] == old(input[..])
    {
      var at, left := 0, words;
      while left > 0
        invariant left <= words && at == 4 * (words - left)
        invariant input[..] == old(input[..])
      {
        var b0: int, b1: int, b2: int, b3: int := input[at], input[at + 1], input[at + 2], input[at + 3];
        var value: nat := (b3 * 256 + b2) * 65536 + (b1 * 256 + b0);
        WordRoundTrip(b0, b1, b2, b3);
        ghost var before := input[..];
        CopyInto(input, at, LittleEndian32(value));
        assert before == before[..at] + before[at..at + 4] + before[at + 4..];
        assert before[at..at + 4] == LittleEndian32(value);
        at, left := at + 4, left - 1;
      }
    }

    method Transform()
      requires input.Length == 64
      modifies this`chain
      ensures chain == f(old(chain), input[..])
    {
      chain := f(chain, input[..]);
    }

    // the counter update at the head of Update; returns the old fill of the buffer
    method Count(data: seq<byte>) returns (fill: nat)
      requires Counted() && |data| < TWO32
      modifies this`low, this`high, this`msg
      ensures Counted() && msg == old(msg) + data
      ensures fill == old(|msg| - 64 * (|msg| / 64))
    {
      LowWordGivesFill(low, high, |msg|);
      CounterAdds(low, high, |data|, |msg|);
      var value := low;
      low := (value + 8 * |data| % TWO32) % TWO32;
      if low < value {
        high := (high + 1) % TWO32;
      }
      high := (high + |data| / 0x2000_0000) % TWO32;
      msg := msg + data;
      fill := value / 8 % 64;
    }

    // one whole block of the message through the buffer
    method Absorb(block: seq<byte>, at: nat, ghost k: nat)
      requires input.Length == 64 && at + |block| == 64 && 64 * (k + 1) <= |msg|
      requires chain == Chained(f, iv, msg, k)
      requires input[..at] + block == msg[64 * k..64 * (k + 1)]
      modifies this`chain, input
      ensures chain == Chained(f, iv, msg, k + 1)
    {
      CopyInto(input, at, block);
      assert input[..] == msg[64 * k..64 * (k + 1)];
      ByteReverse(16);
      Transform();
    }

    // the bytes that do not fill a block stay in the buffer
    method Keep(at: nat, rest: seq<byte>, ghost k: nat)
      requires input.Length == 64 && 64 * k <= |msg| < 64 * k + 64 && at + |rest| == |msg| - 64 * k
      requires chain == Chained(f, iv, msg, k)
      requires input[..at] + rest == msg[64 * k..]
      modifies input
      ensures Holds(k)
    {
      CopyInto(input, at, rest);
      assert input[..|msg| - 64 * k] == msg[64 * k..];
    }

    // the block loop at the end of Update
    method AbsorbAll(data: seq<byte>, start: nat, ghost done: nat) returns (ghost k: nat)
      requires input.Length == 64 && start <= |data| && 64 * done <= |msg|
      requires msg[64 * done..] == data[start..]
      requires chain == Chained(f, iv, msg, done)
      modifies this`chain, input
      ensures Holds(k)
    {
      var at := start;
      k := done;
      while |data| - at >= 64
        invariant start <= at <= |data| && 64 * k <= |msg|
        invariant msg[64 * k..] == data[at..]
        invariant chain == Chained(f, iv, msg, k)
      {
        assert data[at..at + 64] == data[at..][..64] == msg[64 * k..][..64] == msg[64 * k..64 * (k + 1)];
        assert data[at + 64..] == data[at..][64..] == msg[64 * k..][64..] == msg[64 * (k + 1)..];
        Absorb(data[at..at + 64], 0, k);
        at, k := at + 64, k + 1;
      }
      assert |data| - at == |msg| - 64 * k;
      Keep(0, data[at..], k);
    }

    method Update(data: seq<byte>)
      requires Valid() && |data| < TWO32
      modifies this, input
      ensures Valid() && msg == old(msg) + data
    {
      ghost var before, k := msg, |msg| / 64;
      var fill := Count(data);
      ChainedPrefix(f, iv, before, data, k);
      assert msg[64 * k..] == input[..fill] + data;
      var at := 0;
      if fill != 0 {
        var room := 64 - fill;
        if |data| < room {
          Keep(fill, data, k);
          BlockCount(|msg|, k);
          return;
        }
        assert input[..fill] + data[..room] == msg[64 * k..][..64] == msg[64 * k..64 * (k + 1)];
        assert data[room..] == msg[64 * k..][64..] == msg[64 * (k + 1)..];
        Absorb(data[..room], fill, k);
        at, k := room, k + 1;
      }
      k := AbsorbAll(data, at, k);
      BlockCount(|msg|, k);
    }

    // the last eight bytes of the last block
    method AppendLength()
      requires input.Length == 64 && Counted()
      modifies input
      ensures input[..] == old(input[..56]) + LittleEndian64(8 * |msg| % TWO64)
    {
      ByteReverse(14);
      ghost var head := input[..56];
      assert head == old(input[..])[..56];
      CopyInto(input, 56, LittleEndian32(low));
      CopyInto(input, 60, LittleEndian32(high));
      CounterBytes(low, high);
    }

    // pads in place, compresses the last one or two blocks and returns the encoded chaining value
    method Final() returns (digest: seq<byte>)
      requires Valid()
      modifies this`chain, input
      ensures digest == DigestOf(f, iv, encode, msg)
    {
      ghost var k := |msg| / 64;
      PaddedBlocks(f, iv, msg, k);
      LowWordGivesFill(low, high, |msg|);
      var fill := low / 8 % 64;
      FinishBlocks(fill);
      digest := encode(chain);
    }

    method FinishBlocks(fill: nat)
      requires input.Length == 64 && Counted() && fill < 64
      modifies this`chain, input
      ensures chain == LastBlocks(f, old(chain), old(input[..fill]), LittleEndian64(8 * |msg| % TWO64))
    {
      ghost var rest, bits := input[..fill], LittleEndian64(8 * |msg| % TWO64);
      CopyInto(input, fill, [0x80]);
      var left := 63 - fill;
      if left < 8 {
        CopyInto(input, fill + 1, Zeros(left));
        assert input[..] == rest + [0x80] + Zeros(left);
        ByteReverse(16);
        Transform();
        CopyInto(input, 0, Zeros(56));
        assert input[..56] == Zeros(56);
        AppendLength();
        assert input[..] == Zeros(56) + bits;
      } else {
        CopyInto(input, fill + 1, Zeros(left - 8));
        assert input[..56] == rest + [0x80] + Zeros(left - 8);
        AppendLength();
        assert input[..] == rest + [0x80] + Zeros(left - 8) + bits;
      }
      Transform();
    }
  }

  function Joined(pieces: seq<seq<byte>>): seq<byte> {
    if pieces == [] then [] else Joined(pieces[..|pieces| - 1]) + pieces[|pieces| - 1]
  }

  // Init, any number of Updates, Final: the way the message is cut does not matter
  method Hash<C>(m: Md5<C>, pieces: seq<seq<byte>>) returns (digest: seq<byte>)
    requires m.input.Length == 64
    requires forall k :: 0 <= k < |pieces| ==> |pieces[k]| < TWO32
    modifies m, m.input
    ensures digest == DigestOf(m.f, m.iv, m.encode, Joined(pieces))
  {
    m.Init();
    for k := 0 to |pieces|
      invariant m.Valid() && m.msg == Joined(pieces[..k])
    {
      m.Update(pieces[k]);
      assert pieces[..k + 1][..k] == pieces[..k];
    }
    assert pieces[..|pieces|] == pieces;
    digest := m.Final();
  }
}
