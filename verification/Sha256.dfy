/** SHA-256: the padding state machine and the 16-word schedule of core/silkworm/crypto/sha-256.c
    against FIPS 180-4. */
module Sha256 {
  import opened Basics

  const CHUNK_SIZE: nat := 64
  const TOTAL_LEN_LEN: nat := 8

  // --- section 5.1.1: padding ---

  function Zeros(n: nat): (s: Bytes)
    ensures |s| == n && forall i | 0 <= i < n :: s[i] == 0
  {
    seq(n, _ => 0)
  }

  /** The low `k` bytes of `n`, most significant first. */
  function BigEndianBytes(n: nat, k: nat): (s: Bytes)
    ensures |s| == k
    decreases k
  {
    if k == 0 then [] else BigEndianBytes(n / 256, k - 1) + [n % 256]
  }

  function Be64(n: nat): (s: Bytes)
    ensures |s| == 8
  {
    BigEndianBytes(n, 8)
  }

  /** The rest of a message of `total` bytes, a one bit, zeros up to 8 bytes before the end of
      a chunk, and the length in bits. */
  function Tail(rest: Bytes, total: nat): (s: Bytes)
  {
    rest + [0x80] + Zeros((55 - |rest|) % 64) + Be64(8 * total)
  }

  function Pad(message: Bytes): (s: Bytes)
  {
    Tail(message, |message|)
  }

  lemma PaddingFits(n: nat)
    ensures 0 <= (55 - n) % 64 < 64
    ensures (n + 9 + (55 - n) % 64) % 64 == 0
  {
    var z := (55 - n) % 64;
    assert (55 - n) / 64 * 64 == 55 - n - z;
    assert n + 9 + z == 64 * (1 - (55 - n) / 64);
  }

  /** The padded message is the shortest that ends a chunk. */
  lemma PadShortest(message: Bytes)
    ensures |Pad(message)| % 64 == 0 && message + [0x80] <= Pad(message)
    ensures |message| + 9 <= |Pad(message)| < |message| + 9 + 64
  {
    hide Zeros, Be64;
    PaddingFits(|message|);
    var z := (55 - |message|) % 64;
    assert Pad(message) == message + [0x80] + (Zeros(z) + Be64(8 * |message|));
  }

  lemma TailChunk(rest: Bytes, total: nat)
    requires |rest| >= 64
    ensures Tail(rest, total) == rest[..64] + Tail(rest[64..], total)
  {
    assert (55 - |rest|) % 64 == (55 - (|rest| - 64)) % 64;
    assert rest == rest[..64] + rest[64..];
  }

  lemma TailShort(rest: Bytes, total: nat)
    requires |rest| < 64
    ensures |rest| <= 55 ==> Tail(rest, total) == rest + [0x80] + Zeros(55 - |rest|) + Be64(8 * total)
    ensures |rest| > 55 ==>
      Tail(rest, total) == rest + [0x80] + Zeros(63 - |rest|) + (Zeros(56) + Be64(8 * total))
  {
    if |rest| > 55 {
      assert (55 - |rest|) % 64 == (63 - |rest|) + 56;
      assert Zeros((63 - |rest|) + 56) == Zeros(63 - |rest|) + Zeros(56);
    }
  }

  // --- writing into a chunk ---

  method Copy(chunk: array<Byte>, at: nat, s: Bytes)
    requires at + |s| <= chunk.Length
    modifies chunk
    ensures chunk[..] == old(chunk[..at]) + s + old(chunk[at + |s|..])
  {
    for i := 0 to |s|
      invariant forall k | 0 <= k < chunk.Length :: chunk[k] == if at <= k < at + i then s[k - at] else old(chunk[k])
    {
      chunk[at + i] := s[i];
    }
  }

  /** Stores `8 * length` without computing it. */
  method StoreLength(chunk: array<Byte>, at: nat, length: nat)
    requires at + 8 == chunk.Length
    modifies chunk
    ensures chunk[..] == old(chunk[..at]) + Be64(8 * length)
  {
    hide BigEndianBytes;
    var len := length;
    chunk[at + 7] := (len * 8) % 256;
    len := len / 32;
    LastByte(8 * length, 7);
    assert 8 * length / 256 == len;
    var i := 6;
    while i >= 0
      invariant -1 <= i <= 6
      invariant BigEndianBytes(len, i + 1) + chunk[at + i + 1..] == Be64(8 * length)
      invariant chunk[..at] == old(chunk[..at])
    {
      LastByte(len, i);
      chunk[at + i] := len % 256;
      assert chunk[at + i..] == [len % 256] + chunk[at + i + 1..];
      len := len / 256;
      i := i - 1;
    }
    LastByte(len, 0);
    assert chunk[..] == chunk[..at] + chunk[at..];
  }

  lemma LastByte(n: nat, k: nat)
    ensures BigEndianBytes(n, k + 1) == BigEndianBytes(n / 256, k) + [n % 256]
    ensures BigEndianBytes(n, 0) == []
  {
  }

  // --- the state machine ---

  class BufferState {
    const input: Bytes
    var p: nat
    var len: nat
    const totalLen: nat
    var oneDelivered: bool
    var lenDelivered: bool

    ghost predicate Valid()
      reads this
    {
      && totalLen == |input| && p + len == |input|
      && (oneDelivered ==> len == 0) && (lenDelivered ==> oneDelivered)
    }

    /** What is still to be delivered. */
    ghost function Remaining(): (s: Bytes)
      requires Valid()
      reads this
    {
      if lenDelivered then []
      else if oneDelivered then Zeros(56) + Be64(8 * totalLen)
      else Tail(input[p..], totalLen)
    }

    constructor (input: Bytes)
      ensures Valid() && this.input == input && Remaining() == Pad(input)
    {
      this.input, p, len, totalLen := input, 0, |input|, |input|;
      oneDelivered, lenDelivered := false, false;
      new;
      assert input[0..] == input;
    }

    /** Delivers the next chunk of the padded message, until there is none. */
    method CalcChunk(chunk: array<Byte>) returns (more: bool)
      requires Valid() && chunk.Length == CHUNK_SIZE
      modifies this, chunk
      ensures Valid()
      ensures more ==> old(Remaining()) == chunk[..] + Remaining()
      ensures !more ==> old(Remaining()) == [] && Remaining() == [] && chunk[..] == old(chunk[..])
    {
      hide Tail, Be64, Zeros;
      if lenDelivered {
        return false;
      }
      if len >= CHUNK_SIZE {
        FullChunk(input, p, totalLen);
        Copy(chunk, 0, input[p..p + CHUNK_SIZE]);
        WholeChunk(chunk[..], input[p..p + CHUNK_SIZE], old(chunk[..]));
        p, len := p + CHUNK_SIZE, len - CHUNK_SIZE;
        return true;
      }
      PadChunk(chunk);
      return true;
    }

    /** The last bytes of the message and, once, the bit that follows it. */
    method CopyRest(chunk: array<Byte>) returns (at: nat)
      requires Valid() && chunk.Length == CHUNK_SIZE && !lenDelivered && len < CHUNK_SIZE
      modifies this, chunk
      ensures Valid() && len == 0 && oneDelivered && !lenDelivered
      ensures at <= CHUNK_SIZE
      ensures chunk[..at] == if old(oneDelivered) then [] else old(input[p..]) + [0x80]
    {
      ghost var rest := input[p..];
      assert input[p..p + len] == rest;
      Copy(chunk, 0, input[p..p + len]);
      StartOf(chunk[..], rest, old(chunk[..]));
      at := len;
      p, len := p + len, 0;
      if !oneDelivered {
        ghost var before := chunk[..];
        chunk[at] := 0x80;
        Marked(before, chunk[..], rest);
        at := at + 1;
        oneDelivered := true;
      }
    }

    /** The end of the message, and as much of the padding as there is room for. */
    method PadChunk(chunk: array<Byte>)
      requires Valid() && chunk.Length == CHUNK_SIZE && !lenDelivered && len < CHUNK_SIZE
      modifies this, chunk
      ensures Valid() && old(Remaining()) == chunk[..] + Remaining()
    {
      hide Tail, Be64, Zeros;
      ghost var rest, first := input[p..], !oneDelivered;
      var at := CopyRest(chunk);
      ghost var filled := chunk[..];
      if CHUNK_SIZE - at >= TOTAL_LEN_LEN {
        Copy(chunk, at, Zeros(CHUNK_SIZE - at - TOTAL_LEN_LEN));
        FilledTo(chunk[..], filled, at, Zeros(56 - at));
        StoreLength(chunk, 56, totalLen);
        lenDelivered := true;
        LastChunk(rest, first, at, totalLen, chunk[..]);
      } else {
        Copy(chunk, at, Zeros(CHUNK_SIZE - at));
        FilledTo(chunk[..], filled, at, Zeros(64 - at));
        MiddleChunk(rest, totalLen, chunk[..]);
      }
    }
  }

  lemma FullChunk(input: Bytes, p: nat, total: nat)
    requires p + 64 <= |input|
    ensures Tail(input[p..], total) == input[p..p + 64] + Tail(input[p + 64..], total)
  {
    hide Tail;
    TailChunk(input[p..], total);
    assert input[p..][..64] == input[p..p + 64] && input[p..][64..] == input[p + 64..];
  }

  lemma WholeChunk(chunk: Bytes, s: Bytes, before: Bytes)
    requires |before| == |s| && chunk == before[..0] + s + before[0 + |s|..]
    ensures chunk == s
  {
  }

  lemma StartOf(chunk: Bytes, s: Bytes, before: Bytes)
    requires |s| <= |before| && chunk == before[..0] + s + before[0 + |s|..]
    ensures |chunk| == |before| && chunk[..|s|] == s
  {
  }

  lemma Marked(before: Bytes, after: Bytes, rest: Bytes)
    requires |rest| < |before| && before[..|rest|] == rest && after == before[|rest| := 0x80]
    ensures after[..|rest| + 1] == rest + [0x80]
  {
  }

  lemma FilledTo(chunk: Bytes, before: Bytes, at: nat, s: Bytes)
    requires at + |s| <= |before| && chunk == before[..at] + s + before[at + |s|..]
    ensures |chunk| == |before| && chunk[..at + |s|] == before[..at] + s
  {
  }

  /** There is room for the length: this chunk is the last. */
  lemma LastChunk(rest: Bytes, first: bool, at: nat, total: nat, chunk: Bytes)
    requires |rest| < 64 && at <= 56 && at == (if first then |rest| + 1 else 0)
    requires chunk == (if first then rest + [0x80] else []) + Zeros(56 - at) + Be64(8 * total)
    ensures (if first then Tail(rest, total) else Zeros(56) + Be64(8 * total)) == chunk + []
  {
    hide Tail, Be64, Zeros;
    TailShort(rest, total);
    assert [] + Zeros(56) == Zeros(56);
  }

  /** There is none: the length follows in a chunk of its own. */
  lemma MiddleChunk(rest: Bytes, total: nat, chunk: Bytes)
    requires 55 < |rest| < 64 && |chunk| == 64 && chunk[..64] == rest + [0x80] + Zeros(63 - |rest|)
    ensures Tail(rest, total) == chunk + (Zeros(56) + Be64(8 * total))
  {
    hide Tail, Be64, Zeros;
    TailShort(rest, total);
    assert chunk[..64] == chunk;
  }

  // --- section 4.1.2: functions on words ---

  type Word32 = bv32

  /** Addition modulo 2^32. */
  function Plus(x: Word32, y: Word32): (r: Word32) { x + y }

  function Sum(x: Word32, y: Word32, z: Word32, w: Word32): (r: Word32) { x + y + z + w }

  function RightRot(x: Word32, n: Word32): (r: Word32)
    requires 0 < n < 32
  {
    (x >> n) | (x << (32 - n))
  }

  function Ch(x: Word32, y: Word32, z: Word32): (r: Word32) { (x & y) ^ (!x & z) }

  function Maj(x: Word32, y: Word32, z: Word32): (r: Word32) { (x & y) ^ (x & z) ^ (y & z) }

  function BigSigma0(x: Word32): (r: Word32) { RightRot(x, 2) ^ RightRot(x, 13) ^ RightRot(x, 22) }

  function BigSigma1(x: Word32): (r: Word32) { RightRot(x, 6) ^ RightRot(x, 11) ^ RightRot(x, 25) }

  function SmallSigma0(x: Word32): (r: Word32) { RightRot(x, 7) ^ RightRot(x, 18) ^ (x >> 3) }

  function SmallSigma1(x: Word32): (r: Word32) { RightRot(x, 17) ^ RightRot(x, 19) ^ (x >> 10) }

  type Hash = h: seq<Word32> | |h| == 8 witness [0, 0, 0, 0, 0, 0, 0, 0]

  /** In rows of eight. */
  const K: seq<Hash> :=
    [[0x428a2f98, 0x71374491, 0xb5c0fbcf, 0xe9b5dba5, 0x3956c25b, 0x59f111f1, 0x923f82a4, 0xab1c5ed5],
     [0xd807aa98, 0x12835b01, 0x243185be, 0x550c7dc3, 0x72be5d74, 0x80deb1fe, 0x9bdc06a7, 0xc19bf174],
     [0xe49b69c1, 0xefbe4786, 0x0fc19dc6, 0x240ca1cc, 0x2de92c6f, 0x4a7484aa, 0x5cb0a9dc, 0x76f988da],
     [0x983e5152, 0xa831c66d, 0xb00327c8, 0xbf597fc7, 0xc6e00bf3, 0xd5a79147, 0x06ca6351, 0x14292967],
     [0x27b70a85, 0x2e1b2138, 0x4d2c6dfc, 0x53380d13, 0x650a7354, 0x766a0abb, 0x81c2c92e, 0x92722c85],
     [0xa2bfe8a1, 0xa81a664b, 0xc24b8b70, 0xc76c51a3, 0xd192e819, 0xd6990624, 0xf40e3585, 0x106aa070],
     [0x19a4c116, 0x1e376c08, 0x2748774c, 0x34b0bcb5, 0x391c0cb3, 0x4ed8aa4a, 0x5b9cca4f, 0x682e6ff3],
     [0x748f82ee, 0x78a5636f, 0x84c87814, 0x8cc70208, 0x90befffa, 0xa4506ceb, 0xbef9a3f7, 0xc67178f2]]

  function RoundConstant(t: nat): (k: Word32)
    requires t < 64
  {
    assert |K| == 8;
    K[t / 8][t % 8]
  }

  const INITIAL_HASH: seq<Word32> :=
    [0x6a09e667, 0xbb67ae85, 0x3c6ef372, 0xa54ff53a, 0x510e527f, 0x9b05688c, 0x1f83d9ab, 0x5be0cd19]

  // --- section 6.2.2: the compression of a block, with a schedule of 64 words ---

  function WordAt(block: Bytes, t: nat): (w: Word32)
    requires 4 * t + 4 <= |block|
  {
    var i := 4 * t;
    ((block[i] as Word32) << 24) | ((block[i + 1] as Word32) << 16) | ((block[i + 2] as Word32) << 8) | (block[i + 3] as Word32)
  }

  function Schedule(block: Bytes, t: nat): (w: Word32)
    requires |block| == 64
  {
    if t < 16 then WordAt(block, t)
    else
      Sum(SmallSigma1(Schedule(block, t - 2)), Schedule(block, t - 7), SmallSigma0(Schedule(block, t - 15)), Schedule(block, t - 16))
  }

  function Round(v: Hash, k: Word32, w: Word32): (r: Hash)
  {
    var t1 := Plus(Plus(Plus(Plus(v[7], BigSigma1(v[4])), Ch(v[4], v[5], v[6])), k), w);
    var t2 := Plus(BigSigma0(v[0]), Maj(v[0], v[1], v[2]));
    [Plus(t1, t2), v[0], v[1], v[2], Plus(v[3], t1), v[4], v[5], v[6]]
  }

  function Rounds(h: Hash, block: Bytes, n: nat): (v: Hash)
    requires |block| == 64 && n <= 64
  {
    if n == 0 then h else Round(Rounds(h, block, n - 1), RoundConstant(n - 1), Schedule(block, n - 1))
  }

  function Compress(h: Hash, block: Bytes): (r: Hash)
    requires |block| == 64
  {
    var v := Rounds(h, block, 64);
    seq(8, i requires 0 <= i < 8 => Plus(h[i], v[i]))
  }

  function HashBlocks(h: Hash, padded: Bytes): (r: Hash)
    requires |padded| % 64 == 0
    decreases |padded|
  {
    if padded == [] then h else HashBlocks(Compress(h, padded[..64]), padded[64..])
  }

  function WordBytes(w: Word32): (b: Bytes)
  {
    [(w >> 24) as int % 256, (w >> 16) as int % 256, (w >> 8) as int % 256, w as int % 256]
  }

  function Digest(h: seq<Word32>): (b: Bytes)
  {
    if h == [] then [] else Digest(h[..|h| - 1]) + WordBytes(h[|h| - 1])
  }

  /** Section 6.2 of FIPS 180-4. */
  function Sha(message: Bytes): (digest: Bytes)
  {
    PadShortest(message);
    Digest(HashBlocks(INITIAL_HASH, Pad(message)))
  }

  // --- the 16-word ring ---

  /** The index of the word in slot `q` of the ring after `j` rounds of pass `i`. */
  function RingIndex(i: nat, j: nat, q: nat): (u: int)
  {
    if q < j then 16 * i + q else 16 * i + q - 16
  }

  ghost predicate Ring(block: Bytes, w: seq<Word32>, i: nat, j: nat)
    requires |block| == 64
  {
    |w| == 16 && forall q | 0 <= q < 16 && RingIndex(i, j, q) >= 0 :: w[q] == Schedule(block, RingIndex(i, j, q))
  }

  lemma RingAt(block: Bytes, w: seq<Word32>, i: nat, j: nat, q: nat)
    requires |block| == 64 && Ring(block, w, i, j) && q < 16 && RingIndex(i, j, q) >= 0
    ensures |w| == 16 && w[q] == Schedule(block, RingIndex(i, j, q))
  {
  }

  lemma RingStep(block: Bytes, w: seq<Word32>, i: nat, j: nat)
    requires |block| == 64 && Ring(block, w, i, j) && j < 16
    ensures Ring(block, w[j := Schedule(block, 16 * i + j)], i, j + 1)
  {
    hide Schedule;
  }

  lemma RingPass(block: Bytes, w: seq<Word32>, i: nat)
    requires |block| == 64 && Ring(block, w, i, 16)
    ensures Ring(block, w, i + 1, 0)
  {
    hide Schedule;
    forall q | 0 <= q < 16 ensures w[q] == Schedule(block, RingIndex(i + 1, 0, q)) {
      assert RingIndex(i + 1, 0, q) == RingIndex(i, 16, q);
    }
  }

  lemma SumOrder(a: Word32, b: Word32, c: Word32, d: Word32)
    ensures Sum(a, b, c, d) == Sum(d, c, b, a)
  {
  }

  lemma ScheduleNext(block: Bytes, t: nat)
    requires |block| == 64 && t >= 16
    ensures Schedule(block, t) ==
      Sum(SmallSigma1(Schedule(block, t - 2)), Schedule(block, t - 7), SmallSigma0(Schedule(block, t - 15)), Schedule(block, t - 16))
  {
    hide SmallSigma0, SmallSigma1, WordAt, Sum;
  }

  /** From the second pass on, the ring holds what the recurrence needs. */
  lemma RingExtends(block: Bytes, w: seq<Word32>, i: nat, j: nat)
    requires |block| == 64 && Ring(block, w, i, j) && i >= 1 && j < 16
    ensures |w| == 16
    ensures Sum(w[j], SmallSigma0(w[(j + 1) % 16]), w[(j + 9) % 16], SmallSigma1(w[(j + 14) % 16])) ==
            Schedule(block, 16 * i + j)
  {
    hide SmallSigma0, SmallSigma1, Schedule, Ring, Sum;
    var t := 16 * i + j;
    RingAt(block, w, i, j, j);
    RingAt(block, w, i, j, (j + 1) % 16);
    RingAt(block, w, i, j, (j + 9) % 16);
    RingAt(block, w, i, j, (j + 14) % 16);
    assert RingIndex(i, j, (j + 1) % 16) == t - 15;
    assert RingIndex(i, j, (j + 9) % 16) == t - 7;
    assert RingIndex(i, j, (j + 14) % 16) == t - 2;
    ScheduleNext(block, t);
    SumOrder(w[j], SmallSigma0(w[(j + 1) % 16]), w[(j + 9) % 16], SmallSigma1(w[(j + 14) % 16]));
  }

  // --- the code ---

  /** One round, shifting the working variables in place. */
  method RoundInPlace(ah: array<Word32>, k: Word32, w: Word32)
    requires ah.Length == 8
    modifies ah
    ensures ah[..] == Round(old(ah[..]), k, w)
  {
    hide BigSigma0, BigSigma1, Ch, Maj, Plus, Round;
    ghost var v := ah[..];
    var temp1 := Plus(Plus(Plus(Plus(ah[7], BigSigma1(ah[4])), Ch(ah[4], ah[5], ah[6])), k), w);
    var temp2 := Plus(BigSigma0(ah[0]), Maj(ah[0], ah[1], ah[2]));
    ah[7] := ah[6];
    ah[6] := ah[5];
    ah[5] := ah[4];
    ah[4] := Plus(ah[3], temp1);
    ah[3] := ah[2];
    ah[2] := ah[1];
    ah[1] := ah[0];
    ah[0] := Plus(temp1, temp2);
    RoundIs(v, k, w, ah[..]);
  }

  lemma RoundIs(v: Hash, k: Word32, w: Word32, r: seq<Word32>)
    requires |r| == 8 && r[1] == v[0] && r[2] == v[1] && r[3] == v[2] && r[5] == v[4] && r[6] == v[5] && r[7] == v[6]
    requires var t1 := Plus(Plus(Plus(Plus(v[7], BigSigma1(v[4])), Ch(v[4], v[5], v[6])), k), w);
      r[4] == Plus(v[3], t1) && r[0] == Plus(t1, Plus(BigSigma0(v[0]), Maj(v[0], v[1], v[2])))
    ensures r == Round(v, k, w)
  {
    hide BigSigma0, BigSigma1, Ch, Maj, Plus;
  }

  /** Word `j` of pass `i` is scheduled in the ring. */
  method ScheduleWord(chunk: array<Byte>, w: array<Word32>, i: nat, j: nat)
    requires chunk.Length == 64 && w.Length == 16 && j < 16 && Ring(chunk[..], w[..], i, j)
    modifies w
    ensures Ring(chunk[..], w[..], i, j + 1) && w[j] == Schedule(chunk[..], 16 * i + j)
  {
    hide Schedule, Ring, WordAt, SmallSigma0, SmallSigma1, Sum;
    ghost var block, ring := chunk[..], w[..];
    if i == 0 {
      ScheduleFirst(block, j);
      w[j] := WordAt(chunk[..], j);
    } else {
      RingExtends(block, ring, i, j);
      w[j] := Sum(w[j], SmallSigma0(w[(j + 1) % 16]), w[(j + 9) % 16], SmallSigma1(w[(j + 14) % 16]));
    }
    RingStep(block, ring, i, j);
    assert w[..] == ring[j := Schedule(block, 16 * i + j)];
  }

  /** Sixteen rounds. */
  method Pass(chunk: array<Byte>, w: array<Word32>, ah: array<Word32>, i: nat, ghost start: Hash)
    requires chunk.Length == 64 && w.Length == 16 && ah.Length == 8 && i < 4 && w != ah
    requires Ring(chunk[..], w[..], i, 0) && ah[..] == Rounds(start, chunk[..], 16 * i)
    modifies w, ah
    ensures Ring(chunk[..], w[..], i + 1, 0) && ah[..] == Rounds(start, chunk[..], 16 * (i + 1))
  {
    hide Schedule, Ring, Round, RoundConstant, K;
    for j := 0 to 16
      invariant Ring(chunk[..], w[..], i, j) && ah[..] == Rounds(start, chunk[..], 16 * i + j)
    {
      ScheduleWord(chunk, w, i, j);
      ghost var ring := w[..];
      RoundInPlace(ah, RoundConstant(16 * i + j), w[j]);
      assert w[..] == ring;
    }
    RingPass(chunk[..], w[..], i);
  }

  /** The four passes over one chunk. */
  method CompressChunk(chunk: array<Byte>, h: array<Word32>)
    requires chunk.Length == 64 && h.Length == 8
    modifies h
    ensures h[..] == Compress(old(h[..]), chunk[..])
  {
    hide Rounds, Ring, Plus;
    ghost var start := h[..];
    var ah := new Word32[8];
    for i := 0 to 8
      invariant ah[..i] == h[..i] && h[..] == start
    {
      ah[i] := h[i];
    }
    assert ah[..] == ah[..8] == h[..8] == start;
    var w := new Word32[16];
    RingEmpty(chunk[..], w[..]);
    NoRounds(start, chunk[..]);
    for i := 0 to 4
      invariant h[..] == start && Ring(chunk[..], w[..], i, 0) && ah[..] == Rounds(start, chunk[..], 16 * i)
    {
      Pass(chunk, w, ah, i, start);
    }
    AddAll(h, ah);
    assert h[..] == Compress(start, chunk[..]);
  }

  lemma NoRounds(h: Hash, block: Bytes)
    requires |block| == 64
    ensures Rounds(h, block, 0) == h
  {
  }

  method AddAll(h: array<Word32>, ah: array<Word32>)
    requires h.Length == 8 && ah.Length == 8 && h != ah
    modifies h
    ensures forall i | 0 <= i < 8 :: h[i] == Plus(old(h[i]), ah[i])
  {
    hide Plus;
    for i := 0 to 8
      invariant forall j | 0 <= j < 8 :: h[j] == if j < i then Plus(old(h[j]), ah[j]) else old(h[j])
    {
      h[i] := Plus(h[i], ah[i]);
    }
  }

  lemma RingEmpty(block: Bytes, w: seq<Word32>)
    requires |block| == 64 && |w| == 16
    ensures Ring(block, w, 0, 0)
  {
  }

  lemma ScheduleFirst(block: Bytes, t: nat)
    requires |block| == 64 && t < 16
    ensures Schedule(block, t) == WordAt(block, t)
  {
  }

  /** The code computes SHA-256 of every input. */
  method CalcSha256(input: Bytes) returns (hash: Bytes)
    ensures hash == Sha(input)
  {
    hide Pad, Compress, Digest, HashBlocks, INITIAL_HASH, Tail, Zeros, Be64;
    var h := NewHash();
    var chunk := new Byte[64](_ => 0);
    var state := new BufferState(input);
    PadShortest(input);
    var more := true;
    while more
      invariant state.Valid() && fresh(state) && fresh(chunk) && fresh(h) && h.Length == 8
      invariant |state.Remaining()| % 64 == 0
      invariant HashBlocks(h[..], state.Remaining()) == HashBlocks(INITIAL_HASH, Pad(input))
      invariant !more ==> state.Remaining() == []
      decreases |state.Remaining()|, more
    {
      ghost var before, was := state.Remaining(), h[..];
      more := state.CalcChunk(chunk);
      if more {
        assert before[..64] == chunk[..] && before[64..] == state.Remaining();
        HashNext(was, before);
        CompressChunk(chunk, h);
      }
    }
    HashNothing(h[..]);
    hash := WriteDigest(h);
  }

  method NewHash() returns (h: array<Word32>)
    ensures fresh(h) && h.Length == 8 && h[..] == INITIAL_HASH
  {
    h := new Word32[8](i requires 0 <= i < 8 => INITIAL_HASH[i]);
  }

  lemma HashNext(h: Hash, padded: Bytes)
    requires |padded| % 64 == 0 && padded != []
    ensures |padded| >= 64 && HashBlocks(h, padded) == HashBlocks(Compress(h, padded[..64]), padded[64..])
  {
    hide Compress;
  }

  lemma HashNothing(h: Hash)
    ensures HashBlocks(h, []) == h
  {
  }

  method WriteDigest(h: array<Word32>) returns (hash: Bytes)
    requires h.Length == 8
    ensures hash == Digest(h[..])
  {
    hide Digest, WordBytes;
    hash := [];
    assert h[..0] == [] && Digest([]) == [] by { DigestNext([]); }
    for i := 0 to 8
      invariant hash == Digest(h[..i])
    {
      DigestNext(h[..i + 1]);
      assert h[..i + 1][..i] == h[..i];
      hash := hash + WordBytes(h[i]);
    }
    assert h[..8] == h[..];
  }

  lemma DigestNext(h: seq<Word32>)
    ensures h != [] ==> Digest(h) == Digest(h[..|h| - 1]) + WordBytes(h[|h| - 1])
    ensures Digest([]) == []
  {
  }
}
