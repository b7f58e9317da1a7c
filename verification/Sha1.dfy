/** SHA-1 (RFC 3174): the digest of a padded message, and the buffered object that computes it from the
    message in any pieces. */
module Sha1Hash {
  import opened Common

  type byte = bv8
  type Bytes = seq<byte>
  type Word = bv32
  type Block = b: Bytes | |b| == 64 witness ZEROS(64)

  function ZEROS(n: nat): (z: Bytes)
    ensures |z| == n
  {
    seq(n, _ => 0)
  }

  datatype Chain = Chain(a: Word, b: Word, c: Word, d: Word, e: Word) {
    function Words(): (w: seq<Word>)
      ensures |w| == 5
    {
      [a, b, c, d, e]
    }
  }

  const INITIAL := Chain(0x67452301, 0xEFCDAB89, 0x98BADCFE, 0x10325476, 0xC3D2E1F0)

  function Rol(x: Word, n: nat): Word
    requires n < 32
  {
    (x << n) | (x >> (32 - n))
  }

  /** Addition modulo 2^32. */
  function Plus(x: Word, y: Word): Word { x + y }

  // ---- the digest of a message (sections 4 and 6.1) --------------------------------------------

  function BlockWord(block: Block, t: nat): Word
    requires t < 16
  {
    ((block[4 * t] as Word) << 24) | ((block[4 * t + 1] as Word) << 16)
    | ((block[4 * t + 2] as Word) << 8) | (block[4 * t + 3] as Word)
  }

  function Expanded(x: Word, y: Word, z: Word, u: Word): Word { Rol(x ^ y ^ z ^ u, 1) }

  /** W(t). */
  function Schedule(block: Block, t: nat): Word {
    if t < 16 then BlockWord(block, t)
    else Expanded(Schedule(block, t - 3), Schedule(block, t - 8), Schedule(block, t - 14), Schedule(block, t - 16))
  }

  function Choose(b: Word, c: Word, d: Word): Word { (b & c) | (!b & d) }
  function Parity(b: Word, c: Word, d: Word): Word { b ^ c ^ d }
  function Majority(b: Word, c: Word, d: Word): Word { (b & c) | (b & d) | (c & d) }

  /** Where b is set the bits of c, elsewhere those of d. */
  lemma ChooseExactly(b: Word, c: Word, d: Word)
    ensures Choose(b, c, d) & b == c & b && Choose(b, c, d) & !b == d & !b
  {
  }

  /** Wherever two of the arguments agree the result is theirs. */
  lemma MajorityExactly(b: Word, c: Word, d: Word)
    ensures (Majority(b, c, d) ^ b) & !(b ^ c) == 0
    ensures (Majority(b, c, d) ^ b) & !(b ^ d) == 0
    ensures (Majority(b, c, d) ^ c) & !(c ^ d) == 0
  {
    MajorityOfTwo(b, c, d);
    MajorityOfTwo(b, d, c);
    MajorityOfTwo(c, d, b);
    MajorityTurns(b, c, d);
  }

  lemma MajorityOfTwo(b: Word, c: Word, d: Word)
    ensures (Majority(b, c, d) ^ b) & !(b ^ c) == 0
  {
  }

  lemma MajorityTurns(b: Word, c: Word, d: Word)
    ensures Majority(b, c, d) == Majority(b, d, c) == Majority(c, d, b)
  {
  }

  lemma ParityExactly(b: Word, c: Word, d: Word)
    ensures Parity(b, c, d) ^ d == b ^ c
  {
  }

  /** f(t;B,C,D). */
  function F(t: nat, b: Word, c: Word, d: Word): Word {
    if t < 20 then Choose(b, c, d)
    else if t < 40 then Parity(b, c, d)
    else if t < 60 then Majority(b, c, d)
    else Parity(b, c, d)
  }

  /** K(t). */
  function K(t: nat): Word {
    if t < 20 then 0x5A827999 else if t < 40 then 0x6ED9EBA1 else if t < 60 then 0x8F1BBCDC else 0xCA62C1D6
  }

  function Round(v: Chain, t: nat, w: Word): Chain {
    Chain(Plus(Plus(Plus(Plus(Rol(v.a, 5), F(t, v.b, v.c, v.d)), v.e), K(t)), w), v.a, Rol(v.b, 30), v.c, v.d)
  }

  function Rounds(v: Chain, block: Block, t: nat): Chain {
    if t == 0 then v else Round(Rounds(v, block, t - 1), t - 1, Schedule(block, t - 1))
  }

  function Compress(h: Chain, block: Block): Chain {
    var v := Rounds(h, block, 80);
    Chain(Plus(h.a, v.a), Plus(h.b, v.b), Plus(h.c, v.c), Plus(h.d, v.d), Plus(h.e, v.e))
  }

  /** The chaining value after all whole blocks of the input. */
  function Iterate(h: Chain, data: Bytes): Chain
    decreases |data|
  {
    if |data| < 64 then h else Iterate(Compress(h, data[..64]), data[64..])
  }

  /** n as 64 bits, most significant byte first; the length of a longer message wraps. */
  function LengthField(bits: nat, k: nat): (b: Bytes)
    requires k <= 8
    ensures |b| == k
  {
    if k == 0 then [] else LengthField(bits / 256, k - 1) + [(bits % 256) as byte]
  }

  /** The message, a one bit, the fewest zero bits that leave room for the length, and the length. */
  function Pad(message: Bytes): Bytes {
    message + [0x80] + ZEROS((119 - |message| % 64) % 64) + LengthField(8 * |message|, 8)
  }

  function Serialize(words: seq<Word>): (b: Bytes)
    ensures |b| == 4 * |words|
  {
    if words == [] then [] else Serialize(words[..|words| - 1]) + WordBytes(words[|words| - 1])
  }

  function WordBytes(w: Word): (b: Bytes)
    ensures |b| == 4
  {
    [((w >> 24) & 0xFF) as byte, ((w >> 16) & 0xFF) as byte, ((w >> 8) & 0xFF) as byte, (w & 0xFF) as byte]
  }

  function Digest(message: Bytes): (d: Bytes)
    ensures |d| == 20
  {
    Serialize(Iterate(INITIAL, Pad(message)).Words())
  }

  /** Whole blocks in front can be processed first. */
  lemma {:induction false} IterateAppend(h: Chain, a: Bytes, b: Bytes)
    requires |a| % 64 == 0
    ensures Iterate(h, a + b) == Iterate(Iterate(h, a), b)
    decreases |a|
  {
    if |a| == 0 {
      assert a + b == b;
    } else {
      assert (a + b)[..64] == a[..64] && (a + b)[64..] == a[64..] + b;
      IterateAppend(Compress(h, a[..64]), a[64..], b);
    }
  }

  lemma IterateBlock(h: Chain, block: Block)
    ensures Iterate(h, block) == Compress(h, block)
  {
    assert block[..64] == block && block[64..] == [];
  }

  lemma ScheduleStart(block: Block, t: nat)
    requires t < 16
    ensures Schedule(block, t) == BlockWord(block, t)
  {
  }

  lemma ScheduleNext(block: Block, t: nat)
    requires t >= 16
    ensures Schedule(block, t) == Expanded(Schedule(block, t - 3), Schedule(block, t - 8),
                                           Schedule(block, t - 14), Schedule(block, t - 16))
  {
    hide Expanded;
  }

  // ---- the length field of a 64-bit counter ------------------------------------------------------

  /** n >> (8 * i). */
  function ShiftBytes(n: nat, i: nat): nat {
    if i == 0 then n else ShiftBytes(n / 256, i - 1)
  }

  /** Only the low k bytes of the number matter: a wrapped counter gives the same field. */
  lemma {:induction false} LengthFieldWraps(bits: nat, k: nat)
    requires k <= 8
    ensures LengthField(bits % Pow(256, k), k) == LengthField(bits, k)
  {
    if k > 0 {
      DivModProduct(bits, 256, Pow(256, k - 1));
      LengthFieldWraps(bits / 256, k - 1);
    }
  }

  lemma {:induction false} LengthFieldAt(bits: nat, k: nat, i: nat)
    requires i < k <= 8
    ensures LengthField(bits, k)[k - 1 - i] == (ShiftBytes(bits, i) % 256) as byte
  {
    if i > 0 { LengthFieldAt(bits / 256, k - 1, i - 1); }
  }

  /** What Final writes byte by byte from the 64-bit counter is the length field of the true length. */
  lemma CounterBytes(bits: nat, i: nat)
    requires i < 8
    ensures LengthField(bits, 8)[7 - i] == (ShiftBytes(bits % 0x1_0000_0000_0000_0000, i) % 256) as byte
  {
    hide LengthField, ShiftBytes;
    assert Pow(256, 8) == 0x1_0000_0000_0000_0000 by {
      assert Pow(256, 4) == 0x1_0000_0000;
    }
    LengthFieldWraps(bits, 8);
    LengthFieldAt(bits % Pow(256, 8), 8, i);
  }

  lemma PadLength(n: nat)
    ensures (n + 1 + (119 - n % 64) % 64 + 8) % 64 == 0 && (119 - n % 64) % 64 < 64
  {
  }

  /** The padded message is whole blocks, so the digest covers every byte of it. */
  lemma PadIsWholeBlocks(message: Bytes)
    ensures |Pad(message)| % 64 == 0
  {
    hide LengthField;
    PadLength(|message|);
  }

  /** One or two closing blocks: the zeros written up to byte 56 of the last one are those of Pad. */
  lemma PadZeros(length: nat, used: nat)
    requires used < 64 && used <= length && (length - used) % 64 == 0
    ensures (if used + 1 > 56 then ZEROS(63 - used) else []) + ZEROS(if used + 1 > 56 then 56 else 55 - used)
         == ZEROS((119 - length % 64) % 64)
  {
    assert length % 64 == used;
  }

  // ---- a message part way in ---------------------------------------------------------------------

  /** The chaining value covers all of the message but its last bytes, rest, which make no more than a block. */
  ghost predicate Absorbed(chain: Chain, rest: Bytes, message: Bytes) {
    && |rest| <= 64 && |rest| <= |message| && (|message| - |rest|) % 64 == 0
    && message[|message| - |rest|..] == rest
    && chain == Iterate(INITIAL, message[..|message| - |rest|])
  }

  lemma AbsorbNothing()
    ensures Absorbed(INITIAL, [], [])
  {
    hide Compress;
  }

  lemma AbsorbMore(chain: Chain, rest: Bytes, message: Bytes, more: Bytes)
    requires Absorbed(chain, rest, message) && |rest| + |more| <= 64
    ensures Absorbed(chain, rest + more, message + more)
  {
    hide Iterate;
    var n := |message| - |rest|;
    assert (message + more)[..n] == message[..n];
    assert (message + more)[n..] == message[n..] + more;
  }

  lemma AbsorbBlock(chain: Chain, block: Block, message: Bytes)
    requires Absorbed(chain, block, message)
    ensures Absorbed(Compress(chain, block), [], message)
  {
    hide Iterate, Compress;
    var n := |message| - 64;
    IterateAppend(INITIAL, message[..n], block);
    IterateBlock(chain, block);
    assert message[..n] + block == message;
    assert message[..|message| - 0] == message;
    assert message[|message|..] == [];
  }

  lemma AbsorbedAll(chain: Chain, message: Bytes)
    requires Absorbed(chain, [], message)
    ensures chain == Iterate(INITIAL, message)
  {
    hide Iterate;
    assert message[..|message|] == message;
  }

  lemma AbsorbedLength(chain: Chain, rest: Bytes, message: Bytes)
    requires Absorbed(chain, rest, message)
    ensures |rest| <= |message| && (|message| - |rest|) % 64 == 0
  {
  }

  // ---- the object ------------------------------------------------------------------------------

  class Sha1 {
    const h: array<Word>
    const buf: array<byte>
    var bufLen: nat
    var lenBits: nat              // a 64-bit counter
    ghost var message: Bytes      // everything given to Update

    function Chaining(): Chain
      requires h.Length == 5
      reads h
    {
      Chain(h[0], h[1], h[2], h[3], h[4])
    }

    /** h has absorbed all whole blocks of the message; the buffer holds the rest, always short of a block. */
    ghost predicate Valid()
      reads this, h, buf
    {
      && h.Length == 5 && buf.Length == 64 && bufLen < 64
      && Absorbed(Chaining(), buf[..bufLen], message)
      && lenBits == 8 * |message| % 0x1_0000_0000_0000_0000
    }

    constructor ()
      ensures Valid() && message == [] && fresh(h) && fresh(buf)
    {
      hide Absorbed;
      h, buf := new Word[5], new byte[64];
      bufLen, lenBits, message := 0, 0, [];
      new;
      h[0] := 0x67452301;
      h[1] := 0xEFCDAB89;
      h[2] := 0x98BADCFE;
      h[3] := 0x10325476;
      h[4] := 0xC3D2E1F0;
      AbsorbNothing();
      assert buf[..0] == [];
    }

    method ProcessBlock()
      requires h.Length == 5 && buf.Length == 64
      modifies h
      ensures Chaining() == Compress(old(Chaining()), buf[..])
    {
      hide Plus, Rounds;
      var w := Expand(buf[..]);
      var v := Mix(Chaining(), w, buf[..]);
      h[0] := Plus(h[0], v.a);
      h[1] := Plus(h[1], v.b);
      h[2] := Plus(h[2], v.c);
      h[3] := Plus(h[3], v.d);
      h[4] := Plus(h[4], v.e);
    }

    /** The eighty schedule words of process_block. */
    static method Expand(block: Block) returns (w: array<Word>)
      ensures fresh(w) && w.Length == 80 && forall j | 0 <= j < 80 :: w[j] == Schedule(block, j)
    {
      hide BlockWord, Expanded, Schedule;
      w := new Word[80];
      for i := 0 to 16
        invariant forall j | 0 <= j < i :: w[j] == Schedule(block, j)
      {
        ScheduleStart(block, i);
        w[i] := BlockWord(block, i);
      }
      for i := 16 to 80
        invariant forall j | 0 <= j < i :: w[j] == Schedule(block, j)
      {
        ScheduleNext(block, i);
        w[i] := Expanded(w[i - 3], w[i - 8], w[i - 14], w[i - 16]);
      }
    }

    /** The eighty rounds of process_block. */
    static method Mix(start: Chain, w: array<Word>, ghost block: Block) returns (v: Chain)
      requires w.Length == 80 && forall j | 0 <= j < 80 :: w[j] == Schedule(block, j)
      ensures v == Rounds(start, block, 80)
    {
      hide Rol, Schedule, Plus, F, K;
      var a, b, c, d, e := start.a, start.b, start.c, start.d, start.e;
      for i := 0 to 80
        invariant Chain(a, b, c, d, e) == Rounds(start, block, i)
      {
        var f, k := RoundFunction(i, b, c, d);
        var tmp := Plus(Plus(Plus(Plus(Rol(a, 5), f), e), k), w[i]);
        e := d;
        d := c;
        c := Rol(b, 30);
        b := a;
        a := tmp;
      }
      return Chain(a, b, c, d, e);
    }

    static method RoundFunction(i: nat, b: Word, c: Word, d: Word) returns (f: Word, k: Word)
      ensures f == F(i, b, c, d) && k == K(i)
    {
      hide Choose, Parity, Majority;
      if i < 20 {
        f, k := Choose(b, c, d), 0x5A827999;
      } else if i < 40 {
        f, k := Parity(b, c, d), 0x6ED9EBA1;
      } else if i < 60 {
        f, k := Majority(b, c, d), 0x8F1BBCDC;
      } else {
        f, k := Parity(b, c, d), 0xCA62C1D6;
      }
    }

    method Update(data: Bytes)
      requires Valid()
      modifies this, h, buf
      ensures Valid() && message == old(message) + data
    {
      hide Absorbed, Compress;
      lenBits := (lenBits + 8 * |data|) % 0x1_0000_0000_0000_0000;
      var i := 0;
      while i < |data|
        invariant 0 <= i <= |data|
        invariant h.Length == 5 && buf.Length == 64 && bufLen < 64
        invariant message == old(message) + data[..i]
        invariant Absorbed(Chaining(), buf[..bufLen], message)
        invariant lenBits == 8 * (|old(message)| + |data|) % 0x1_0000_0000_0000_0000
      {
        var take := if 64 - bufLen <= |data| - i then 64 - bufLen else |data| - i;
        Append(data[i..i + take]);
        i := i + take;
        if bufLen == 64 {
          assert buf[..64] == buf[..];
          FlushBlock();
          assert buf[..0] == [];
        }
      }
    }

    /** Copies bytes into the room left in the buffer. */
    method Append(more: Bytes)
      requires h.Length == 5 && buf.Length == 64 && bufLen + |more| <= 64
      requires Absorbed(Chaining(), buf[..bufLen], message)
      modifies this`bufLen, this`message, buf
      ensures bufLen == old(bufLen) + |more| && message == old(message) + more
      ensures buf[..bufLen] == old(buf[..bufLen]) + more
      ensures Absorbed(Chaining(), buf[..bufLen], message)
    {
      hide Absorbed;
      AbsorbMore(Chaining(), buf[..bufLen], message, more);
      forall k | 0 <= k < |more| { buf[bufLen + k] := more[k]; }
      bufLen := bufLen + |more|;
      message := message + more;
      assert buf[..bufLen] == old(buf[..bufLen]) + more;
    }

    /** Processes a full buffer and empties it. */
    method FlushBlock()
      requires h.Length == 5 && buf.Length == 64 && bufLen == 64
      requires Absorbed(Chaining(), buf[..], message)
      modifies this`bufLen, h
      ensures bufLen == 0 && Absorbed(Chaining(), [], message)
    {
      hide Absorbed, Compress;
      AbsorbBlock(Chaining(), buf[..], message);
      ProcessBlock();
      bufLen := 0;
    }

    /** Fills the buffer with zeros up to byte n. */
    method ZeroTo(n: nat)
      requires h.Length == 5 && buf.Length == 64 && bufLen <= n <= 64
      requires Absorbed(Chaining(), buf[..bufLen], message)
      modifies this`bufLen, this`message, buf
      ensures bufLen == n && message == old(message) + ZEROS(n - old(bufLen))
      ensures Absorbed(Chaining(), buf[..bufLen], message)
    {
      hide Absorbed;
      while bufLen < n
        invariant bufLen <= n && old(bufLen) <= bufLen
        invariant message == old(message) + ZEROS(bufLen - old(bufLen))
        invariant Absorbed(Chaining(), buf[..bufLen], message)
      {
        Append([0]);
      }
    }

    method PutLength(ghost bits: nat)
      requires h.Length == 5 && buf.Length == 64 && bufLen == 56
      requires lenBits == bits % 0x1_0000_0000_0000_0000
      requires Absorbed(Chaining(), buf[..bufLen], message)
      modifies this`bufLen, this`message, buf
      ensures bufLen == 64 && message == old(message) + LengthField(bits, 8)
      ensures Absorbed(Chaining(), buf[..bufLen], message)
    {
      hide Absorbed, LengthField, ShiftBytes;
      ghost var field := LengthField(bits, 8);
      for i := 8 downto 0
        invariant bufLen == 64 - i
        invariant message == old(message) + field[..8 - i]
        invariant Absorbed(Chaining(), buf[..bufLen], message)
      {
        CounterBytes(bits, i);
        Append([(ShiftBytes(lenBits, i) % 256) as byte]);
        assert field[..8 - i] == field[..7 - i] + [field[7 - i]];
      }
      assert field[..8] == field;
    }

    /** Writes the one bit and the zeros, processing a closing block when the length does not fit behind. */
    method PadToLength()
      requires Valid()
      modifies this`bufLen, this`message, h, buf
      ensures bufLen == 56 && message == old(message) + [0x80] + ZEROS((119 - |old(message)| % 64) % 64)
      ensures Absorbed(Chaining(), buf[..bufLen], message)
    {
      hide Absorbed, Compress, ZEROS;
      ghost var m, used := message, bufLen;
      AbsorbedLength(Chaining(), buf[..bufLen], m);
      PadZeros(|m|, used);
      ghost var first: Bytes := [];
      Append([0x80]);
      if bufLen > 56 {
        first := ZEROS(64 - bufLen);
        ZeroTo(64);
        assert buf[..64] == buf[..];
        FlushBlock();
        assert buf[..0] == [];
      }
      assert message == m + [0x80] + first;
      Assoc(m + [0x80], first, ZEROS(56 - bufLen));
      ZeroTo(56);
    }

    /** Pads, processes the last block, and writes the digest. */
    method Final(out: array<byte>)
      requires Valid() && out.Length == 20 && out != buf
      modifies this, h, buf, out
      ensures out[..] == Digest(old(message))
    {
      hide Absorbed, Serialize, LengthField, Compress, Iterate, ZEROS;
      ghost var m := message;
      PadToLength();
      PutLength(8 * |m|);
      assert buf[..64] == buf[..];
      FlushBlock();
      assert message == Pad(m);
      AbsorbedAll(Chaining(), message);
      PutWords(out);
    }

    method PutWords(out: array<byte>)
      requires h.Length == 5 && out.Length == 20
      modifies out
      ensures out[..] == Serialize(Chaining().Words())
    {
      hide WordBytes;
      for i := 0 to 5
        invariant out[..4 * i] == Serialize(h[..i])
      {
        var b := WordBytes(h[i]);
        out[4 * i], out[4 * i + 1], out[4 * i + 2], out[4 * i + 3] := b[0], b[1], b[2], b[3];
        assert out[..4 * i] == Serialize(h[..i]);
        assert out[..4 * (i + 1)] == out[..4 * i] + b;
        assert h[..i + 1][..i] == h[..i];
      }
      assert h[..5] == Chaining().Words();
      assert out[..20] == out[..];
    }
  }

  /** However a message is cut into Update calls, the digest is that of the whole. */
  method DigestOfParts(parts: seq<Bytes>) returns (digest: Bytes)
    ensures digest == Digest(Concat(parts))
  {
    hide Digest;
    var sha := new Sha1();
    for i := 0 to |parts|
      invariant sha.Valid() && fresh(sha) && fresh(sha.h) && fresh(sha.buf)
      invariant sha.message + Concat(parts[i..]) == Concat(parts)
    {
      Assoc(sha.message, parts[i], Concat(parts[i + 1..]));
      sha.Update(parts[i]);
    }
    assert parts[|parts|..] == [] && sha.message + [] == sha.message;
    var out := new byte[20];
    sha.Final(out);
    digest := out[..];
  }
}
