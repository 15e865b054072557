/**
 The incremental MD5 of src/md5.c against the one-shot digest of RFC 1321: whatever pieces a message comes in, the digest is
 that of the whole message.
 */
module Md5 {
  import opened Octets
  import opened Words
  import opened Md5Transform

  // ---------- RFC 1321 ----------

  /** Section 3.3: the initial value of the four words. */
  const INIT := State(0x67452301, 0xefcdab89, 0x98badcfe, 0x10325476)

  /** Words are stored with the low-order byte first (section 2). */
  function WordOf(b: seq<byte>): (w: word)
    requires |b| == 4
  {
    var b0: int, b1: int, b2: int, b3: int := b[0], b[1], b[2], b[3];
    b0 + 0x100 * b1 + 0x1_0000 * b2 + 0x100_0000 * b3
  }

  function BytesOf(w: word): (b: seq<byte>)
    ensures |b| == 4 && WordOf(b) == w
  {
    FourDigits(w);
    [w % 0x100, w / 0x100 % 0x100, w / 0x1_0000 % 0x100, w / 0x100_0000]
  }

  lemma FourDigits(w: word)
    ensures w == w % 0x100 + 0x100 * (w / 0x100 % 0x100) + 0x1_0000 * (w / 0x1_0000 % 0x100) + 0x100_0000 * (w / 0x100_0000)
  {
    var x := w / 0x100;
    var y := x / 0x100;
    assert w / 0x1_0000 == y && w / 0x100_0000 == y / 0x100;
  }

  function WordsOf(b: seq<byte>): (x: seq<word>)
    requires |b| % 4 == 0
    ensures 4 * |x| == |b|
  {
    if b == [] then [] else WordsOf(b[..|b| - 4]) + [WordOf(b[|b| - 4..])]
  }

  /** Section 3.4: blocks of 16 words are processed one after the other. */
  function Fold(blocks: seq<byte>): (s: State)
    requires |blocks| % 64 == 0
  {
    if blocks == [] then INIT else Compress(Fold(blocks[..|blocks| - 64]), WordsOf(blocks[|blocks| - 64..]))
  }

  function Zeros(n: nat): (b: seq<byte>)
    ensures |b| == n
  {
    seq(n, _ => 0)
  }

  /** Section 3.1: a one bit, then zero bits until the length is 56 modulo 64 bytes. */
  function Padding(n: nat): (b: seq<byte>)
    ensures (n + |b|) % 64 == 56 && 1 <= |b| <= 64
  {
    [0x80] + Zeros((55 - n) % 64)
  }

  /** Section 3.2: the length in bits, modulo 2^64, low-order word first. */
  function Length(n: nat): (b: seq<byte>)
    ensures |b| == 8
  {
    BytesOf(8 * n % WORD) + BytesOf(8 * n / WORD % WORD)
  }

  /** Section 3.5. */
  function Output(s: State): (digest: seq<byte>)
    ensures |digest| == 16
  {
    BytesOf(s.a) + BytesOf(s.b) + BytesOf(s.c) + BytesOf(s.d)
  }

  lemma RoomForLength(n: nat)
    requires n % 64 == 56
    ensures (n + 8) % 64 == 0
  {
  }

  function Digest(msg: seq<byte>): (digest: seq<byte>) {
    hide Output, Fold, Padding, Length;
    RoomForLength(|msg| + |Padding(|msg|)|);
    Output(Fold(msg + Padding(|msg|) + Length(|msg|)))
  }

  // ---------- how a message is cut ----------

  function Front(msg: seq<byte>): (b: seq<byte>)
    ensures |b| % 64 == 0
  {
    msg[..|msg| - |msg| % 64]
  }

  function Back(msg: seq<byte>): (b: seq<byte>)
    ensures |b| == |msg| % 64 && Front(msg) + b == msg
  {
    msg[|msg| - |msg| % 64..]
  }

  lemma CutOnce(front: seq<byte>, back: seq<byte>)
    requires |front| % 64 == 0 && |back| < 64
    ensures Front(front + back) == front && Back(front + back) == back
  {
    assert |front + back| % 64 == |back|;
  }

  lemma FoldBlock(front: seq<byte>, block: seq<byte>)
    requires |front| % 64 == 0 && |block| == 64
    ensures |front + block| % 64 == 0 && Fold(front + block) == Compress(Fold(front), WordsOf(block))
  {
    hide Compress, WordsOf;
    var all := front + block;
    assert all[..|all| - 64] == front && all[|all| - 64..] == block;
  }

  lemma NextWord(b: seq<byte>, n: nat)
    requires n % 4 == 0 && n + 4 <= |b|
    ensures WordsOf(b[..n + 4]) == WordsOf(b[..n]) + [WordOf(b[n..n + 4])]
  {
    hide WordOf;
    var all := b[..n + 4];
    assert all[..|all| - 4] == b[..n] && all[|all| - 4..] == b[n..n + 4];
  }

  /** The last block is made of words: 14 from the buffer and the two of the bit count. */
  lemma LastBlock(b: seq<byte>, low: word, high: word)
    requires |b| == 56
    ensures WordsOf(b + (BytesOf(low) + BytesOf(high))) == WordsOf(b) + [low, high]
  {
    hide WordOf, BytesOf;
    var all := b + (BytesOf(low) + BytesOf(high));
    assert all[..56] == b && all[56..60] == BytesOf(low) && all[60..64] == BytesOf(high) && all[..64] == all;
    NextWord(all, 56);
    NextWord(all, 60);
  }

  /** `count` bytes are free behind the first byte of padding. */
  lemma OnePad(n: nat, count: int)
    requires count == 63 - n % 64 >= 8
    ensures Padding(n) == [0x80] + Zeros(count - 8)
  {
    assert (55 - n) % 64 == count - 8;
  }

  lemma TwoPads(n: nat, count: int)
    requires count == 63 - n % 64 < 8
    ensures Padding(n) == [0x80] + Zeros(count) + Zeros(56)
  {
    assert (55 - n) % 64 == count + 56;
    assert Zeros(count + 56) == Zeros(count) + Zeros(56);
  }

  // ---------- the bit count ----------

  /** The two words of the bit count, taken together, count modulo 2^64. */
  predicate Counts(low: word, high: word, n: nat) {
    low == 8 * n % WORD && high == 8 * n / WORD % WORD
  }

  /** The carry from the low word is exactly the wrap-around of its addition. */
  lemma CountMore(low: word, high: word, n: nat, len: nat)
    requires Counts(low, high, n) && len < WORD
    ensures var low' := (low + 8 * len % WORD) % WORD;
            Counts(low', ((if low' < low then (high + 1) % WORD else high) + len / 0x2000_0000) % WORD, n + len)
  {
    var add := 8 * len % WORD;
    var k, l := 8 * n / WORD, 8 * len / WORD;
    var c := if low + add >= WORD then 1 else 0;
    LowSum(low, add);
    Residues(k, l, c);
    TopBits(len);
    Carried(8 * (n + len), k + l + c, low + add - c * WORD);
  }

  lemma LowSum(low: word, add: word)
    ensures (low + add) % WORD == low + add - (if low + add >= WORD then WORD else 0)
    ensures (low + add) % WORD < low <==> low + add >= WORD
  {
  }

  lemma TopBits(len: nat)
    ensures len / 0x2000_0000 == 8 * len / WORD
  {
  }

  lemma Carried(total: nat, q: nat, r: nat)
    requires total == WORD * q + r && r < WORD
    ensures total % WORD == r && total / WORD == q
  {
  }

  lemma Residues(k: nat, l: nat, c: nat)
    ensures (k + l + c) % WORD == ((k % WORD + c) % WORD + l) % WORD
  {
  }

  lemma CountStays(low: word, high: word, n: nat)
    requires Counts(low, high, n)
    ensures 0 < n < 0x2000_0000_0000_0000 ==> low != 0 || high != 0
  {
  }

  lemma InBuffer(low: word, high: word, n: nat)
    requires Counts(low, high, n)
    ensures low / 8 % 64 == n % 64
  {
    var q := 8 * n / WORD;
    assert 8 * n == WORD * q + low;
    assert low / 8 == n - 0x2000_0000 * q;
  }

  // ---------- the context ----------

  class Context {
    var buf: State
    /** The bit count. */
    var low: word
    var high: word
    const block: array<byte>
    /** Everything the context has been given. */
    ghost var msg: seq<byte>

    /** `front` has been processed and `held` is at the start of the buffer. */
    ghost predicate Loaded(front: seq<byte>, held: seq<byte>)
      reads this, block
    {
      && block.Length == 64 && |front| % 64 == 0 && |held| <= 64
      && buf == Fold(front) && block[..|held|] == held
    }

    ghost predicate Valid()
      reads this, block
    {
      Loaded(Front(msg), Back(msg)) && Counts(low, high, |msg|)
    }

    constructor ()
      ensures Valid() && msg == [] && fresh(block)
    {
      buf, low, high := State(0x67452301, 0xefcdab89, 0x98badcfe, 0x10325476), 0, 0;
      block := new byte[64](_ => 0);
      msg := [];
    }

    /** memcpy and memset into the buffer. */
    method Write(at: nat, bytes: seq<byte>, ghost front: seq<byte>, ghost held: seq<byte>)
      requires Loaded(front, held) && at == |held| && at + |bytes| <= 64
      modifies block
      ensures Loaded(front, held + bytes)
    {
      hide Fold;
      forall i | 0 <= i < |bytes| {
        block[at + i] := bytes[i];
      }
      assert block[..at] == held;
    }

    /** byteReverse: the buffer's first `longs` words. */
    method ByteReverse(longs: nat) returns (x: seq<word>)
      requires 4 * longs <= block.Length
      ensures x == WordsOf(block[..4 * longs])
    {
      hide WordsOf, WordOf;
      x := [];
      var n := 0;
      assert WordsOf(block[..0]) == [];
      while n < longs
        invariant n <= longs && x == WordsOf(block[..4 * n])
      {
        NextWord(block[..], 4 * n);
        assert block[..][..4 * n + 4] == block[..4 * (n + 1)] && block[..][..4 * n] == block[..4 * n];
        x := x + [WordOf(block[..][4 * n..4 * n + 4])];
        n := n + 1;
      }
    }

    method Process(ghost front: seq<byte>, ghost held: seq<byte>)
      requires Loaded(front, held) && |held| == 64
      modifies `buf
      ensures Loaded(front + held, [])
    {
      hide Fold, Compress, WordsOf;
      var x := ByteReverse(16);
      assert block[..4 * 16] == held;
      FoldBlock(front, held);
      buf := Transform(buf, x);
    }

    /** The first lines of MD5Update. */
    method Count(len: nat)
      requires len < WORD && Counts(low, high, |msg|)
      modifies `low, `high
      ensures Counts(low, high, |msg| + len)
    {
      CountMore(low, high, |msg|, len);
      hide Counts;
      var t := low;
      low := (t + 8 * len % WORD) % WORD;
      if low < t {
        high := (high + 1) % WORD;
      }
      high := (high + len / 0x2000_0000) % WORD;
    }

    /** The rest of MD5Update, when the buffer is empty: whole blocks, then what is left. */
    method Absorb(data: seq<byte>, ghost front: seq<byte>) returns (ghost front': seq<byte>, ghost held: seq<byte>)
      requires Loaded(front, [])
      modifies `buf, block
      ensures Loaded(front', held) && front' + held == front + data && |held| < 64
    {
      hide Fold;
      front' := front;
      var rest := data;
      while |rest| >= 64
        invariant Loaded(front', []) && front' + rest == front + data
        decreases |rest|
      {
        Write(0, rest[..64], front', []);
        assert [] + rest[..64] == rest[..64];
        Process(front', rest[..64]);
        assert front' + rest[..64] + rest[64..] == front' + rest;
        front' := front' + rest[..64];
        rest := rest[64..];
      }
      Write(0, rest, front', []);
      held := [] + rest;
    }

    /** MD5Update: the context has been given `data` as well. */
    method Update(data: seq<byte>)
      requires Valid() && |data| < WORD
      modifies this, block
      ensures Valid() && msg == old(msg) + data
    {
      hide Fold, Counts, Front, Back;
      ghost var front, held := Front(msg), Back(msg);
      var t := low;
      InBuffer(low, high, |msg|);
      Count(|data|);
      msg := msg + data;
      t := t / 8 % 64;
      if t != 0 {
        var room := 64 - t;
        if |data| < room {
          Write(t, data, front, held);
          assert front + held + data == front + (held + data);
          CutOnce(front, held + data);
          return;
        }
        Write(t, data[..room], front, held);
        Process(front, held + data[..room]);
        front, held := Absorb(data[room..], front + (held + data[..room]));
        assert data == data[..room] + data[room..];
      } else {
        front, held := Absorb(data, front);
      }
      assert msg == front + held;
      CutOnce(front, held);
    }

    /** The padding of MD5Final, which takes a block of its own when the bit count would not fit. */
    method Pad() returns (ghost front: seq<byte>, ghost held: seq<byte>)
      requires Valid()
      modifies `buf, block
      ensures Loaded(front, held) && |held| == 56 && front + held == msg + Padding(|msg|)
    {
      hide Fold, Counts, Front, Back, Zeros, Padding;
      front, held := Front(msg), Back(msg);
      InBuffer(low, high, |msg|);
      var count := low / 8 % 64;
      Write(count, [0x80], front, held);
      held := held + [0x80];
      var at := count + 1;
      count := 64 - 1 - count;
      if count < 8 {
        Write(at, Zeros(count), front, held);
        Process(front, held + Zeros(count));
        front := front + (held + Zeros(count));
        Write(0, Zeros(56), front, []);
        held := [] + Zeros(56);
        TwoPads(|msg|, count);
      } else {
        Write(at, Zeros(count - 8), front, held);
        held := held + Zeros(count - 8);
        OnePad(|msg|, count);
      }
      assert front + held == msg + Padding(|msg|);
    }

    /**
     MD5Final. Afterwards memset(ctx, 0, sizeof(ctx)) has cleared as many bytes as a pointer has, which is the first
     two words of the state. The other two are the second half of the digest, and the bit count stays.
     */
    method Final() returns (digest: seq<byte>)
      requires Valid()
      modifies `buf, block
      ensures digest == Digest(msg)
      ensures buf.a == 0 && buf.b == 0 && digest[8..] == BytesOf(buf.c) + BytesOf(buf.d)
      ensures Counts(low, high, |msg|) && (0 < |msg| < 0x2000_0000_0000_0000 ==> low != 0 || high != 0)
    {
      hide Fold, Compress, Loaded, WordsOf, Front, Back, BytesOf, Padding;
      ghost var front, held := Pad();
      var x := LastWords(front, held);
      buf := Transform(buf, x);
      assert front + held + Length(|msg|) == front + (held + Length(|msg|));
      digest := Output(buf);
      CountStays(low, high, |msg|);
      buf := buf.(a := 0, b := 0);
    }

    /** The words of the last block. */
    method LastWords(ghost front: seq<byte>, ghost held: seq<byte>) returns (x: seq<word>)
      requires Loaded(front, held) && |held| == 56 && Counts(low, high, |msg|)
      ensures |x| == 16 && |front + (held + Length(|msg|))| % 64 == 0
      ensures Compress(buf, x) == Fold(front + (held + Length(|msg|)))
    {
      hide Fold, Compress, WordsOf, BytesOf;
      x := ByteReverse(14);
      assert block[..4 * 14] == held;
      x := x + [low, high];
      LastBlock(held, low, high);
      FoldBlock(front, held + Length(|msg|));
    }
  }

  /** A message given in any pieces has the digest of the whole. */
  method DigestOf(pieces: seq<seq<byte>>) returns (digest: seq<byte>)
    requires forall p :: p in pieces ==> |p| < WORD
    ensures digest == Digest(Bytes(pieces))
  {
    hide Digest, Context.Valid;
    var ctx := new Context();
    for i := 0 to |pieces|
      invariant ctx.Valid() && ctx.msg == Bytes(pieces[..i]) && fresh(ctx) && fresh(ctx.block)
    {
      ctx.Update(pieces[i]);
      BytesMore(pieces, i);
    }
    assert pieces[..|pieces|] == pieces;
    digest := ctx.Final();
  }
}
