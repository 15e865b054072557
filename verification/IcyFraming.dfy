/**
 The wire format of an ICY ("shoutcast") stream with metadata interval `n`: runs of `n` audio bytes,
 each followed by one metadata block. A block is a length byte `b` followed by `16 * b` bytes of text.
 The functions here read a wire from its first byte and are the reference that both the
 per-listener writer and the filter of incoming streams are proved against.
 */
module IcyFraming {
  import opened Octets

  /** Size of the whole block announced by length byte `b`. */
  function BlockSize(b: byte): (size: nat) {
    1 + 16 * b
  }

  predicate IsBlock(m: seq<byte>) {
    |m| > 0 && |m| == BlockSize(m[0])
  }

  /** "StreamTitle=", the text every block with a title starts with. */
  const TITLE_TAG: seq<byte> := [83, 116, 114, 101, 97, 109, 84, 105, 116, 108, 101, 61]

  /** The block for an empty title: length byte 1, then "StreamTitle='';" and one NUL. */
  const BLANK: seq<byte> := [1] + TITLE_TAG + [39, 39, 59, 0]

  /** A block with a title: what a server installs as its metadata and what it accepts from another server. */
  predicate IsTitle(m: seq<byte>) {
    IsBlock(m) && 1 <= m[0] && TITLE_TAG <= m[1..]
  }

  /** True when `w` goes on past its first run of audio and holds the block after it completely. */
  predicate HasFrame(n: nat, w: seq<byte>) {
    |w| > n && |w| >= n + BlockSize(w[n])
  }

  function FrameSize(n: nat, w: seq<byte>): (size: nat)
    requires HasFrame(n, w)
    ensures n < size <= |w|
  {
    n + BlockSize(w[n])
  }

  /** The audio carried by a wire. */
  function Strip(n: nat, w: seq<byte>): (audio: seq<byte>)
    decreases |w|
  {
    if HasFrame(n, w) then w[..n] + Strip(n, w[FrameSize(n, w)..])
    else if |w| <= n then w
    else w[..n]
  }

  /** The audio of the complete frames of a wire only. */
  function FrameAudio(n: nat, w: seq<byte>): (audio: seq<byte>)
    decreases |w|
  {
    if HasFrame(n, w) then w[..n] + FrameAudio(n, w[FrameSize(n, w)..]) else []
  }

  /** The metadata blocks carried by a wire, complete ones only. */
  function Blocks(n: nat, w: seq<byte>): (blocks: seq<seq<byte>>)
    decreases |w|
  {
    if HasFrame(n, w) then [w[n..FrameSize(n, w)]] + Blocks(n, w[FrameSize(n, w)..]) else []
  }

  /** The title a listener shows: the last block that was not the one-byte "no change" block. */
  function Shown(blocks: seq<seq<byte>>): (title: seq<byte>) {
    if blocks == [] then []
    else if blocks[|blocks| - 1] == [0] then Shown(blocks[..|blocks| - 1])
    else blocks[|blocks| - 1]
  }

  /** The part of a wire after its last complete block. */
  function Residue(n: nat, w: seq<byte>): (rest: seq<byte>)
    ensures !HasFrame(n, rest)
    decreases |w|
  {
    if HasFrame(n, w) then Residue(n, w[FrameSize(n, w)..]) else w
  }

  /** Where a wire stops: `run` audio bytes after the last block and `part` bytes of an unfinished block. */
  function RunLength(n: nat, w: seq<byte>): (run: nat) {
    if |Residue(n, w)| <= n then |Residue(n, w)| else n
  }

  function Part(n: nat, w: seq<byte>): (part: seq<byte>) {
    Residue(n, w)[RunLength(n, w)..]
  }

  lemma Associative<T>(a: seq<T>, b: seq<T>, c: seq<T>)
    ensures (a + b) + c == a + (b + c)
  {
  }

  lemma FrameStep(n: nat, w: seq<byte>, x: seq<byte>)
    requires HasFrame(n, w)
    ensures HasFrame(n, w + x) && FrameSize(n, w + x) == FrameSize(n, w)
    ensures (w + x)[FrameSize(n, w)..] == w[FrameSize(n, w)..] + x
    ensures (w + x)[..n] == w[..n] && (w + x)[n..FrameSize(n, w)] == w[n..FrameSize(n, w)]
  {
    assert (w + x)[n] == w[n];
  }

  /** Reading can stop after any prefix of a wire and be taken up again from the residue alone. */
  lemma {:induction false} ResumeResidue(n: nat, w: seq<byte>, x: seq<byte>)
    ensures Residue(n, w + x) == Residue(n, Residue(n, w) + x)
    decreases |w|
  {
    if HasFrame(n, w) {
      FrameStep(n, w, x);
      ResumeResidue(n, w[FrameSize(n, w)..], x);
    }
  }

  lemma {:induction false} ResumeBlocks(n: nat, w: seq<byte>, x: seq<byte>)
    ensures Blocks(n, w + x) == Blocks(n, w) + Blocks(n, Residue(n, w) + x)
    decreases |w|
  {
    if HasFrame(n, w) {
      var e := FrameSize(n, w);
      FrameStep(n, w, x);
      ResumeBlocks(n, w[e..], x);
      Associative([w[n..e]], Blocks(n, w[e..]), Blocks(n, Residue(n, w) + x));
    } else {
      assert [] + Blocks(n, w + x) == Blocks(n, w + x);
    }
  }

  lemma {:induction false} ResumeFrames(n: nat, w: seq<byte>, x: seq<byte>)
    ensures FrameAudio(n, w + x) == FrameAudio(n, w) + FrameAudio(n, Residue(n, w) + x)
    decreases |w|
  {
    if HasFrame(n, w) {
      var e := FrameSize(n, w);
      FrameStep(n, w, x);
      ResumeFrames(n, w[e..], x);
      Associative(w[..n], FrameAudio(n, w[e..]), FrameAudio(n, Residue(n, w) + x));
    } else {
      assert [] + FrameAudio(n, w + x) == FrameAudio(n, w + x);
    }
  }

  lemma {:induction false} StripSplit(n: nat, w: seq<byte>)
    ensures Strip(n, w) == FrameAudio(n, w) + Residue(n, w)[..RunLength(n, w)]
    decreases |w|
  {
    if HasFrame(n, w) {
      var e := FrameSize(n, w);
      StripSplit(n, w[e..]);
      assert RunLength(n, w) == RunLength(n, w[e..]);
    }
  }

  /** One append read through the residue: what it does to audio and blocks. */
  lemma AppendSplit(n: nat, w: seq<byte>, x: seq<byte>)
    ensures Residue(n, w + x) == Residue(n, Residue(n, w) + x)
    ensures Blocks(n, w + x) == Blocks(n, w) + Blocks(n, Residue(n, w) + x)
    ensures Strip(n, w + x) == FrameAudio(n, w) + Strip(n, Residue(n, w) + x)
  {
    var r := Residue(n, w) + x;
    ResumeResidue(n, w, x);
    ResumeBlocks(n, w, x);
    ResumeFrames(n, w, x);
    StripSplit(n, w + x);
    StripSplit(n, r);
    Associative(FrameAudio(n, w), FrameAudio(n, r), Residue(n, r)[..RunLength(n, r)]);
  }

  /** What has been read of a wire stays read. */
  lemma ReadStays(n: nat, w: seq<byte>, x: seq<byte>)
    ensures Strip(n, w) <= Strip(n, w + x) && Blocks(n, w) <= Blocks(n, w + x)
  {
    hide Strip, Blocks;
    var r := Residue(n, w);
    AppendSplit(n, w, x);
    StripSplit(n, w);
    RunFirst(n, r, x);
  }

  lemma RunFirst(n: nat, r: seq<byte>, x: seq<byte>)
    requires !HasFrame(n, r)
    ensures (if |r| <= n then r else r[..n]) <= Strip(n, r + x)
  {
  }

  /** Audio that stays within the current run passes through. */
  lemma AppendAudio(n: nat, w: seq<byte>, x: seq<byte>)
    requires RunLength(n, w) + |x| <= n && Part(n, w) == []
    ensures Strip(n, w + x) == Strip(n, w) + x
    ensures RunLength(n, w + x) == RunLength(n, w) + |x| && Part(n, w + x) == []
    ensures Blocks(n, w + x) == Blocks(n, w)
  {
    var r := Residue(n, w);
    assert r[..RunLength(n, w)] == r;
    AppendSplit(n, w, x);
    StripSplit(n, w);
    Associative(FrameAudio(n, w), r, x);
    assert Blocks(n, w) + [] == Blocks(n, w);
  }

  /** Bytes of a block that is still incomplete are held back. */
  lemma AppendPart(n: nat, w: seq<byte>, x: seq<byte>)
    requires RunLength(n, w) == n && |Part(n, w) + x| > 0
    requires |Part(n, w) + x| < BlockSize((Part(n, w) + x)[0])
    ensures Strip(n, w + x) == Strip(n, w)
    ensures RunLength(n, w + x) == n && Part(n, w + x) == Part(n, w) + x
    ensures Blocks(n, w + x) == Blocks(n, w)
  {
    var r := Residue(n, w);
    assert r == r[..n] + Part(n, w);
    Associative(r[..n], Part(n, w), x);
    assert (r + x)[n..] == Part(n, w) + x && (r + x)[..n] == r[..n];
    assert (r + x)[n] == (Part(n, w) + x)[0];
    AppendSplit(n, w, x);
    StripSplit(n, w);
    assert Blocks(n, w) + [] == Blocks(n, w);
  }

  lemma OneFrame(n: nat, run: seq<byte>, block: seq<byte>)
    requires |run| == n && IsBlock(block)
    ensures Strip(n, run + block) == run && Blocks(n, run + block) == [block] && Residue(n, run + block) == []
  {
    var w := run + block;
    assert w[n] == block[0];
    assert FrameSize(n, w) == |w| && w[|w|..] == [] && w[..n] == run && w[n..|w|] == block;
    assert run + [] == run;
  }

  /** The bytes that complete a block make it part of the wire, and audio starts again. */
  lemma AppendBlock(n: nat, w: seq<byte>, x: seq<byte>)
    requires RunLength(n, w) == n && IsBlock(Part(n, w) + x)
    ensures Strip(n, w + x) == Strip(n, w)
    ensures RunLength(n, w + x) == 0 && Part(n, w + x) == []
    ensures Blocks(n, w + x) == Blocks(n, w) + [Part(n, w) + x]
  {
    var r := Residue(n, w);
    assert r == r[..n] + Part(n, w);
    Associative(r[..n], Part(n, w), x);
    AppendSplit(n, w, x);
    StripSplit(n, w);
    OneFrame(n, r[..n], Part(n, w) + x);
  }

  /** After `w + x` the listener reads any following audio of one run as audio, having read nothing more than in `w`. */
  ghost predicate ReadsOn(n: nat, w: seq<byte>, x: seq<byte>) {
    forall a: seq<byte> :: |a| <= n ==> Strip(n, w + x + a) == Strip(n, w) + a
  }

  lemma ExactReadsOn(n: nat, w: seq<byte>, x: seq<byte>)
    requires RunLength(n, w) == n && IsBlock(Part(n, w) + x)
    ensures ReadsOn(n, w, x)
  {
    AppendBlock(n, w, x);
    forall a: seq<byte> | |a| <= n ensures Strip(n, w + x + a) == Strip(n, w) + a {
      AppendAudio(n, w + x, a);
    }
  }

  lemma ShortSwallows(n: nat, w: seq<byte>, x: seq<byte>)
    requires n > 0 && Part(n, w) != [] && |Part(n, w)| + |x| < BlockSize(Part(n, w)[0])
    ensures !ReadsOn(n, w, x)
  {
    assert (Part(n, w) + x)[0] == Part(n, w)[0];
    AppendPart(n, w, x);
    assert (Part(n, w + x) + [0])[0] == Part(n, w)[0];
    if |Part(n, w)| + |x| + 1 == BlockSize(Part(n, w)[0]) {
      AppendBlock(n, w + x, [0]);
    } else {
      AppendPart(n, w + x, [0]);
    }
    assert Strip(n, w + x + [0]) != Strip(n, w) + [0];
  }

  /**
   A block has been cut short and `x` is sent as its remainder. The listener goes on reading the following audio
   correctly exactly when `x` completes the block to the size announced by its first byte.
   */
  lemma ResumeExact(n: nat, w: seq<byte>, x: seq<byte>)
    requires n > 0 && Part(n, w) != []
    ensures ReadsOn(n, w, x) <==> |Part(n, w)| + |x| == BlockSize(Part(n, w)[0])
  {
    var rest := BlockSize(Part(n, w)[0]) - |Part(n, w)|;
    if |x| == rest {
      assert (Part(n, w) + x)[0] == Part(n, w)[0];
      ExactReadsOn(n, w, x);
    } else if |x| < rest {
      ShortSwallows(n, w, x);
    } else {
      assert x == x[..rest] + x[rest..] && (Part(n, w) + x[..rest])[0] == Part(n, w)[0];
      Overrun(n, w, x[..rest], x[rest..]);
      assert w + x + [] == w + x && Strip(n, w) + [] == Strip(n, w);
    }
  }

  lemma Overrun(n: nat, w: seq<byte>, x: seq<byte>, y: seq<byte>)
    requires n > 0 && RunLength(n, w) == n && IsBlock(Part(n, w) + x) && y != []
    ensures Strip(n, w + (x + y)) != Strip(n, w)
  {
    AppendBlock(n, w, x);
    AppendSplit(n, w + x, y);
    StripSplit(n, w + x);
    assert Residue(n, w + x) == [] && [] + y == y;
    assert |Strip(n, y)| > 0;
    Associative(w, x, y);
  }
}
