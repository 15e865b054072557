/**
 The reader of incoming ICY streams in src/format_mp3.c: it collects 1400-byte buffers from the source's
 connection, removes the inline metadata from each buffer in place and remembers the last title.
 */
module IcyFilter {
  import opened Octets
  import opened IcyFraming

  const REFBUF_SIZE := 1400
  const BUILD_SIZE := 4081

  /** A completed block as it is kept: its last byte is not copied, so that a NUL ends the text. */
  function Kept(block: seq<byte>): (kept: seq<byte>)
    requires block != []
  {
    block[..|block| - 1] + [0]
  }

  /** Metadata in force after one more inline block, or None when the block ends the stream. */
  function Accept(current: seq<byte>, block: seq<byte>): (next: Option<seq<byte>>)
    requires IsTitle(current) && IsBlock(block)
    ensures next.Some? ==> IsTitle(next.value)
  {
    if |block| == 1 then Some(current)
    else
      var kept := Kept(block);
      assert kept[0] == block[0];
      if CString(kept[1..]) == CString(current[1..]) then Some(current)
      else if TITLE_TAG <= kept[1..] then Some(kept)
      else None
  }

  predicate AreBlocks(blocks: seq<seq<byte>>) {
    forall b :: b in blocks ==> IsBlock(b)
  }

  function AcceptAll(current: seq<byte>, blocks: seq<seq<byte>>): (next: Option<seq<byte>>)
    requires IsTitle(current) && AreBlocks(blocks)
    ensures next.Some? ==> IsTitle(next.value)
    decreases |blocks|
  {
    if blocks == [] then Some(current)
    else
      var next := Accept(current, blocks[0]);
      if next == None then None else AcceptAll(next.value, blocks[1..])
  }

  lemma {:induction false} AcceptMore(current: seq<byte>, blocks: seq<seq<byte>>, more: seq<seq<byte>>)
    requires IsTitle(current) && AreBlocks(blocks) && AreBlocks(more)
    ensures AreBlocks(blocks + more)
    ensures AcceptAll(current, blocks + more) ==
            var mid := AcceptAll(current, blocks); if mid == None then None else AcceptAll(mid.value, more)
    decreases |blocks|
  {
    if blocks == [] {
      assert blocks + more == more;
    } else {
      var next := Accept(current, blocks[0]);
      assert (blocks + more)[1..] == blocks[1..] + more;
      if next.Some? {
        AcceptMore(next.value, blocks[1..], more);
      }
    }
  }

  lemma AcceptOne(title: seq<byte>, blocks: seq<seq<byte>>, current: seq<byte>, block: seq<byte>)
    requires IsTitle(title) && AreBlocks(blocks) && IsBlock(block) && AcceptAll(title, blocks) == Some(current)
    ensures AreBlocks(blocks + [block]) && AcceptAll(title, blocks + [block]) == Accept(current, block)
  {
    AcceptMore(title, blocks, [block]);
    assert [block][1..] == [];
  }

  lemma {:induction false} BlocksAreBlocks(n: nat, w: seq<byte>)
    ensures AreBlocks(Blocks(n, w))
    decreases |w|
  {
    if HasFrame(n, w) {
      assert w[n..FrameSize(n, w)][0] == w[n];
      BlocksAreBlocks(n, w[FrameSize(n, w)..]);
    }
  }

  class Filter {
    const interval: nat
    var offset: nat
    var buildLen: nat
    var buildOffset: nat
    const build: array<byte>
    var metadata: seq<byte>
    /** The inline stream taken in so far. */
    ghost var input: seq<byte>

    ghost predicate Valid()
      reads this, build
    {
      && 0 < interval && build.Length == BUILD_SIZE
      && IsTitle(metadata)
      && offset == RunLength(interval, input)
      && Building(Part(interval, input))
    }

    /** `part` is the block being collected. */
    ghost predicate Building(part: seq<byte>)
      reads this, build
    {
      && build.Length == BUILD_SIZE
      && (part == [] ==> buildLen == 0)
      && (part != [] ==>
            && buildLen == BlockSize(part[0]) && buildOffset == |part| < buildLen && offset == interval
            && build[..buildOffset] == part
            && (forall i :: buildOffset <= i < BUILD_SIZE ==> build[i] == 0))
    }

    constructor (interval: nat)
      requires 0 < interval
      ensures Reading() && fresh(build) && this.interval == interval && received == [] && metadata == BLANK
      ensures input == [] && delivered == [] && readData == null
    {
      this.interval := interval;
      build := new byte[BUILD_SIZE](_ => 0);
      offset, buildLen, buildOffset, metadata, input := 0, 0, 0, BLANK, [];
      readData, readCount, received, delivered := null, 0, [], [];
    }

    /** The block under collection, before its first byte is copied: `buildLen` is known, nothing is stored. */
    ghost predicate Collecting(part: seq<byte>, size: nat)
      reads this, build
    {
      && build.Length == BUILD_SIZE
      && buildLen == size <= BUILD_SIZE && buildOffset == |part| < buildLen
      && build[..buildOffset] == part
      && (forall i :: buildOffset <= i < BUILD_SIZE ==> build[i] == 0)
    }

    /** At the first byte of a block its size becomes known and the buffer for it is cleared; later bytes change nothing. */
    method Open(first: byte)
      requires Valid()
      modifies `buildLen, `buildOffset, build
      ensures var part := Part(interval, input);
              Collecting(part, BlockSize(if part == [] then first else part[0]))
    {
      if buildLen == 0 {
        forall i | 0 <= i < build.Length {
          build[i] := 0;
        }
        buildOffset := 0;
        buildLen := 1 + first * 16;
      }
    }

    /** memcpy to the end of what is collected. */
    method Copy(piece: seq<byte>, ghost part: seq<byte>)
      requires Collecting(part, buildLen) && |part| + |piece| < buildLen
      modifies build
      ensures build[..|part| + |piece|] == part + piece
      ensures forall i :: |part| + |piece| <= i < BUILD_SIZE ==> build[i] == 0
    {
      forall i | 0 <= i < |piece| {
        build[buildOffset + i] := piece[i];
      }
      assert build[..|part| + |piece|] == part + piece;
    }

    /** Take the completed text into account; false ends the stream. */
    method Install(ghost block: seq<byte>) returns (ok: bool)
      requires build.Length == BUILD_SIZE && IsTitle(metadata)
      requires IsBlock(block) && buildLen == |block| && build[..buildLen] == Kept(block)
      requires forall i :: buildLen <= i < BUILD_SIZE ==> build[i] == 0
      modifies `metadata
      ensures ok <==> Accept(old(metadata), block).Some?
      ensures ok ==> Some(metadata) == Accept(old(metadata), block)
      ensures !ok ==> metadata == old(metadata)
    {
      var meta := build[..buildLen];
      if buildLen > 1 && CString(meta[1..]) != CString(metadata[1..]) {
        if TITLE_TAG <= meta[1..] {
          metadata := meta;
        } else {
          return false;
        }
      }
      return true;
    }
  
    /** All of `piece` belongs to a block that stays incomplete. */
    method Hold(piece: seq<byte>)
      requires 0 < interval && RunLength(interval, input) == offset == interval && IsTitle(metadata)
      requires var part := Part(interval, input);
               |part + piece| > 0 && Collecting(part, BlockSize((part + piece)[0])) && |part + piece| < buildLen
      modifies `buildOffset, `input, build
      ensures Valid() && input == old(input) + piece
      ensures Strip(interval, input) == Strip(interval, old(input)) && Blocks(interval, input) == Blocks(interval, old(input))
    {
      ghost var part := Part(interval, input);
      Copy(piece, part);
      buildOffset := buildOffset + |piece|;
      AppendPart(interval, input, piece);
      input := input + piece;
    }

    /** `piece` completes the block. */
    method Complete(piece: seq<byte>) returns (ok: bool, ghost block: seq<byte>)
      requires 0 < interval && RunLength(interval, input) == offset == interval && IsTitle(metadata)
      requires var part := Part(interval, input);
               |part + piece| > 0 && Collecting(part, BlockSize((part + piece)[0])) && |part + piece| == buildLen
      modifies `offset, `buildLen, `buildOffset, `metadata, `input, build
      ensures input == old(input) + piece && IsBlock(block)
      ensures Strip(interval, input) == Strip(interval, old(input))
      ensures Blocks(interval, input) == Blocks(interval, old(input)) + [block]
      ensures ok ==> Valid() && Some(metadata) == Accept(old(metadata), block)
      ensures !ok ==> Accept(old(metadata), block) == None
    {
      ghost var part := Part(interval, input);
      block := part + piece;
      Copy(piece[..|piece| - 1], part);
      assert build[..buildLen] == Kept(block);
      ok := Install(block);
      AppendBlock(interval, input, piece);
      input := input + piece;
      if ok {
        offset := 0;
        buildLen := 0;
      }
    }

    /**
     The metadata step on the unread bytes `buf[src..src + bytes]`. Either they all belong to a block that is still
     incomplete (`done` is false), or the block is completed and cut out of the buffer, leaving `left` bytes.
     */
    method Collect(buf: array<byte>, src: nat, bytes: nat, ghost rest: seq<byte>)
      returns (left: nat, done: bool, ok: bool, ghost block: seq<byte>)
      requires Valid() && offset == interval
      requires 0 < bytes && src + bytes <= buf.Length && buf != build && buf[src..src + bytes] == rest
      modifies `offset, `buildLen, `buildOffset, `metadata, `input, build, buf
      ensures buf[..src] == old(buf[..src]) && Strip(interval, input) == Strip(interval, old(input))
      ensures !done ==> ok && metadata == old(metadata) && Blocks(interval, input) == Blocks(interval, old(input))
      ensures !done ==> left == 0 && input == old(input) + rest
      ensures done ==> left < bytes && input == old(input) + rest[..bytes - left]
      ensures done ==> buf[src..src + left] == rest[bytes - left..]
      ensures done ==> IsBlock(block) && Blocks(interval, input) == Blocks(interval, old(input)) + [block]
      ensures done && ok ==> Some(metadata) == Accept(old(metadata), block)
      ensures !ok ==> done && Accept(old(metadata), block) == None
      ensures ok ==> Valid()
    {
      hide Strip, Blocks, Residue;
      ghost var part := Part(interval, input);
      var piece := buf[src..src + bytes];
      Open(buf[src]);
      var remaining := buildLen - buildOffset;
      FirstByte(part, piece, bytes);
      if bytes < remaining {
        Hold(piece);
        return 0, false, true, [];
      }
      FirstByte(part, piece, remaining);
      ok, block := Complete(piece[..remaining]);
      left := bytes - remaining;
      MemMove(buf, src, src + remaining, left);
      done := true;
    }

    /** Bytes of the current run are audio: they stay where they are. */
    method Pass(chunk: seq<byte>)
      requires Valid() && 0 < |chunk| && offset + |chunk| <= interval
      modifies `offset, `input
      ensures Valid() && input == old(input) + chunk && offset == old(offset) + |chunk|
      ensures Strip(interval, input) == Strip(interval, old(input)) + chunk
      ensures Blocks(interval, input) == Blocks(interval, old(input))
    {
      AppendAudio(interval, input, chunk);
      offset := offset + |chunk|;
      input := input + chunk;
    }

    /** A buffer that held `b.data` is filtered up to its last `bytes` bytes, which follow the `len` audio bytes kept. */
    ghost predicate Filtered(buf: array<byte>, len: nat, bytes: nat, b: Before, blocks: seq<seq<byte>>)
      reads this, build, buf
    {
      && Valid() && buf != build && len + bytes <= buf.Length && bytes <= |b.data|
      && buf[len..len + bytes] == b.data[|b.data| - bytes..]
      && Progress(interval, b, |b.data| - bytes, input, buf[..len], blocks, Some(metadata))
    }

    method PassStep(buf: array<byte>, len: nat, bytes: nat, take: nat, ghost b: Before, ghost blocks: seq<seq<byte>>)
      requires Filtered(buf, len, bytes, b, blocks) && 0 < take <= bytes && offset + take <= interval
      modifies `offset, `input
      ensures Filtered(buf, len + take, bytes - take, b, blocks)
    {
      hide Strip, Blocks, Residue, AcceptAll;
      ghost var rest := buf[len..len + bytes];
      Pass(buf[len..len + take]);
      assert buf[len..len + take] == rest[..take] && buf[len + take..len + bytes] == rest[take..];
      assert buf[..len + take] == buf[..len] + rest[..take];
      ProgressPass(interval, b, |b.data| - bytes, take, old(input), buf[..len], blocks, Some(metadata));
    }

    method CollectStep(buf: array<byte>, len: nat, bytes: nat, ghost b: Before, ghost blocks: seq<seq<byte>>)
      returns (left: nat, ok: bool, ghost blocks': seq<seq<byte>>)
      requires Filtered(buf, len, bytes, b, blocks) && 0 < bytes && offset == interval
      modifies `offset, `buildLen, `buildOffset, `metadata, `input, build, buf
      ensures left < bytes
      ensures ok ==> Filtered(buf, len, left, b, blocks')
      ensures !ok ==> len <= buf.Length && Progress(interval, b, |b.data| - left, input, buf[..len], blocks', None)
    {
      hide Strip, Blocks, Residue, AcceptAll;
      ghost var k := |b.data| - bytes;
      var done;
      ghost var block;
      left, done, ok, block := Collect(buf, len, bytes, b.data[k..]);
      blocks' := if done then blocks + [block] else blocks;
      if done {
        ProgressBlock(interval, b, k, bytes - left, old(input), input, buf[..len], blocks, old(metadata), block);
      } else {
        ProgressHold(interval, b, k, old(input), input, buf[..len], blocks, Some(metadata));
      }
    }

    /** One turn of the loop: audio up to the end of the run, or metadata. */
    method Step(buf: array<byte>, len: nat, bytes: nat, ghost b: Before, ghost blocks: seq<seq<byte>>)
      returns (len': nat, left: nat, ok: bool, ghost blocks': seq<seq<byte>>)
      requires Filtered(buf, len, bytes, b, blocks) && 0 < bytes
      modifies `offset, `buildLen, `buildOffset, `metadata, `input, build, buf
      ensures left < bytes
      ensures ok ==> Filtered(buf, len', left, b, blocks')
      ensures !ok ==> len' <= buf.Length && Progress(interval, b, |b.data| - left, input, buf[..len'], blocks', None)
    {
      hide Progress, Strip, Blocks, Residue, AcceptAll;
      var mp3Block := interval - offset;
      if bytes <= mp3Block {
        PassStep(buf, len, bytes, bytes, b, blocks);
        return len + bytes, 0, true, blocks;
      }
      if mp3Block > 0 {
        PassStep(buf, len, bytes, mp3Block, b, blocks);
        return len + mp3Block, bytes - mp3Block, true, blocks;
      }
      left, ok, blocks' := CollectStep(buf, len, bytes, b, blocks);
      len' := len;
    }

    /**
     One buffer, filtered in place. The `len` bytes kept are exactly the audio these bytes add to the stream, wherever
     runs and blocks were cut, and the metadata is what the newly completed blocks make of it. The stream is
     given up exactly when one of them is refused.
     */
    method FilterBuffer(buf: array<byte>) returns (len: nat, ok: bool, ghost taken: nat, ghost blocks: seq<seq<byte>>)
      requires Valid() && buf != build
      modifies `offset, `buildLen, `buildOffset, `metadata, `input, build, buf
      ensures ok ==> Valid() && len <= buf.Length && taken == buf.Length
      ensures ok ==> Progress(interval, Before(old(input), old(metadata), old(buf[..])), taken, input, buf[..len], blocks, Some(metadata))
      ensures len <= buf.Length
      ensures !ok ==> Progress(interval, Before(old(input), old(metadata), old(buf[..])), taken, input, buf[..len], blocks, None)
    {
      hide Strip, Blocks, Residue, AcceptAll, Progress;
      ghost var b := Before(input, metadata, buf[..]);
      var bytes: nat := buf.Length;
      len, ok, blocks := 0, true, [];
      Start(buf, b);
      while bytes > 0
        invariant Filtered(buf, len, bytes, b, blocks)
      {
        len, bytes, ok, blocks := Step(buf, len, bytes, b, blocks);
        if !ok {
          taken := |b.data| - bytes;
          return;
        }
      }
      taken := |b.data|;
    }

    lemma Start(buf: array<byte>, b: Before)
      requires Valid() && buf != build && b == Before(input, metadata, buf[..])
      ensures Filtered(buf, 0, buf.Length, b, [])
    {
      ProgressStart(interval, b);
      assert buf[..0] == [] && buf[0..buf.Length] == b.data[0..];
    }

    // ---------- reading from the source's connection ----------

    /** The 1400-byte buffer being filled, if any. */
    var readData: array?<byte>
    var readCount: nat
    /** Every byte read from the connection and not thrown away with a broken one. */
    ghost var received: seq<byte>
    /** The audio of all buffers handed to the queue. */
    ghost var delivered: seq<byte>

    ghost predicate Reading()
      reads this, build, readData
    {
      && Valid()
      && (readData != null ==> readData.Length == REFBUF_SIZE && readCount < REFBUF_SIZE && readData != build)
      && received == input + Pending()
      && delivered == Strip(interval, input)
    }

    ghost function Pending(): (bytes: seq<byte>)
      reads this, readData
    {
      if readData != null && readCount <= readData.Length then readData[..readCount] else []
    }

    /** How much the next read may bring. */
    function Room(): (n: nat)
      requires Reading()
      reads this, build, readData
      ensures n > 0 && n + |Pending()| == REFBUF_SIZE
    {
      REFBUF_SIZE - if readData == null then 0 else readCount
    }

    /** What has been filtered is what was read but for less than a buffer. */
    lemma Lag()
      requires Reading()
      ensures input <= received && |received| - |input| < REFBUF_SIZE && delivered == Strip(interval, input)
    {
    }

    /** What the connection gave makes the buffer full. */
    ghost predicate Fills(got: Option<seq<byte>>)
      reads this, readData
    {
      got.Some? && |Pending()| + |got.value| == REFBUF_SIZE
    }

    /** Fill the buffer with what the connection gave (`None` for an error); true when it is full. */
    method CompleteRead(got: Option<seq<byte>>, conError: bool) returns (full: bool)
      requires Reading()
      requires got.Some? ==> |got.value| + |Pending()| <= REFBUF_SIZE
      modifies `readData, `readCount, `received, readData
      ensures Valid() && input == old(input) && metadata == old(metadata) && delivered == old(delivered)
      ensures readData != null ==> readData == old(readData) || fresh(readData)
      ensures received == if got.Some? then old(received) + got.value else if conError then input else old(received)
      ensures full <==> old(Fills(got))
      ensures !full ==> Reading()
      ensures full ==> readData != null && readData != build && readData.Length == REFBUF_SIZE && received == input + readData[..]
    {
      hide Strip, Blocks, Residue, RunLength, Part, IsTitle;
      if readData == null {
        readData := new byte[REFBUF_SIZE](_ => 0);
        readCount := 0;
      }
      if got == None {
        if conError {
          readData := null;
          received := input;
        }
        return false;
      }
      full := Store(got.value);
    }

    /** The bytes of a successful read go behind those that are there. */
    method Store(bytes: seq<byte>) returns (full: bool)
      requires Valid() && delivered == Strip(interval, input) && readData != null && readData != build
      requires readData.Length == REFBUF_SIZE && readCount + |bytes| <= REFBUF_SIZE && received == input + readData[..readCount]
      modifies `readData, `readCount, `received, readData
      ensures full <==> old(readCount) + |bytes| == REFBUF_SIZE
      ensures Valid() && received == old(received) + bytes && (readData == null || readData == old(readData))
      ensures !full ==> Reading()
      ensures full ==> readData != null && received == input + readData[..]
    {
      hide Strip, Blocks, Residue, RunLength, Part, IsTitle;
      ghost var had := readData[..readCount];
      MemCopy(readData, readCount, bytes);
      readCount := readCount + |bytes|;
      Associative(input, had, bytes);
      received := received + bytes;
      if readCount < REFBUF_SIZE {
        if readCount == 0 {
          readData := null;
        }
        return false;
      }
      assert readData[..] == readData[..readCount];
      return true;
    }

    /**
     One call of the source thread: read, apply a title set from outside, filter. A buffer is returned when some
     audio is left of the 1400 bytes. The stream keeps running exactly when the blocks completed by this buffer
     are all accepted, starting from the title `from` in force when it was full: the one set from outside if there is one.
     */
    method GetBuffer(got: Option<seq<byte>>, conError: bool, title: Option<seq<byte>>)
      returns (refbuf: Option<seq<byte>>, running: bool, ghost from: seq<byte>, ghost blocks: seq<seq<byte>>)
      requires Reading()
      requires got.Some? ==> |got.value| + |Pending()| <= REFBUF_SIZE
      requires title.Some? ==> IsTitle(title.value)
      modifies this, build, readData
      ensures running ==> Reading()
      ensures running ==> received == if got.Some? then old(received) + got.value else if conError then input else old(received)
      ensures running ==> delivered == old(delivered) + if refbuf.Some? then refbuf.value else []
      ensures refbuf.Some? ==> running && refbuf.value != []
      ensures readData != null ==> readData == old(readData) || fresh(readData)
      ensures IsTitle(from)
      ensures AreBlocks(blocks) && Blocks(interval, input) == Blocks(interval, old(input)) + blocks
      ensures AcceptAll(from, blocks) == if running then Some(metadata) else None
      ensures from == if old(Fills(got)) && title.Some? then title.value else old(metadata)
      ensures !old(Fills(got)) ==> running && refbuf.None? && input == old(input) && metadata == old(metadata)
      ensures old(Fills(got)) && running ==> input == old(received) + got.value
      ensures got.Some? ==> input <= old(received) + got.value
    {
      hide Strip, Blocks, Residue;
      from, blocks := metadata, [];
      var full := CompleteRead(got, conError);
      if !full {
        assert Blocks(interval, input) + [] == Blocks(interval, input);
        return None, true, from, blocks;
      }
      var buf: array<byte> := readData;
      readData := null;
      if title.Some? {
        metadata := title.value;
      }
      from := metadata;
      ghost var data := buf[..];
      var len, ok, taken, completed := FilterBuffer(buf);
      blocks := completed;
      if !ok {
        return None, false, from, blocks;
      }
      assert data[..|data|] == data;
      delivered := delivered + buf[..len];
      if len == 0 {
        return None, true, from, blocks;
      }
      return Some(buf[..len]), true, from, blocks;
    }
  }

  /** The stream and the metadata before a buffer, and the buffer. */
  datatype Before = Before(input: seq<byte>, title: seq<byte>, data: seq<byte>)

  /**
   The first `k` bytes of the buffer have been taken in: they added the audio `kept` and the blocks `blocks`,
   which turned the metadata into `now` (None when one of them was refused).
   */
  ghost predicate Progress(n: nat, b: Before, k: nat, input: seq<byte>, kept: seq<byte>, blocks: seq<seq<byte>>,
                           now: Option<seq<byte>>)
  {
    && k <= |b.data| && input == b.input + b.data[..k]
    && Strip(n, input) == Strip(n, b.input) + kept
    && AreBlocks(blocks) && Blocks(n, input) == Blocks(n, b.input) + blocks
    && IsTitle(b.title) && AcceptAll(b.title, blocks) == now
  }

  lemma ProgressStart(n: nat, b: Before)
    requires IsTitle(b.title)
    ensures Progress(n, b, 0, b.input, [], [], Some(b.title))
  {
    assert b.input + b.data[..0] == b.input;
  }

  lemma ProgressPass(n: nat, b: Before, k: nat, take: nat, input: seq<byte>, kept: seq<byte>, blocks: seq<seq<byte>>,
                     now: Option<seq<byte>>)
    requires Progress(n, b, k, input, kept, blocks, now) && k + take <= |b.data|
    requires var chunk := b.data[k..][..take];
             Strip(n, input + chunk) == Strip(n, input) + chunk && Blocks(n, input + chunk) == Blocks(n, input)
    ensures Progress(n, b, k + take, input + b.data[k..][..take], kept + b.data[k..][..take], blocks, now)
    ensures b.data[k..][take..] == b.data[k + take..]
  {
    Glue(b.input, b.data, k, take);
    Associative(Strip(n, b.input), kept, b.data[k..][..take]);
  }

  lemma ProgressBlock(n: nat, b: Before, k: nat, take: nat, input: seq<byte>, input': seq<byte>, kept: seq<byte>,
                      blocks: seq<seq<byte>>, now: seq<byte>, block: seq<byte>)
    requires Progress(n, b, k, input, kept, blocks, Some(now)) && k + take <= |b.data| && IsTitle(now) && IsBlock(block)
    requires input' == input + b.data[k..][..take]
    requires Strip(n, input') == Strip(n, input) && Blocks(n, input') == Blocks(n, input) + [block]
    ensures Progress(n, b, k + take, input', kept, blocks + [block], Accept(now, block))
    ensures b.data[k..][take..] == b.data[k + take..]
  {
    Glue(b.input, b.data, k, take);
    Associative(Blocks(n, b.input), blocks, [block]);
    AcceptOne(b.title, blocks, now, block);
  }

  lemma ProgressHold(n: nat, b: Before, k: nat, input: seq<byte>, input': seq<byte>, kept: seq<byte>,
                     blocks: seq<seq<byte>>, now: Option<seq<byte>>)
    requires Progress(n, b, k, input, kept, blocks, now) && input' == input + b.data[k..]
    requires Strip(n, input') == Strip(n, input) && Blocks(n, input') == Blocks(n, input)
    ensures Progress(n, b, |b.data|, input', kept, blocks, now)
  {
    Glue(b.input, b.data, k, |b.data| - k);
  }

  lemma FirstByte(part: seq<byte>, piece: seq<byte>, k: nat)
    requires 0 < k <= |piece|
    ensures (part + piece[..k])[0] == if part == [] then piece[0] else part[0]
    ensures k == |piece| ==> piece[..k] == piece
  {
  }

  lemma Glue(before: seq<byte>, data: seq<byte>, k: nat, take: nat)
    requires k + take <= |data|
    ensures data[k..][..take] == data[k..k + take] && data[k..][take..] == data[k + take..]
    ensures before + data[..k] + data[k..][..take] == before + data[..k + take] <= before + data
    ensures k + take == |data| ==> data[k..][..take] == data[k..]
  {
  }

  /** memcpy of `bytes` into a buffer. */
  method MemCopy(buf: array<byte>, at: nat, bytes: seq<byte>)
    requires at + |bytes| <= buf.Length
    modifies buf
    ensures buf[..at + |bytes|] == old(buf[..at]) + bytes
  {
    forall i | 0 <= i < |bytes| {
      buf[at + i] := bytes[i];
    }
  }

  /** memmove within a buffer. */
  method MemMove(buf: array<byte>, dst: nat, src: nat, n: nat)
    requires dst <= src && src + n <= buf.Length
    modifies buf
    ensures buf[dst..dst + n] == old(buf[src..src + n])
    ensures buf[..dst] == old(buf[..dst])
  {
    forall i | 0 <= i < n {
      buf[dst + i] := buf[src + i];
    }
  }
}
