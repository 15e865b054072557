/**
 The per-listener ICY writer of src/format_mp3.c: it inserts a metadata block after every `interval`
 bytes of audio and can be cut short by the socket at any byte.
 */
module IcyMux {
  import opened Octets
  import opened IcyFraming

  /** A metadata buffer; `id` stands for its address, which is what the writer compares. */
  datatype Meta = Meta(id: nat, data: seq<byte>)

  datatype Mux = Mux(interval: nat, metadataOffset: nat, sinceMetaBlock: nat, inMetadata: bool, associated: Option<Meta>)

  /** What the socket answers to the (at most four) sends of one call. */
  datatype Net = Net(resume: int, before: int, block: int, after: int)

  /** Effect of one call: new state, bytes put on the wire, audio bytes taken from the buffer, return value. */
  datatype Out = Out(st: Mux, wire: seq<byte>, used: nat, written: int)

  /** The block the writer sends when it is about to send one. */
  function Chosen(st: Mux, meta: Option<Meta>): (block: seq<byte>) {
    if meta.Some? && meta != st.associated then meta.value.data
    else if meta.Some? then [0]
    else BLANK
  }

  /** The offset into the block is never past its end. */
  predicate InBounds(st: Mux, meta: Option<Meta>) {
    st.metadataOffset <= |Chosen(st, meta)| || (meta.Some? && meta == st.associated)
  }

  /** The bytes handed to the socket: the offset is ignored for the one-byte "no change" block. */
  function Rest(st: Mux, meta: Option<Meta>): (bytes: seq<byte>)
    requires InBounds(st, meta)
  {
    if meta.Some? && meta == st.associated then [0] else Chosen(st, meta)[st.metadataOffset..]
  }

  function SendMeta(st: Mux, meta: Option<Meta>, answer: int): (r: (Mux, seq<byte>))
    requires InBounds(st, meta)
  {
    var rest := Rest(st, meta);
    var ret := SendResult(answer, |rest|);
    if ret == |rest| then
      (st.(associated := meta, metadataOffset := 0, inMetadata := false, sinceMetaBlock := 0), rest)
    else if ret > 0 then
      (st.(metadataOffset := st.metadataOffset + ret, inMetadata := true), rest[..ret])
    else
      (st.(inMetadata := true), [])
  }

  /** Send `len` bytes of audio and count them. */
  function SendAudio(st: Mux, data: seq<byte>, answer: int): (r: (Mux, seq<byte>)) {
    var ret := SendResult(answer, |data|);
    if ret > 0 then (st.(sinceMetaBlock := st.sinceMetaBlock + ret), data[..ret]) else (st, [])
  }

  /** The last send of a call, `data[from..]` limited to one interval when metadata is in use. */
  function WriteTail(st: Mux, data: seq<byte>, from: nat, limit: bool, wire: seq<byte>, net: Net): (o: Out)
    requires from <= |data|
    ensures o.used <= |data| && o.st.interval == st.interval
  {
    var len := if limit && |data| - from > st.interval then st.interval else |data| - from;
    var (st', sent) := SendAudio(st, data[from..from + len], net.after);
    Out(st', wire + sent, from + |sent|, |wire| + |sent|)
  }

  /** At the end of a run, `from` audio bytes into the buffer: the block, then more audio if the block went out. */
  function WriteBlock(st: Mux, data: seq<byte>, from: nat, meta: Option<Meta>, wire: seq<byte>, net: Net): (o: Out)
    requires from <= |data| && InBounds(st, meta)
    ensures o.used <= |data| && o.st.interval == st.interval
  {
    var (s1, bytes) := SendMeta(st, meta, net.block);
    if s1.inMetadata then Out(s1, wire + bytes, from, |wire| + |bytes|)
    else WriteTail(s1, data, from, true, wire + bytes, net)
  }

  /** From the point where no block is pending. `wire` is what the call has sent so far. */
  function WriteAudio(st: Mux, data: seq<byte>, meta: Option<Meta>, wire: seq<byte>, net: Net): (o: Out)
    requires st.sinceMetaBlock <= st.interval && st.metadataOffset == 0
    ensures o.used <= |data| && o.st.interval == st.interval
  {
    var remaining := st.interval - st.sinceMetaBlock;
    if st.interval == 0 || remaining > |data| then
      WriteTail(st, data, 0, false, wire, net)
    else
      var (s1, sent) := SendAudio(st, data[..remaining], net.before);
      if |sent| < remaining then Out(s1, wire + sent, |sent|, |wire| + |sent|)
      else WriteBlock(s1, data, remaining, meta, wire + sent, net)
  }

  /** What every call leaves of the client record. */
  predicate Callable(st: Mux) {
    if st.interval == 0 then !st.inMetadata
    else st.sinceMetaBlock <= st.interval && (st.metadataOffset > 0 ==> st.inMetadata)
  }

  /**
   A half-sent block is resumed in a buffer whose block is shorter than what has been sent: the C code computes
   a negative length and hands the socket bytes that are not part of any block.
   */
  predicate Overreads(st: Mux, meta: Option<Meta>) {
    st.interval > 0 && st.inMetadata && !InBounds(st, meta)
  }

  /** One call of the writer on the unsent audio `data` of a buffer whose metadata is `meta`; nothing is known of one that overreads. */
  function WriteBuf(st: Mux, data: seq<byte>, meta: Option<Meta>, net: Net): (o: Option<Out>)
    requires Callable(st)
    ensures o.None? <==> Overreads(st, meta)
    ensures o.Some? ==> o.value.used <= |data| && o.value.st.interval == st.interval
  {
    if Overreads(st, meta) then None
    else if st.interval == 0 then
      Some(WriteTail(st, data, 0, false, [], net))
    else if st.inMetadata then
      var (s1, bytes) := SendMeta(st, meta, net.resume);
      Some(if s1.inMetadata then Out(s1, bytes, 0, |bytes|) else WriteAudio(s1, data, meta, bytes, net))
    else
      Some(WriteAudio(st, data, meta, [], net))
  }

  /** Whatever is found on resuming, short of an overread, the next call can be made. */
  lemma StaysCallable(st: Mux, data: seq<byte>, meta: Option<Meta>, net: Net)
    requires Callable(st) && !Overreads(st, meta)
    ensures Callable(WriteBuf(st, data, meta, net).value.st)
  {
    hide WriteTail, WriteAudio;
    if st.interval == 0 {
      TailStays(st, data, 0, false, [], net);
    } else if st.inMetadata {
      var (s1, bytes) := SendMeta(st, meta, net.resume);
      if !s1.inMetadata {
        AudioStays(s1, data, meta, bytes, net);
      }
    } else {
      AudioStays(st, data, meta, [], net);
    }
  }

  lemma TailStays(st: Mux, data: seq<byte>, from: nat, limit: bool, wire: seq<byte>, net: Net)
    requires from <= |data| && Callable(st) && (st.interval > 0 ==> !st.inMetadata)
    requires st.interval > 0 ==> if limit then st.sinceMetaBlock == 0 else st.sinceMetaBlock + |data| - from <= st.interval
    ensures Callable(WriteTail(st, data, from, limit, wire, net).st)
  {
  }

  lemma AudioStays(st: Mux, data: seq<byte>, meta: Option<Meta>, wire: seq<byte>, net: Net)
    requires st.interval > 0 && Callable(st) && !st.inMetadata
    ensures Callable(WriteAudio(st, data, meta, wire, net).st)
  {
    hide WriteTail, SendMeta;
    var remaining := st.interval - st.sinceMetaBlock;
    if remaining > |data| {
      TailStays(st, data, 0, false, wire, net);
    } else {
      var (s1, sent) := SendAudio(st, data[..remaining], net.before);
      if |sent| == remaining {
        var (s2, bytes) := SendMeta(s1, meta, net.block);
        MetaStays(s1, meta, net.block);
        if !s2.inMetadata {
          TailStays(s2, data, remaining, true, wire + sent + bytes, net);
        }
      }
    }
  }

  lemma MetaStays(st: Mux, meta: Option<Meta>, answer: int)
    requires st.interval > 0 && InBounds(st, meta) && st.sinceMetaBlock <= st.interval
    ensures Callable(SendMeta(st, meta, answer).0) && SendMeta(st, meta, answer).0.interval == st.interval
    ensures !SendMeta(st, meta, answer).0.inMetadata ==> SendMeta(st, meta, answer).0.sinceMetaBlock == 0
  {
  }

  // ---------- what one call sends ----------

  /** The audio up to the next block. */
  function RunRest(st: Mux): (n: int) {
    st.interval - if st.inMetadata then 0 else st.sinceMetaBlock
  }

  /** The block after it: the title, or "no change" if that was sent last or has just been resumed. */
  function NextBlock(st: Mux, meta: Option<Meta>): (block: seq<byte>) {
    if meta == None then BLANK else if st.inMetadata || meta == st.associated then [0] else meta.value.data
  }

  /** The audio that may follow the block in the same call: one interval at most. */
  function AudioAfter(st: Mux, data: seq<byte>): (bytes: seq<byte>)
    requires 0 <= RunRest(st) <= |data|
  {
    if |data| - RunRest(st) > st.interval then data[RunRest(st)..RunRest(st) + st.interval] else data[RunRest(st)..]
  }

  /**
   Everything that is offered in one call goes out in order until the socket takes less than it was offered, and
   then exactly what it took: `sent` is what the call has put on the wire, `used` how much of that is audio.
   */
  ghost predicate GoesOut(st: Mux, data: seq<byte>, meta: Option<Meta>, net: Net, sent: seq<byte>, used: nat)
    requires Callable(st) && !Overreads(st, meta)
  {
    if st.interval == 0 then sent == Accepted(net.after, data) && used == |sent|
    else
      var begun := if st.inMetadata then Rest(st, meta) else [];
      if st.inMetadata && net.resume < |begun| then sent == Accepted(net.resume, begun) && used == 0
      else if RunRest(st) > |data| then sent == begun + Accepted(net.after, data) && used == |Accepted(net.after, data)|
      else
        var run, block, more := data[..RunRest(st)], NextBlock(st, meta), AudioAfter(st, data);
        if run != [] && net.before < |run| then
          sent == begun + Accepted(net.before, run) && used == |Accepted(net.before, run)|
        else if net.block < |block| then sent == begun + run + Accepted(net.block, block) && used == |run|
        else sent == begun + run + block + Accepted(net.after, more) && used == |run| + |Accepted(net.after, more)|
  }

  lemma TailGoes(st: Mux, data: seq<byte>, from: nat, limit: bool, wire: seq<byte>, net: Net)
    requires from <= |data|
    ensures var more := if limit && |data| - from > st.interval then data[from..from + st.interval] else data[from..];
            var o := WriteTail(st, data, from, limit, wire, net);
            o.wire == wire + Accepted(net.after, more) && o.used == from + |Accepted(net.after, more)| && o.written == |o.wire|
  {
    assert data[from..from + (|data| - from)] == data[from..];
  }

  lemma MetaGoes(st: Mux, meta: Option<Meta>, answer: int)
    requires InBounds(st, meta)
    ensures SendMeta(st, meta, answer).1 == Accepted(answer, Rest(st, meta))
    ensures var s1 := SendMeta(st, meta, answer).0;
            if answer < |Rest(st, meta)| then s1.inMetadata
            else s1 == st.(associated := meta, metadataOffset := 0, inMetadata := false, sinceMetaBlock := 0)
  {
  }

  lemma RunThen(st: Mux, data: seq<byte>, meta: Option<Meta>, net: Net, rest: seq<byte>, used: nat)
    requires st.interval > 0 && Callable(st) && !st.inMetadata && RunRest(st) <= |data|
    requires RunRest(st) == 0 || net.before >= RunRest(st)
    requires var block, more := NextBlock(st, meta), AudioAfter(st, data);
             if net.block < |block| then rest == Accepted(net.block, block) && used == RunRest(st)
             else rest == block + Accepted(net.after, more) && used == RunRest(st) + |Accepted(net.after, more)|
    ensures GoesOut(st, data, meta, net, data[..RunRest(st)] + rest, used)
  {
    hide Accepted, NextBlock, AudioAfter;
    var run, block, more := data[..RunRest(st)], NextBlock(st, meta), AudioAfter(st, data);
    assert [] + run + Accepted(net.block, block) == run + Accepted(net.block, block);
    assert [] + run + block + Accepted(net.after, more) == run + (block + Accepted(net.after, more));
  }

  lemma RunGoes(st: Mux, data: seq<byte>, meta: Option<Meta>, wire: seq<byte>, net: Net) returns (sent: seq<byte>)
    requires st.interval > 0 && Callable(st) && !st.inMetadata
    ensures var o := WriteAudio(st, data, meta, wire, net);
            o.written == |o.wire| && o.wire == wire + sent && GoesOut(st, data, meta, net, sent, o.used)
  {
    hide WriteTail, WriteBlock, Accepted;
    var remaining := st.interval - st.sinceMetaBlock;
    if remaining > |data| {
      TailGoes(st, data, 0, false, wire, net);
      sent := [] + Accepted(net.after, data);
      assert data[0..] == data;
    } else {
      var run := data[..remaining];
      AudioGoes(st, run, net.before);
      var before := Accepted(net.before, run);
      if |before| < remaining {
        sent := [] + before;
      } else {
        sent := BlockGoes(st, data, meta, wire + run, net);
        Associative(wire, run, sent);
        RunThen(st, data, meta, net, sent, WriteAudio(st, data, meta, wire, net).used);
        sent := run + sent;
      }
    }
  }

  /** The block, and the audio after it if it went out in full. */
  lemma BlockGoes(st: Mux, data: seq<byte>, meta: Option<Meta>, wire: seq<byte>, net: Net) returns (sent: seq<byte>)
    requires st.interval > 0 && Callable(st) && !st.inMetadata && RunRest(st) <= |data|
    ensures var s1, block, more := SendAudio(st, data[..RunRest(st)], RunRest(st)).0, NextBlock(st, meta), AudioAfter(st, data);
            var o := WriteBlock(s1, data, RunRest(st), meta, wire, net);
            && o.written == |o.wire| && o.wire == wire + sent
            && if net.block < |block| then sent == Accepted(net.block, block) && o.used == RunRest(st)
               else sent == block + Accepted(net.after, more) && o.used == RunRest(st) + |Accepted(net.after, more)|
  {
    hide WriteTail, SendMeta, SendAudio, Accepted, AudioAfter, NextBlock;
    var s1, block, more := SendAudio(st, data[..RunRest(st)], RunRest(st)).0, NextBlock(st, meta), AudioAfter(st, data);
    AfterRun(st, data, meta);
    MetaGoes(s1, meta, net.block);
    var s2 := SendMeta(s1, meta, net.block).0;
    sent := SendMeta(s1, meta, net.block).1;
    if net.block >= |block| {
      TailGoes(s2, data, RunRest(st), true, wire + block, net);
      Associative(wire, block, Accepted(net.after, more));
      sent := block + Accepted(net.after, more);
    }
  }

  /** The state at the end of a run. */
  lemma AfterRun(st: Mux, data: seq<byte>, meta: Option<Meta>)
    requires st.interval > 0 && Callable(st) && !st.inMetadata && RunRest(st) <= |data|
    ensures var s1 := SendAudio(st, data[..RunRest(st)], RunRest(st)).0;
            InBounds(s1, meta) && Rest(s1, meta) == NextBlock(st, meta) && s1.interval == st.interval
    ensures AudioAfter(st, data) == if |data| - RunRest(st) > st.interval then data[RunRest(st)..RunRest(st) + st.interval] else data[RunRest(st)..]
  {
  }

  lemma AudioGoes(st: Mux, data: seq<byte>, answer: int)
    ensures SendAudio(st, data, answer).1 == Accepted(answer, data)
    ensures |Accepted(answer, data)| == |data| ==> Accepted(answer, data) == data && (data != [] ==> answer >= |data|)
    ensures |Accepted(answer, data)| < |data| ==> answer < |data|
  {
  }

  /** Once a begun block is complete, the call goes on as one with no block pending. */
  lemma AfterResume(st: Mux, s1: Mux, data: seq<byte>, meta: Option<Meta>, net: Net, sent: seq<byte>, used: nat)
    requires Callable(st) && st.interval > 0 && st.inMetadata && InBounds(st, meta) && net.resume >= |Rest(st, meta)|
    requires s1 == st.(associated := meta, metadataOffset := 0, inMetadata := false, sinceMetaBlock := 0)
    requires GoesOut(s1, data, meta, net, sent, used)
    ensures GoesOut(st, data, meta, net, Rest(st, meta) + sent, used)
  {
    hide Rest, Accepted, InBounds;
    var begun := Rest(st, meta);
    if RunRest(st) > |data| {
      Joined(begun, [], [], Accepted(net.after, data));
    } else {
      var run, block, more := data[..RunRest(st)], NextBlock(st, meta), AudioAfter(st, data);
      assert NextBlock(s1, meta) == block && AudioAfter(s1, data) == more;
      Joined(begun, [], [], Accepted(net.before, run));
      Joined(begun, run, [], Accepted(net.block, block));
      Joined(begun, run, block, Accepted(net.after, more));
    }
  }

  lemma Joined(a: seq<byte>, b: seq<byte>, c: seq<byte>, d: seq<byte>)
    ensures a + ([] + b + c + d) == a + b + c + d
    ensures a + b + [] == a + b && [] + b + [] == [] + b && a + [] == a && [] + [] + d == [] + d
  {
  }

  /** What a call sends, for all answers of the socket. */
  lemma WriteSends(st: Mux, data: seq<byte>, meta: Option<Meta>, net: Net)
    requires Callable(st) && !Overreads(st, meta)
    ensures var o := WriteBuf(st, data, meta, net).value; GoesOut(st, data, meta, net, o.wire, o.used) && o.written == |o.wire|
  {
    hide WriteTail, WriteAudio, SendMeta, Accepted;
    var o := WriteBuf(st, data, meta, net).value;
    if st.interval == 0 {
      TailGoes(st, data, 0, false, [], net);
    } else if st.inMetadata {
      MetaGoes(st, meta, net.resume);
      var (s1, bytes) := SendMeta(st, meta, net.resume);
      if !s1.inMetadata {
        var sent := RunGoes(s1, data, meta, bytes, net);
        AfterResume(st, s1, data, meta, net, sent, o.used);
      }
    } else {
      var sent := RunGoes(st, data, meta, [], net);
      assert o.wire == sent;
    }
  }

  // ---------- what one listener has received ----------

  /** The title in force for a buffer. */
  function Title(meta: Option<Meta>): (title: seq<byte>) {
    if meta.Some? then meta.value.data else BLANK
  }

  /** Every block is "no change" or looks like a title. */
  predicate AreTitles(blocks: seq<seq<byte>>) {
    forall b :: b in blocks ==> b == [0] || IsTitle(b)
  }

  /** So does one that has been begun, as far as it goes. */
  predicate StartsTitle(part: seq<byte>) {
    part != [] ==> 1 <= part[0] && forall i :: 1 <= i < |part| && i <= 12 ==> part[i] == TITLE_TAG[i - 1]
  }

  /** The listener shows the title of the last metadata point. */
  ghost predicate Titled(st: Mux, blocks: seq<seq<byte>>) {
    && IsTitle(Title(st.associated))
    && (if blocks == [] then st.associated == None else Shown(blocks) == Title(st.associated))
  }

  /**
   The state agrees with the wire: the listener is exactly where the counters say and has been given `audio`.
   With `titles` also the metadata the listener has seen is right.
   */
  ghost predicate Tracks(st: Mux, wire: seq<byte>, audio: seq<byte>, titles: bool) {
    if st.interval == 0 then
      !st.inMetadata && wire == audio
    else
      && st.sinceMetaBlock == RunLength(st.interval, wire)
      && st.metadataOffset == |Part(st.interval, wire)|
      && (st.inMetadata ==> st.sinceMetaBlock == st.interval)
      && (st.metadataOffset > 0 ==> st.inMetadata)
      && audio == Strip(st.interval, wire)
      && AreTitles(Blocks(st.interval, wire)) && StartsTitle(Part(st.interval, wire))
      && (titles ==> Titled(st, Blocks(st.interval, wire)))
  }

  predicate MetaOk(meta: Option<Meta>) {
    meta.Some? ==> IsTitle(meta.value.data)
  }

  /** The size a half-sent block would have if it were completed now. */
  function Found(st: Mux, meta: Option<Meta>): (size: nat) {
    if meta.Some? && meta == st.associated then st.metadataOffset + 1 else |Chosen(st, meta)|
  }

  /**
   The resume condition. A block that was cut short is completed to the size its first byte announced;
   with `titles`, it is completed with its own bytes.
   */
  ghost predicate Compatible(st: Mux, wire: seq<byte>, meta: Option<Meta>, titles: bool) {
    st.interval > 0 && Part(st.interval, wire) != [] ==>
      && Found(st, meta) == BlockSize(Part(st.interval, wire)[0])
      && (titles ==> Part(st.interval, wire) <= Chosen(st, meta) && !(meta.Some? && meta == st.associated))
  }

  /** Under it the offset is inside the block. */
  lemma CompatibleInBounds(st: Mux, wire: seq<byte>, audio: seq<byte>, meta: Option<Meta>, titles: bool)
    requires st.interval > 0 && Tracks(st, wire, audio, titles) && Compatible(st, wire, meta, titles)
    ensures InBounds(st, meta)
    ensures var part := Part(st.interval, wire);
            part != [] ==> |part| + |Rest(st, meta)| == BlockSize(part[0]) && (titles ==> part + Rest(st, meta) == Chosen(st, meta))
  {
    hide Strip, Blocks, Titled;
    var n, r := st.interval, Residue(st.interval, wire);
    var part := Part(n, wire);
    if part != [] {
      assert part[0] == r[n] && !HasFrame(n, r);
      assert |part| < BlockSize(part[0]);
    }
  }

  lemma BlockShows(st: Mux, blocks: seq<seq<byte>>, meta: Option<Meta>)
    requires Titled(st, blocks) && MetaOk(meta)
    ensures Titled(st.(associated := meta), blocks + [Chosen(st, meta)])
  {
    var more := blocks + [Chosen(st, meta)];
    assert more[..|more| - 1] == blocks;
  }

  /** Titles all start alike, so a block made of two of them looks like one as well. */
  lemma StillTitle(st: Mux, part: seq<byte>, meta: Option<Meta>, k: nat)
    requires MetaOk(meta) && StartsTitle(part) && |part| == st.metadataOffset && InBounds(st, meta)
    requires part != [] ==> |part| + |Rest(st, meta)| == BlockSize(part[0])
    requires k <= |Rest(st, meta)|
    ensures k < |Rest(st, meta)| ==> StartsTitle(part + Rest(st, meta)[..k])
    ensures part + Rest(st, meta) == [0] || IsTitle(part + Rest(st, meta))
  {
    var rest, whole := Rest(st, meta), part + Rest(st, meta);
    var same := meta.Some? && meta == st.associated;
    if same && part == [] {
      assert whole == [0];
    } else {
      TagAt(Chosen(st, meta), same);
      assert forall i :: 1 <= i < |whole| && i <= 12 ==> whole[i] == TITLE_TAG[i - 1];
      assert whole[1..][..12] == TITLE_TAG;
    }
  }

  lemma TagAt(block: seq<byte>, none: bool)
    requires none || IsTitle(block)
    ensures !none ==> forall i :: 1 <= i <= 12 ==> block[i] == TITLE_TAG[i - 1]
  {
    if !none {
      forall i | 1 <= i <= 12 ensures block[i] == TITLE_TAG[i - 1] {
        assert block[1..][i - 1] == TITLE_TAG[i - 1];
      }
    }
  }

  lemma NoPart()
    ensures StartsTitle([])
  {
  }

  lemma OneMoreTitle(blocks: seq<seq<byte>>, block: seq<byte>)
    requires AreTitles(blocks) && (block == [0] || IsTitle(block))
    ensures AreTitles(blocks + [block])
  {
  }

  lemma SendMetaKeeps(st: Mux, wire: seq<byte>, audio: seq<byte>, meta: Option<Meta>, answer: int, titles: bool)
    requires st.interval > 0 && Tracks(st, wire, audio, titles) && st.sinceMetaBlock == st.interval
    requires MetaOk(meta) && Compatible(st, wire, meta, titles)
    ensures InBounds(st, meta)
    ensures var (st', bytes) := SendMeta(st, meta, answer); Tracks(st', wire + bytes, audio, titles)
  {
    hide Strip, Blocks, Residue, AreTitles, StartsTitle;
    CompatibleInBounds(st, wire, audio, meta, titles);
    var n := st.interval;
    var rest := Rest(st, meta);
    var part := Part(n, wire);
    var (st', bytes) := SendMeta(st, meta, answer);
    assert part == [] ==> rest == Chosen(st, meta) && IsBlock(rest);
    StillTitle(st, part, meta, |bytes|);
    if |bytes| == |rest| {
      assert bytes == rest;
      OneMoreTitle(Blocks(n, wire), part + rest);
      NoPart();
      assert (part + rest)[0] == if part == [] then rest[0] else part[0];
      AppendBlock(n, wire, rest);
      if titles {
        assert part + rest == Chosen(st, meta);
        BlockShows(st, Blocks(n, wire), meta);
      }
    } else if bytes != [] {
      assert (part + bytes)[0] == if part == [] then rest[0] else part[0];
      AppendPart(n, wire, bytes);
    } else {
      assert wire + [] == wire;
    }
  }

  lemma SendAudioKeeps(st: Mux, wire: seq<byte>, audio: seq<byte>, data: seq<byte>, answer: int, titles: bool)
    requires st.interval > 0 ==> st.sinceMetaBlock + |data| <= st.interval && st.metadataOffset == 0 && !st.inMetadata
    requires Tracks(st, wire, audio, titles)
    ensures var (st', sent) := SendAudio(st, data, answer);
            Tracks(st', wire + sent, audio + sent, titles) && !st'.inMetadata && st'.metadataOffset == st.metadataOffset
  {
    var (st', sent) := SendAudio(st, data, answer);
    if st.interval > 0 {
      AppendAudio(st.interval, wire, sent);
    }
  }

  /** The result of a call is accounted for. */
  ghost predicate Delivered(o: Out, before: seq<byte>, audio: seq<byte>, data: seq<byte>, titles: bool) {
    && o.used <= |data|
    && Tracks(o.st, before + o.wire, audio + data[..o.used], titles)
    && o.written == |o.wire|
  }

  lemma SendSliceKeeps(st: Mux, wire: seq<byte>, audio: seq<byte>, data: seq<byte>, from: nat, len: nat,
                       answer: int, titles: bool)
    requires from + len <= |data| && Tracks(st, wire, audio + data[..from], titles)
    requires st.interval > 0 ==> st.sinceMetaBlock + len <= st.interval && st.metadataOffset == 0 && !st.inMetadata
    ensures var (st', sent) := SendAudio(st, data[from..from + len], answer);
            |sent| <= len && Tracks(st', wire + sent, audio + data[..from + |sent|], titles)
  {
    var (st', sent) := SendAudio(st, data[from..from + len], answer);
    SendAudioKeeps(st, wire, audio + data[..from], data[from..from + len], answer, titles);
    assert audio + data[..from] + sent == audio + data[..from + |sent|];
  }

  lemma WriteTailKeeps(st: Mux, before: seq<byte>, audio: seq<byte>, data: seq<byte>, from: nat, limit: bool,
                       wire: seq<byte>, net: Net, titles: bool)
    requires from <= |data|
    requires Tracks(st, before + wire, audio + data[..from], titles)
    requires st.interval > 0 ==> !st.inMetadata && st.metadataOffset == 0
    requires st.interval > 0 ==> if limit then st.sinceMetaBlock == 0 else st.sinceMetaBlock + |data| - from <= st.interval
    ensures Delivered(WriteTail(st, data, from, limit, wire, net), before, audio, data, titles)
  {
    var len := if limit && |data| - from > st.interval then st.interval else |data| - from;
    hide Strip, Blocks, Residue, Titled;
    SendSliceKeeps(st, before + wire, audio, data, from, len, net.after, titles);
    Associative(before, wire, SendAudio(st, data[from..from + len], net.after).1);
  }

  lemma WriteBlockKeeps(st: Mux, before: seq<byte>, audio: seq<byte>, data: seq<byte>, from: nat, meta: Option<Meta>,
                        wire: seq<byte>, net: Net, titles: bool)
    requires from <= |data| && MetaOk(meta) && InBounds(st, meta)
    requires Tracks(st, before + wire, audio + data[..from], titles)
    requires st.interval > 0 && st.sinceMetaBlock == st.interval && st.metadataOffset == 0
    ensures Delivered(WriteBlock(st, data, from, meta, wire, net), before, audio, data, titles)
  {
    var (s1, bytes) := SendMeta(st, meta, net.block);
    SendMetaKeeps(st, before + wire, audio + data[..from], meta, net.block, titles);
    Associative(before, wire, bytes);
    if !s1.inMetadata {
      WriteTailKeeps(s1, before, audio, data, from, true, wire + bytes, net, titles);
    }
  }

  lemma WriteAudioKeeps(st: Mux, before: seq<byte>, audio: seq<byte>, data: seq<byte>, meta: Option<Meta>,
                        wire: seq<byte>, net: Net, titles: bool)
    requires st.interval > 0 && Tracks(st, before + wire, audio, titles) && !st.inMetadata && MetaOk(meta)
    ensures Delivered(WriteAudio(st, data, meta, wire, net), before, audio, data, titles)
  {
    hide Strip, Blocks, Residue, Titled;
    var remaining := st.interval - st.sinceMetaBlock;
    assert audio + data[..0] == audio;
    if remaining > |data| {
      WriteTailKeeps(st, before, audio, data, 0, false, wire, net, titles);
    } else {
      var (s1, sent) := SendAudio(st, data[..remaining], net.before);
      SendAudioKeeps(st, before + wire, audio, data[..remaining], net.before, titles);
      Associative(before, wire, sent);
      assert sent == data[..|sent|];
      if |sent| == remaining {
        WriteBlockKeeps(s1, before, audio, data, remaining, meta, wire + sent, net, titles);
      }
    }
  }

  /**
   One call: whatever the socket answers, the listener can still read its wire, has been given exactly the
   audio the buffer position moved over, and the value returned is the number of bytes sent.
   */
  lemma WriteKeeps(st: Mux, before: seq<byte>, audio: seq<byte>, data: seq<byte>, meta: Option<Meta>, net: Net,
                   titles: bool)
    requires Tracks(st, before, audio, titles) && MetaOk(meta) && Compatible(st, before, meta, titles)
    ensures Callable(st) && WriteBuf(st, data, meta, net).Some?
    ensures Delivered(WriteBuf(st, data, meta, net).value, before, audio, data, titles)
  {
    assert before + [] == before && audio + [] == audio;
    if st.interval == 0 {
      WriteTailKeeps(st, before, audio, data, 0, false, [], net, titles);
    } else if st.inMetadata {
      SendMetaKeeps(st, before, audio, meta, net.resume, titles);
      var (s1, bytes) := SendMeta(st, meta, net.resume);
      if !s1.inMetadata {
        WriteAudioKeeps(s1, before, audio, data, meta, bytes, net, titles);
      }
    } else {
      WriteAudioKeeps(st, before, audio, data, meta, [], net, titles);
    }
  }

  // ---------- whole runs ----------

  /** One visit of the server to this listener: the unsent audio of its buffer, that buffer's metadata, the socket. */
  datatype Call = Call(data: seq<byte>, meta: Option<Meta>, net: Net)

  datatype Session = Session(st: Mux, wire: seq<byte>, audio: seq<byte>)

  function Fresh(interval: nat): (s: Session) {
    Session(Mux(interval, 0, 0, false, None), [], [])
  }

  function Visit(s: Session, c: Call): (s': Session)
    requires Callable(s.st) && !Overreads(s.st, c.meta)
  {
    var o := WriteBuf(s.st, c.data, c.meta, c.net).value;
    Session(o.st, s.wire + o.wire, s.audio + c.data[..o.used])
  }

  ghost predicate Good(s: Session, titles: bool) {
    Tracks(s.st, s.wire, s.audio, titles)
  }

  ghost predicate Ready(s: Session, c: Call, titles: bool) {
    MetaOk(c.meta) && Compatible(s.st, s.wire, c.meta, titles)
  }

  lemma VisitKeeps(s: Session, c: Call, titles: bool)
    requires Good(s, titles) && Ready(s, c, titles)
    ensures Callable(s.st) && !Overreads(s.st, c.meta)
    ensures Good(Visit(s, c), titles) && Visit(s, c).st.interval == s.st.interval
  {
    WriteKeeps(s.st, s.wire, s.audio, c.data, c.meta, c.net, titles);
  }

  /** A socket that takes everything it is offered in a call. */
  predicate TakesAll(c: Call) {
    Enough(c.net.resume, c) && Enough(c.net.before, c) && Enough(c.net.block, c) && Enough(c.net.after, c)
  }

  predicate Enough(answer: int, c: Call) {
    answer >= |c.data| && answer >= |Title(c.meta)| && answer >= |BLANK|
  }

  /** Then everything goes out. */
  lemma AllOut(st: Mux, c: Call, sent: seq<byte>, used: nat)
    requires Callable(st) && !Overreads(st, c.meta) && GoesOut(st, c.data, c.meta, c.net, sent, used) && TakesAll(c)
    ensures var begun := if st.interval > 0 && st.inMetadata then Rest(st, c.meta) else [];
            if st.interval == 0 || RunRest(st) > |c.data| then sent == begun + c.data && used == |c.data|
            else
              var run, block, more := c.data[..RunRest(st)], NextBlock(st, c.meta), AudioAfter(st, c.data);
              sent == begun + run + block + more && used == |run| + |more|
  {
    hide Rest, Accepted, AudioAfter, NextBlock, InBounds;
    if st.interval == 0 {
      assert [] + c.data == c.data;
    } else {
      if st.inMetadata {
        RestFits(st, c.meta);
      }
      if RunRest(st) <= |c.data| {
        NextFits(st, c.data, c.meta);
      }
    }
  }

  lemma NextFits(st: Mux, data: seq<byte>, meta: Option<Meta>)
    requires st.interval > 0 && Callable(st) && RunRest(st) <= |data|
    ensures |NextBlock(st, meta)| <= |Title(meta)| || |NextBlock(st, meta)| <= |BLANK|
    ensures |AudioAfter(st, data)| == if |data| - RunRest(st) > st.interval then st.interval else |data| - RunRest(st)
  {
  }

  /** Sending the rest of a block, or a whole one, is one block more for the listener. */
  lemma OneBlockMore(st: Mux, wire: seq<byte>, audio: seq<byte>, meta: Option<Meta>)
    requires st.interval > 0 && Tracks(st, wire, audio, false) && st.sinceMetaBlock == st.interval
    requires MetaOk(meta) && Compatible(st, wire, meta, false)
    ensures InBounds(st, meta) && |Blocks(st.interval, wire + Rest(st, meta))| == |Blocks(st.interval, wire)| + 1
  {
    hide Strip, Blocks, Residue, AreTitles, StartsTitle;
    CompatibleInBounds(st, wire, audio, meta, false);
    var n, rest, part := st.interval, Rest(st, meta), Part(st.interval, wire);
    assert part == [] ==> rest == Chosen(st, meta) && IsBlock(rest);
    assert (part + rest)[0] == if part == [] then rest[0] else part[0];
    AppendBlock(n, wire, rest);
  }

  /**
   A call with such a socket takes all the audio up to the next metadata point and one interval more, or all there is, and
   gives the listener one block at every such point it reaches.
   */
  lemma FullCall(s: Session, c: Call)
    requires Good(s, false) && Ready(s, c, false) && TakesAll(c)
    ensures Callable(s.st) && !Overreads(s.st, c.meta)
    ensures var n, run, o := s.st.interval, RunRest(s.st), WriteBuf(s.st, c.data, c.meta, c.net).value;
            && o.used == (if n == 0 || run > |c.data| then |c.data| else if |c.data| - run > n then run + n else |c.data|)
            && (n > 0 ==> |Blocks(n, s.wire + o.wire)| ==
                          |Blocks(n, s.wire)| + (if s.st.inMetadata then 1 else 0) + if run <= |c.data| then 1 else 0)
  {
    hide Strip, Blocks, Residue, WriteBuf, GoesOut, Rest, NextBlock, AudioAfter, TakesAll, Tracks, Compatible;
    VisitKeeps(s, c, false);
    WriteSends(s.st, c.data, c.meta, c.net);
    var o := WriteBuf(s.st, c.data, c.meta, c.net).value;
    AllOut(s.st, c, o.wire, o.used);
    if s.st.interval > 0 {
      BlockResumed(s, c.meta);
      var begun := if s.st.inMetadata then Rest(s.st, c.meta) else [];
      FullRun(AsResumed(s.st, c.meta), s.wire + begun, s.audio, c.data, c.meta);
      if RunRest(s.st) > |c.data| {
        Associative(s.wire, begun, c.data);
      } else {
        NextFits(s.st, c.data, c.meta);
        SameNext(s.st, c.data, c.meta);
        Glue(s.wire, begun, c.data[..RunRest(s.st)], NextBlock(s.st, c.meta), AudioAfter(s.st, c.data));
      }
    }
  }

  lemma Glue(w: seq<byte>, a: seq<byte>, b: seq<byte>, c: seq<byte>, d: seq<byte>)
    ensures w + (a + b + c + d) == w + a + b + c + d
  {
  }

  /** The state once a begun block is complete. */
  function AsResumed(st: Mux, meta: Option<Meta>): (st': Mux) {
    if st.inMetadata then st.(associated := meta, metadataOffset := 0, inMetadata := false, sinceMetaBlock := 0) else st
  }

  lemma SameNext(st: Mux, data: seq<byte>, meta: Option<Meta>)
    requires st.interval > 0 && Callable(st) && RunRest(st) <= |data|
    ensures RunRest(AsResumed(st, meta)) == RunRest(st) && NextBlock(AsResumed(st, meta), meta) == NextBlock(st, meta)
    ensures AudioAfter(AsResumed(st, meta), data) == AudioAfter(st, data)
  {
  }

  lemma RestFits(st: Mux, meta: Option<Meta>)
    requires InBounds(st, meta)
    ensures |Rest(st, meta)| <= |Title(meta)| || |Rest(st, meta)| <= |BLANK|
  {
  }

  /** A begun block is completed. */
  lemma BlockResumed(s: Session, meta: Option<Meta>)
    requires s.st.interval > 0 && Good(s, false) && MetaOk(meta) && Compatible(s.st, s.wire, meta, false)
    ensures s.st.inMetadata ==> InBounds(s.st, meta)
    ensures var st := AsResumed(s.st, meta);
            var wire := s.wire + if s.st.inMetadata then Rest(s.st, meta) else [];
            && Tracks(st, wire, s.audio, false)
            && |Blocks(s.st.interval, wire)| == |Blocks(s.st.interval, s.wire)| + if s.st.inMetadata then 1 else 0
  {
    hide Strip, Blocks, Residue;
    if s.st.inMetadata {
      OneBlockMore(s.st, s.wire, s.audio, meta);
      SendMetaKeeps(s.st, s.wire, s.audio, meta, |Rest(s.st, meta)|, false);
    } else {
      assert s.wire + [] == s.wire;
    }
  }

  /** The audio up to the block, the block, and the audio after it. */
  lemma FullRun(st: Mux, wire: seq<byte>, audio: seq<byte>, data: seq<byte>, meta: Option<Meta>)
    requires st.interval > 0 && Tracks(st, wire, audio, false) && !st.inMetadata && MetaOk(meta)
    ensures RunRest(st) > |data| ==> |Blocks(st.interval, wire + data)| == |Blocks(st.interval, wire)|
    ensures RunRest(st) <= |data| ==>
              |Blocks(st.interval, wire + data[..RunRest(st)] + NextBlock(st, meta) + AudioAfter(st, data))| == |Blocks(st.interval, wire)| + 1
  {
    hide Strip, Blocks, Residue;
    var n := st.interval;
    if RunRest(st) > |data| {
      AppendAudio(n, wire, data);
    } else {
      var run := data[..RunRest(st)];
      AppendAudio(n, wire, run);
      var s1 := st.(sinceMetaBlock := n);
      SendAudioKeeps(st, wire, audio, run, |run|, false);
      OneBlockMore(s1, wire + run, audio + run, meta);
      SendMetaKeeps(s1, wire + run, audio + run, meta, |Rest(s1, meta)|, false);
      assert Rest(s1, meta) == NextBlock(st, meta);
      AppendAudio(n, wire + run + NextBlock(st, meta), AudioAfter(st, data));
    }
  }

  /** The session `s'` is reached from `s` by `calls`, each of them made when the resume condition held. */
  ghost predicate Reaches(s: Session, calls: seq<Call>, s': Session, titles: bool)
    requires Good(s, titles)
    decreases |calls|
  {
    if calls == [] then s' == s
    else
      && Ready(s, calls[0], titles)
      && (VisitKeeps(s, calls[0], titles);
          Reaches(Visit(s, calls[0]), calls[1..], s', titles))
  }

  lemma {:induction false} ReachesGood(s: Session, calls: seq<Call>, s': Session, titles: bool)
    requires Good(s, titles) && Reaches(s, calls, s', titles)
    ensures Good(s', titles) && s'.st.interval == s.st.interval
    decreases |calls|
  {
    if calls != [] {
      VisitKeeps(s, calls[0], titles);
      ReachesGood(Visit(s, calls[0]), calls[1..], s', titles);
    }
  }

  /** Whatever titles cut blocks were resumed with, the blocks the listener reads look like titles. */
  lemma BlocksLookRight(interval: nat, calls: seq<Call>, s: Session)
    requires interval > 0 && Reaches(Fresh(interval), calls, s, false)
    ensures AreTitles(Blocks(interval, s.wire))
  {
    ReachesGood(Fresh(interval), calls, s, false);
  }

  /**
   Round trip over whole runs: for every interval, every sequence of buffers and every pattern of partial
   writes, stripping the wire gives back the audio consumed and the run counter stays within the interval.
   */
  lemma RoundTrip(interval: nat, calls: seq<Call>, s: Session)
    requires interval > 0 && Reaches(Fresh(interval), calls, s, false)
    ensures Strip(interval, s.wire) == s.audio && s.st.sinceMetaBlock <= interval
  {
    ReachesGood(Fresh(interval), calls, s, false);
  }

  /** When cut blocks are resumed with their own bytes, the listener also shows the right title after every block. */
  lemma TitlesArrive(interval: nat, calls: seq<Call>, s: Session)
    requires interval > 0 && Reaches(Fresh(interval), calls, s, true)
    ensures Strip(interval, s.wire) == s.audio && IsTitle(Title(s.st.associated))
    ensures forall b :: b in Blocks(interval, s.wire) ==> b == [0] || IsTitle(b)
    ensures Blocks(interval, s.wire) != [] ==> Shown(Blocks(interval, s.wire)) == Title(s.st.associated)
  {
    ReachesGood(Fresh(interval), calls, s, true);
  }

  // ---------- the resume condition ----------

  /** Resuming a half-sent block: what is sent, unless that is not part of any block. */
  function Resume(st: Mux, meta: Option<Meta>, answer: int): (sent: Option<seq<byte>>) {
    if InBounds(st, meta) then Some(SendMeta(st, meta, answer).1) else None
  }

  /**
   The half-sent block is looked up again in the buffer the listener has reached, which may be a later one.
   When the socket takes everything offered, the listener reads on correctly exactly when the block found
   there is as long as the one that was started. This is about the audio; for the title see `TitleResumed`.
   */
  lemma ResumeCondition(s: Session, meta: Option<Meta>, answer: int)
    requires s.st.interval > 0 && Good(s, false) && s.st.metadataOffset > 0
    requires InBounds(s.st, meta) ==> answer >= |Rest(s.st, meta)|
    ensures var sent := Resume(s.st, meta, answer);
            sent.Some? && ReadsOn(s.st.interval, s.wire, sent.value) <==> Found(s.st, meta) == BlockSize(Part(s.st.interval, s.wire)[0])
  {
    hide ReadsOn;
    if InBounds(s.st, meta) {
      ResumeExact(s.st.interval, s.wire, Rest(s.st, meta));
    } else if Found(s.st, meta) == BlockSize(Part(s.st.interval, s.wire)[0]) {
      CompatibleInBounds(s.st, s.wire, s.audio, meta, false);
    }
  }

  /** From the place where `begun` was cut, the block found now goes on as `begun` does. */
  predicate GoesOnAs(st: Mux, meta: Option<Meta>, begun: seq<byte>)
    requires st.metadataOffset <= |begun|
  {
    if meta.Some? && meta == st.associated then begun[st.metadataOffset..] == [0]
    else |Chosen(st, meta)| == |begun| && Chosen(st, meta)[st.metadataOffset..] == begun[st.metadataOffset..]
  }

  /** The listener also reads the block that was begun, and not one made of two, exactly when the rest is its own. */
  lemma TitleResumed(s: Session, meta: Option<Meta>, answer: int, begun: seq<byte>)
    requires s.st.interval > 0 && Good(s, false) && s.st.metadataOffset > 0
    requires IsBlock(begun) && Part(s.st.interval, s.wire) <= begun
    requires InBounds(s.st, meta) ==> answer >= |Rest(s.st, meta)|
    ensures s.st.metadataOffset <= |begun|
    ensures var n := s.st.interval; var sent := Resume(s.st, meta, answer);
            sent.Some? && ReadsOn(n, s.wire, sent.value) && Blocks(n, s.wire + sent.value) == Blocks(n, s.wire) + [begun] <==>
            GoesOnAs(s.st, meta, begun)
  {
    hide Strip, Blocks, ReadsOn, Residue, Titled;
    var n, part := s.st.interval, Part(s.st.interval, s.wire);
    ResumeCondition(s, meta, answer);
    assert part[0] == begun[0];
    if InBounds(s.st, meta) {
      var rest := Rest(s.st, meta);
      if |part| + |rest| == |begun| {
        assert (part + rest)[0] == part[0];
        AppendBlock(n, s.wire, rest);
        SameRest(part, rest, begun);
        SameLast(Blocks(n, s.wire), part + rest, begun);
      }
    }
  }

  lemma SameLast(blocks: seq<seq<byte>>, x: seq<byte>, y: seq<byte>)
    ensures blocks + [x] == blocks + [y] <==> x == y
  {
    assert (blocks + [x])[|blocks|] == x && (blocks + [y])[|blocks|] == y;
  }

  lemma SameRest(part: seq<byte>, rest: seq<byte>, begun: seq<byte>)
    requires part <= begun && |part| + |rest| == |begun|
    ensures part + rest == begun <==> rest == begun[|part|..]
  {
    assert begun == part + begun[|part|..];
  }

  /** One byte of audio and 20 bytes of a title go out. */
  lemma CutAfter20(a: seq<byte>, c: Call)
    requires |a| == 33 && c == Call([65], Some(Meta(0, a)), Net(0, 1, 20, 0))
    ensures Visit(Fresh(1), c) == Session(Mux(1, 20, 1, true, None), [65] + a[..20], [65])
  {
  }

  /** The rest of a title of that length does. */
  lemma RestOf33(s: Session, b: seq<byte>, c: Call)
    requires s.st == Mux(1, 20, 1, true, None) && |b| == 33 && c == Call([66], Some(Meta(1, b)), Net(13, 0, 0, 0))
    ensures Visit(s, c).wire == s.wire + b[20..] && Visit(s, c).audio == s.audio
  {
  }

  /** A run in which the listener reads one title made of two: both are of one length, and the audio is right. */
  lemma TitlesSpliced(a: seq<byte>, b: seq<byte>, c1: Call, c2: Call)
    requires IsTitle(a) && IsTitle(b) && |a| == |b| == 33
    requires c1 == Call([65], Some(Meta(0, a)), Net(0, 1, 20, 0)) && c2 == Call([66], Some(Meta(1, b)), Net(13, 0, 0, 0))
    ensures Good(Fresh(1), false) && Ready(Fresh(1), c1, false)
    ensures var s1 := Visit(Fresh(1), c1); Good(s1, false) && Ready(s1, c2, false)
    ensures var s2 := Visit(Visit(Fresh(1), c1), c2);
            && Strip(1, s2.wire) == s2.audio && Blocks(1, s2.wire) == [a[..20] + b[20..]]
            && (a[20..] != b[20..] ==> a[..20] + b[20..] != a) && (a[..20] != b[..20] ==> a[..20] + b[20..] != b)
  {
    hide Strip, Blocks, WriteBuf, Visit;
    assert Fresh(1).wire == [] && Blocks(1, []) == [] && Strip(1, []) == [] by { NothingSent(); }
    FreshIsGood(1);
    VisitKeeps(Fresh(1), c1, false);
    CutAfter20(a, c1);
    var s1 := Visit(Fresh(1), c1);
    CutWire(65, a);
    VisitKeeps(s1, c2, false);
    RestOf33(s1, b, c2);
    var s2 := Visit(s1, c2);
    var part := a[..20];
    assert s2.wire == [65] + (part + b[20..]);
    OneFrame(1, [65], part + b[20..]);
    assert (part + b[20..])[..20] == part && (part + b[20..])[20..] == b[20..];
  }

  lemma NothingSent()
    ensures Blocks(1, []) == [] && Strip(1, []) == []
  {
  }

  lemma FreshIsGood(interval: nat)
    requires interval > 0
    ensures Good(Fresh(interval), false)
  {
  }

  lemma CutWire(x: byte, a: seq<byte>)
    requires IsBlock(a) && |a| == 33
    ensures Part(1, [x] + a[..20]) == a[..20]
  {
    var w := [x] + a[..20];
    assert w[1] == a[0] && !HasFrame(1, w) && w[1..] == a[..20];
  }

  /** The offset leaves the block exactly when more has been sent than the block found has, which one that is long enough rules out. */
  lemma OffsetInside(s: Session, meta: Option<Meta>)
    requires s.st.interval > 0 && Good(s, false)
    ensures Overreads(s.st, meta) <==> |Part(s.st.interval, s.wire)| > Found(s.st, meta)
    ensures Part(s.st.interval, s.wire) != [] && Found(s.st, meta) >= BlockSize(Part(s.st.interval, s.wire)[0]) ==> !Overreads(s.st, meta)
  {
    hide Strip, Blocks, Titled;
    var n, r := s.st.interval, Residue(s.st.interval, s.wire);
    assert !HasFrame(n, r) && Part(n, s.wire) == r[RunLength(n, s.wire)..];
  }

  /** A run that overreads: 20 bytes of a long title are sent, then the buffer with the empty title is reached. */
  lemma OverreadHappens(long: seq<byte>, c: Call)
    requires IsTitle(long) && |long| == 33 && c == Call([65], Some(Meta(0, long)), Net(0, 1, 20, 0))
    ensures Good(Fresh(1), true) && Ready(Fresh(1), c, true)
    ensures var s := Visit(Fresh(1), c);
            Good(s, true) && Overreads(s.st, Some(Meta(1, BLANK))) && Overreads(s.st, None)
  {
    VisitKeeps(Fresh(1), c, true);
    var s := Visit(Fresh(1), c);
    assert s.st.metadataOffset == 20 && s.st.inMetadata;
  }

  /** A run in which the condition fails: one buffer ends inside the block, the next one carries a longer title. */
  lemma ResumeFails(long: seq<byte>, c1: Call, c2: Call)
    requires IsTitle(long) && |long| == 33
    requires c1 == Call([65], Some(Meta(0, BLANK)), Net(0, 1, 1, 0)) && c2 == Call([66], Some(Meta(1, long)), Net(32, 0, 0, 0))
    ensures Good(Fresh(1), true) && Ready(Fresh(1), c1, true)
    ensures var s1 := Visit(Fresh(1), c1);
            && Callable(s1.st) && !Overreads(s1.st, c2.meta) && MetaOk(c2.meta)
            && Strip(1, Visit(s1, c2).wire) != Visit(s1, c2).audio
  {
    var s1 := Visit(Fresh(1), c1);
    VisitKeeps(Fresh(1), c1, true);
    assert s1.wire == [65, 1] && s1.audio == [65];
    var s2 := Visit(s1, c2);
    assert s2.audio == [65];
    assert s2.wire == [65, 1] + long[1..];
    assert HasFrame(1, s2.wire) && FrameSize(1, s2.wire) == 18;
    assert |Strip(1, s2.wire[18..])| > 0;
  }
}
