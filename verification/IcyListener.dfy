/** The writer of src/format_mp3.c as it runs, field by field, proved against the functions of IcyMux. */
module IcyListener {
  import opened Octets
  import opened IcyFraming
  import opened IcyMux

  class Listener {
    const interval: nat
    var metadataOffset: nat
    var sinceMetaBlock: nat
    var inMetadata: bool
    var associated: Option<Meta>
    /** Position in the buffer being sent. */
    var pos: nat
    /** Everything the socket has accepted so far. */
    ghost var wire: seq<byte>

    constructor (interval: nat)
      ensures this.interval == interval && State() == Fresh(interval).st && pos == 0 && wire == []
    {
      this.interval := interval;
      metadataOffset, sinceMetaBlock, inMetadata, associated, pos, wire := 0, 0, false, None, 0, [];
    }

    ghost function State(): (st: Mux)
      reads this
    {
      Mux(interval, metadataOffset, sinceMetaBlock, inMetadata, associated)
    }

    /** The socket takes a prefix of `buf`, or nothing. */
    method ClientSend(buf: seq<byte>, answer: int) returns (ret: int)
      modifies `wire
      ensures ret == SendResult(answer, |buf|)
      ensures wire == old(wire) + if ret > 0 then buf[..ret] else []
    {
      ret := if answer > |buf| then |buf| else answer;
      wire := wire + if ret > 0 then buf[..ret] else [];
    }

    /** send_stream_metadata; `overread` when the offset is past the end of the block, so that `meta_len` is negative. */
    method SendStreamMetadata(meta: Option<Meta>, answer: int) returns (overread: bool, ret: nat)
      modifies this
      ensures overread <==> !InBounds(old(State()), meta)
      ensures !overread ==>
                && State() == SendMeta(old(State()), meta, answer).0 && pos == old(pos)
                && wire == old(wire) + SendMeta(old(State()), meta, answer).1 && ret == |SendMeta(old(State()), meta, answer).1|
    {
      var metadata: seq<byte>;
      if meta.Some? && meta != associated {
        if metadataOffset > |meta.value.data| {
          return true, 0;
        }
        metadata := meta.value.data[metadataOffset..];
      } else if meta.Some? {
        metadata := [0];
      } else {
        if metadataOffset > |BLANK| {
          return true, 0;
        }
        metadata := BLANK[metadataOffset..];
      }
      overread := false;
      var sent := ClientSend(metadata, answer);
      if sent == |metadata| {
        associated := meta;
        metadataOffset := 0;
        inMetadata := false;
        sinceMetaBlock := 0;
        ret := sent;
        return;
      }
      if sent > 0 {
        metadataOffset := metadataOffset + sent;
      } else {
        sent := 0;
      }
      inMetadata := true;
      ret := sent;
    }

    /** Send up to `len` bytes of audio from `buf` and move on by what was sent. */
    method SendBytes(buf: seq<byte>, answer: int) returns (ret: int)
      modifies this
      ensures ret == SendResult(answer, |buf|)
      ensures State() == SendAudio(old(State()), buf, answer).0
      ensures wire == old(wire) + SendAudio(old(State()), buf, answer).1 && pos == old(pos) + |SendAudio(old(State()), buf, answer).1|
    {
      ret := ClientSend(buf, answer);
      if ret > 0 {
        sinceMetaBlock := sinceMetaBlock + ret;
        pos := pos + ret;
      }
    }

    /** The last part of a call: audio from `from` on, at most one interval of it after a block. `sofar` was sent since `start`. */
    method WriteRest(data: seq<byte>, from: nat, limit: bool, net: Net, sent: nat, ghost start: seq<byte>, ghost sofar: seq<byte>)
      returns (written: int)
      requires from <= |data| && sent == |sofar| && wire == start + sofar
      modifies this
      ensures var o := WriteTail(old(State()), data, from, limit, sofar, net);
              State() == o.st && wire == start + o.wire && pos == old(pos) + o.used - from && written == o.written
    {
      written := sent;
      var len := |data| - from;
      if limit && len > interval {
        len := interval;
      }
      assert data[from..from] == [];
      if len != 0 {
        var ret := SendBytes(data[from..from + len], net.after);
        if ret > 0 {
          written := written + ret;
        }
        Associative(start, sofar, SendAudio(old(State()), data[from..from + len], net.after).1);
      }
    }

    /** The middle part: audio up to the next block, and the block. */
    method WriteRun(data: seq<byte>, meta: Option<Meta>, net: Net, sent: nat, ghost start: seq<byte>, ghost sofar: seq<byte>)
      returns (written: int)
      requires 0 < interval && sinceMetaBlock <= interval && metadataOffset == 0 && !inMetadata
      requires sent == |sofar| && wire == start + sofar
      modifies this
      ensures var o := WriteAudio(old(State()), data, meta, sofar, net);
              State() == o.st && wire == start + o.wire && pos == old(pos) + o.used && written == o.written
    {
      hide WriteTail, WriteBlock;
      var remaining := interval - sinceMetaBlock;
      if remaining > |data| {
        written := WriteRest(data, 0, false, net, sent, start, sofar);
        return;
      }
      written := sent;
      ghost var before := SendAudio(State(), data[..remaining], net.before).1;
      Associative(start, sofar, before);
      if remaining != 0 {
        var ret := SendBytes(data[..remaining], net.before);
        if ret > 0 {
          written := written + ret;
        }
        if ret < remaining {
          return;
        }
      }
      assert before == data[..remaining];
      written := WriteMeta(data, remaining, meta, net, written, start, sofar + before);
    }

    method WriteMeta(data: seq<byte>, from: nat, meta: Option<Meta>, net: Net, sent: nat, ghost start: seq<byte>, ghost sofar: seq<byte>)
      returns (written: int)
      requires from <= |data| && InBounds(State(), meta)
      requires sent == |sofar| && wire == start + sofar
      modifies this
      ensures var o := WriteBlock(old(State()), data, from, meta, sofar, net);
              State() == o.st && wire == start + o.wire && pos == old(pos) + o.used - from && written == o.written
    {
      var _, ret := SendStreamMetadata(meta, net.block);
      written := sent + ret;
      Associative(start, sofar, SendMeta(old(State()), meta, net.block).1);
      if !inMetadata {
        written := WriteRest(data, from, true, net, written, start, sofar + SendMeta(old(State()), meta, net.block).1);
      }
    }

    /** One call; `overread` when the C code would hand the socket bytes outside the block, after which nothing is known. */
    method WriteBufToClient(refbuf: seq<byte>, meta: Option<Meta>, net: Net) returns (overread: bool, written: int)
      requires pos <= |refbuf| && Callable(State())
      modifies this
      ensures overread <==> Overreads(old(State()), meta)
      ensures !overread ==>
                var o := WriteBuf(old(State()), refbuf[old(pos)..], meta, net).value;
                && State() == o.st && wire == old(wire) + o.wire && pos == old(pos) + o.used && written == o.written
                && Callable(State())
      ensures !overread ==>
                && old(wire) <= wire && old(pos) <= pos && written == |wire| - |old(wire)|
                && GoesOut(old(State()), refbuf[old(pos)..], meta, net, wire[|old(wire)|..], pos - old(pos))
    {
      hide GoesOut;
      var buf := refbuf[pos..];
      overread, written := false, 0;
      if !Overreads(State(), meta) {
        StaysCallable(State(), buf, meta, net);
        WriteSends(State(), buf, meta, net);
      }
      if interval == 0 {
        written := WriteRest(buf, 0, false, net, 0, wire, []);
        return;
      }
      ghost var sofar := [];
      if inMetadata {
        overread, written := SendStreamMetadata(meta, net.resume);
        if overread {
          return;
        }
        sofar := SendMeta(old(State()), meta, net.resume).1;
        if inMetadata {
          return;
        }
      }
      written := WriteRun(buf, meta, net, written, old(wire), sofar);
    }
  }
}
