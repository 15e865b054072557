/**
 One mount as it runs (src/source.c, src/format.c, src/client.c): the broadcast queue, its listeners and the source
 thread. The queue is kept as a sequence; what the C code reaches through `stream_data`, `burst_point` and
 `refbuf` pointers is named by buffer number.
 */
module Broadcast {
  import opened Octets
  import opened RefCounts
  import opened StreamSlices
  import opened MountState
  import opened Sending
  import opened MountChanges

  const PER_CLIENT_REFBUF_SIZE: nat := 4096
  /** Values of size_t. */
  const SIZE_T: nat := 0x1_0000_0000_0000_0000

  datatype Setup = Setup(burstSize: nat, queueSizeLimit: nat, maxListeners: int, format: nat,
                               header: Option<seq<byte>>, introFile: Option<seq<byte>>)

  /** The settings of a mount and what is known of its source. */
  datatype Conf = Conf(mount: string, burstSize: nat, queueSizeLimit: nat, maxListeners: int, introFile: Option<seq<byte>>,
                       connected: bool, running: bool, onDemand: bool, onDemandReq: bool, format: Option<nat>)

  /** Whether listeners of a mount can be moved to another: it takes listeners and the streams are of the same type. */
  predicate Movable(s: Conf, dest: Conf) {
    && s.mount != dest.mount && (dest.running || dest.onDemand) && (s.onDemand || s.format.Some?)
    && (s.format.Some? && dest.format.Some? ==> s.format == dest.format)
  }

  class Source {
    var queue: seq<Buf>
    /** Number of the head of the queue and of the burst point. */
    var first: nat
    var burst: nat
    var burstSize: nat
    var burstOffset: nat
    var queueSize: nat
    var queueSizeLimit: nat
    var clients: Tree
    var pending: Tree
    var listeners: nat
    var maxListeners: int
    /** The buffer each codec may still mark as a starting point. */
    var holds: map<nat, nat>
    /** What the format sends every listener first, once it has it; empty for formats that send nothing first. */
    var header: Option<seq<byte>>
    var introFile: Option<seq<byte>>
    /** Whether a source client is connected. */
    var connected: bool
    const mount: string
    var running: bool
    var onDemand: bool
    var onDemandReq: bool
    /** The type of the stream, once known. */
    var format: Option<nat>

    /** All buffers ever appended, and the numbers of those marked as starting points. */
    ghost var all: seq<seq<byte>>
    ghost var syncs: set<nat>
    /** For listeners on the queue: the buffer they joined at and what they have been sent since. */
    ghost var joined: map<nat, nat>
    ghost var sent: map<nat, seq<byte>>
    /** Listeners that have left the mount. */
    ghost var gone: set<nat>

    ghost function Now(): (m: Core)
      reads this
    {
      Core(queue, first, burst, queueSize, burstOffset, clients, pending, listeners, holds, header, all, syncs, joined, sent, gone)
    }

    ghost function Settings(): (c: Conf)
      reads this
    {
      Conf(mount, burstSize, queueSizeLimit, maxListeners, introFile, connected, running, onDemand, onDemandReq, format)
    }

    ghost predicate Valid()
      reads this
    {
      Ok(Now())
    }

    // ---------- what the invariant says ----------

    /** The reference count law for the buffer at place `i` of the queue. */
    lemma CountLaw(i: nat)
      requires Valid() && i < |queue|
      ensures var n := first + i;
              queue[i].count == 1 + (if burst <= n then 1 else 0) + |set id | id in clients && clients[id].refbuf == Queued(n)|
                                  + |set k | k in holds && holds[k] == n|
    {
      hide ListenersOk, Size;
      var n := first + i;
      assert Holders(clients, n) == set id | id in clients && clients[id].refbuf == Queued(n);
      assert Markers(holds, n) == set k | k in holds && holds[k] == n;
    }

    /** What a listener on the queue has been sent is one contiguous slice of the stream, starting at a starting point. */
    lemma GapFree(id: nat)
      requires Valid() && id in clients && clients[id].phase == Stream
      ensures clients[id].refbuf.Queued? && id in joined && id in sent && joined[id] in syncs
      ensures joined[id] <= clients[id].refbuf.number < |all|
      ensures var at := Offset(all, clients[id].refbuf.number) + clients[id].pos;
              Offset(all, joined[id]) <= at <= |Bytes(all)| && sent[id] == Bytes(all)[Offset(all, joined[id])..at]
      ensures sent[id] != [] ==> clients[id].headerPos == |clients[id].header|
    {
      hide Law, InRange, Bytes, QueueOk, Size;
      SliceIsContiguous(all, joined[id], clients[id].refbuf.number, clients[id].pos);
    }

    /**
     All that a listener has been sent on this mount, in order: its response, the format's header, intro file data, and
     the stream; each only when the one before is complete, but for the intro file, which is left for the queue at its end.
     */
    lemma SentInOrder(id: nat)
      requires Valid() && id in clients && id in sent
      ensures var c := clients[id];
              && c.headerPos <= |c.header| && c.headerSent == c.header[..c.headerPos]
              && (c.phase == Http ==> c.pos <= |c.response| && Wire(c, sent[id]) == c.response[..c.pos])
              && (c.phase != Http ==> c.response <= c.got && Wire(c, sent[id]) == c.response + c.headerSent + c.got[|c.response|..]
                                                                                  + if c.phase == Stream then sent[id] else [])
              && (c.phase != Http && (c.got != c.response || (c.phase == Stream && sent[id] != [])) ==> c.headerSent == c.header)
    {
      hide Law, InRange, QueueOk, Size, Slice;
      var c := clients[id];
      assert ClientOk(c) && Delivered(c, all, syncs, joined[id], sent[id]);
      assert c.header[..|c.header|] == c.header;
      if c.phase == Http {
        assert c.got[..|c.got|] == c.got && c.got[|c.got|..] == [];
      }
    }

    /** Everybody who ever came to the mount, and has not moved on, is in exactly one place; those in the client tree are counted. */
    lemma OnePlace(id: nat)
      requires Valid() && id in Known(Now())
      ensures if id in clients then id !in pending && id !in gone else (id in pending <==> id !in gone)
      ensures listeners == |clients|
    {
      hide Law, InRange, QueueOk, Size, Delivered, ClientOk;
    }

    lemma HasResponse(id: nat)
      requires Valid() && id in clients
      ensures clients[id].phase == Stream ==> clients[id].respcode == 200
    {
      hide Law, InRange, QueueOk, Size, Delivered;
      assert ClientOk(clients[id]);
    }

    /** The sizes kept are the total lengths of the buffers in the queue and of those from the burst point on. */
    lemma Accounting()
      requires Valid()
      ensures first <= burst <= first + |queue|
      ensures queueSize == |Bytes(Contents(queue))| && burstOffset == |Bytes(Contents(queue[burst - first..]))|
    {
      hide Law, InRange, ListenersOk, Bytes;
      assert Contents(queue) == all[first..];
      assert Contents(queue[burst - first..]) == all[burst..];
    }

    constructor (mount: string, burstSize: nat, queueSizeLimit: nat, maxListeners: int, header: Option<seq<byte>>, introFile: Option<seq<byte>>)
      ensures Valid() && Now() == Core([], 0, 0, 0, 0, map[], map[], 0, map[], header, [], {}, map[], map[], {})
      ensures this.burstSize == burstSize && this.queueSizeLimit == queueSizeLimit
      ensures this.maxListeners == maxListeners && this.introFile == introFile && this.mount == mount
    {
      this.mount, running, onDemand, onDemandReq, format := mount, true, false, false, None;
      queue, first, burst, this.burstSize, burstOffset := [], 0, 0, burstSize, 0;
      queueSize, this.queueSizeLimit, clients, pending, listeners := 0, queueSizeLimit, map[], map[], 0;
      this.maxListeners, holds, this.header, this.introFile, connected := maxListeners, map[], header, introFile, true;
      all, syncs, joined, sent, gone := [], {}, map[], map[], {};
    }

    // ---------- new data ----------

    /** Link a new buffer to the tail; the queue, the burst part and maybe a codec refer to it. */
    method Enqueue(buf: NewBuf)
      requires Valid() && (buf.codec.Some? ==> buf.codec.value !in holds)
      modifies `queue, `queueSize, `burstOffset, `holds, `all, `syncs
      ensures Valid() && Now() == Enqueued(old(Now()), buf)
    {
      hide Ok, Kept;
      EnqueuedOk(Now(), buf);
      LinkTail(buf);
      syncs, all := syncs + (if buf.sync then {|all|} else {}), all + [buf.data];
    }

    method LinkTail(buf: NewBuf)
      modifies `queue, `queueSize, `burstOffset, `holds
      ensures queue == old(queue) + [Buf(buf.data, if buf.codec.Some? then 3 else 2, buf.sync)]
      ensures queueSize == old(queueSize) + |buf.data| && burstOffset == old(burstOffset) + |buf.data|
      ensures holds == Kept(old(holds), buf.codec, first + |old(queue)|)
    {
      hide Kept;
      var refbuf := Buf(buf.data, if buf.codec.Some? then 2 else 1, buf.sync);
      holds := Kept(holds, buf.codec, first + |queue|);
      queueSize := queueSize + |refbuf.data|;
      refbuf := refbuf.(count := refbuf.count + 1);
      burstOffset := burstOffset + |refbuf.data|;
      queue := queue + [refbuf];
    }

    method StepBurst()
      requires Valid() && burst + 1 < |all|
      modifies `queue, `burst, `burstOffset
      ensures Valid() && Now() == Bursted(old(Now())) && SameData(queue, old(queue))
    {
      hide Ok;
      BurstedOk(Now());
      burstOffset := burstOffset - |queue[burst - first].data|;
      queue := Adjust(queue, burst - first, -1);
      burst := burst + 1;
    }

    /** Let the burst point catch up: the burst part keeps to its size unless a single buffer is larger. */
    method ShrinkBurst()
      requires Valid()
      modifies `queue, `burst, `burstOffset
      ensures Valid() && SameData(queue, old(queue)) && old(burst) <= burst
      ensures burstOffset <= burstSize || burst + 1 == |all|
      ensures old(burstOffset) <= burstSize ==> burst == old(burst)
      ensures burst == old(burst) || (old(burst) < burst <= |all| && burstOffset + |all[burst - 1]| > burstSize)
    {
      hide Law, InRange, Size, ListenersOk;
      while burstOffset > burstSize
        invariant Valid() && SameData(queue, old(queue)) && old(burst) <= burst
        invariant old(burstOffset) <= burstSize ==> burst == old(burst)
        invariant burst == old(burst) || (old(burst) < burst <= |all| && burstOffset + |all[burst - 1]| > burstSize)
        decreases |all| - burst
      {
        SizeEmpty(all);
        if burst + 1 == first + |queue| {
          break;
        }
        QueueAt(queue, first, burst, all, syncs);
        StepBurst();
      }
    }

    /** source_main's handling of a new buffer. */
    method Append(buf: NewBuf)
      requires Valid() && (buf.codec.Some? ==> buf.codec.value !in holds)
      modifies `queue, `burst, `queueSize, `burstOffset, `holds, `all, `syncs
      ensures Valid() && all == old(all) + [buf.data] && |queue| == |old(queue)| + 1
      ensures syncs == old(syncs) + if buf.sync then {|old(all)|} else {}
      ensures holds == Kept(old(holds), buf.codec, old(first + |queue|)) && queueSize == old(queueSize) + |buf.data|
      ensures burstOffset <= burstSize || burst + 1 == |all|
      ensures burst == old(burst) || (old(burst) < burst <= |all| && burstOffset + |all[burst - 1]| > burstSize)
    {
      hide Ok, Kept;
      Enqueue(buf);
      ShrinkBurst();
    }

    /** A codec lets go of the buffer it kept, after marking it as a starting point or without. */
    method ReleasePossibleStart(k: nat, mark: bool)
      requires Valid() && k in holds
      modifies `queue, `holds, `syncs
      ensures Valid() && holds == old(holds) - {k} && syncs == old(syncs) + if mark then {old(holds)[k]} else {}
      ensures |queue| == |old(queue)|
    {
      hide Ok, Adjust;
      ReleasedOk(Now(), k);
      var at := holds[k] - first;
      if mark {
        MarkedOk(Now(), holds[k]);
        syncs := syncs + {holds[k]};
        queue := queue[at := queue[at].(sync := true)];
        ReleasedOk(Now(), k);
      }
      Release(k);
    }

    method Release(k: nat)
      requires Valid() && k in holds
      modifies `queue, `holds
      ensures Valid() && Now() == Released(old(Now()), k)
    {
      hide Ok;
      ReleasedOk(Now(), k);
      queue := Adjust(queue, holds[k] - first, -1);
      holds := holds - {k};
    }

    // ---------- one listener ----------

    /**
     Replace the record of a listener. This is client_set_queue when the buffer changes: the new buffer gains a
     reference before the old one loses its own. `j` and `s` say where the listener joined and what it was sent.
     */
    method Put(id: nat, c: Client, ghost j: nat, ghost s: seq<byte>)
      requires Valid() && id in clients && ClientOk(c)
      requires c.refbuf.Queued? ==> first <= c.refbuf.number < first + |queue|
      requires Delivered(c, all, syncs, j, s)
      modifies `queue, `clients, `joined, `sent
      ensures Valid() && Now() == PutIn(old(Now()), id, c, j, s) && SameData(queue, old(queue))
    {
      hide Ok, Delivered, ClientOk;
      PutInOk(Now(), id, c, j, s);
      queue := Switch(queue, first, clients[id].refbuf, c.refbuf);
      clients := clients[id := c];
      joined, sent := joined[id := j], sent[id := s];
    }

    /** The same for a listener that goes on: its place in the stream and what it was sent are kept or extended. */
    method Change(id: nat, c: Client, ghost j: nat, ghost s: seq<byte>)
      requires Valid() && id in clients && ClientOk(c) && id in joined && id in sent
      requires c.refbuf.Queued? ==> first <= c.refbuf.number < first + |queue|
      requires Delivered(c, all, syncs, j, s) && Onward(clients[id], joined[id], sent[id], c, j, s, burst, |all|, header)
      modifies `queue, `clients, `joined, `sent
      ensures Valid() && Served(old(Now()), Now(), id) && SameData(queue, old(queue))
      ensures clients == old(clients)[id := c] && joined == old(joined)[id := j] && sent == old(sent)[id := s]
    {
      hide Ok, ClientOk, Delivered, Onward, Served;
      PutServed(Now(), id, c, j, s);
      Put(id, c, j, s);
    }

    /** Everything the send loop needs to know about the listener at hand. */
    lemma Facts(id: nat)
      requires Valid() && id in clients
      ensures ClientOk(clients[id]) && id in joined && id in sent && Delivered(clients[id], all, syncs, joined[id], sent[id])
      ensures |all| == first + |queue| && first <= burst <= |all| && forall i :: 0 <= i < |queue| ==> queue[i].data == all[first + i]
      ensures queue != [] ==> burst < |all|
      ensures forall i :: 0 <= i < |queue| && queue[i].sync ==> first + i in syncs
      ensures clients[id].refbuf.Queued? ==> first <= clients[id].refbuf.number < first + |queue|
    {
      hide Law, Size, Delivered, ClientOk;
    }

    /** What the mount has for its listeners. */
    ghost function Stock(): (x: Stock)
      reads this
    {
      StockOf(Now(), introFile, connected)
    }

    /** format_advance_queue: go to the next buffer when this one has been sent; -1 when there is nothing to send. */
    method AdvanceQueue(id: nat) returns (rc: int)
      requires Valid() && id in clients
      modifies `queue, `clients, `joined, `sent
      ensures Valid() && id in clients && Served(old(Now()), Now(), id)
      ensures joined == old(joined) && sent == old(sent)
      ensures rc == if old(MoreIn(all, clients[id])) then 0 else -1
      ensures clients[id] == if rc == 0 then old(NextIn(all, clients[id])) else old(clients[id])
      ensures rc == 0 ==> clients[id].phase == Stream && clients[id].respcode != 0
    {
      hide Ok, Bytes, Served, Slice, Wire;
      Start(id);
      Facts(id);
      var c := clients[id];
      if !c.refbuf.Queued? {
        return -1;
      }
      var n := c.refbuf.number;
      var len := |queue[n - first].data|;
      if n + 1 == first + |queue| && c.pos == len {
        return -1;
      }
      if n + 1 < first + |queue| && c.pos == len {
        SliceMovesOn(all, joined[id], n);
        SameWire(c, c.(refbuf := Queued(n + 1), pos := 0), sent[id], sent[id]);
        Change(id, c.(refbuf := Queued(n + 1), pos := 0), joined[id], sent[id]);
        assert joined == old(joined) && sent == old(sent);
      }
      return 0;
    }

    lemma Start(id: nat)
      requires Valid() && id in clients
      ensures Served(Now(), Now(), id)
    {
      hide Ok;
      OkRecorded(Now());
      ServedStart(Now(), id);
    }

    /** Where a listener starts to look for a starting point: the tail, or as far past the burst point as it has been sent. */
    method SearchFrom(introOffset: int) returns (n: nat)
      requires Valid() && queue != []
      ensures burst <= n < |all|
      ensures introOffset == -1 && queue[|queue| - 1].sync ==> n + 1 == |all|
      ensures introOffset == 0 ==> n == burst
    {
      hide Law, InRange, Size, ListenersOk;
      n := burst;
      if introOffset == -1 && queue[|queue| - 1].sync {
        return first + |queue| - 1;
      }
      var size := introOffset % SIZE_T;
      while size > 0 && n + 1 < first + |queue|
        invariant burst <= n < |all| && (introOffset == 0 ==> n == burst && size == 0)
        decreases |all| - n
      {
        size := (size - |queue[n - first].data|) % SIZE_T;
        n := n + 1;
      }
    }

    /** A listener has been put on the queue: at a starting point that is not before the burst point. */
    ghost predicate Joined(before: Client, c: Client)
      reads this
    {
      && c.refbuf.Queued? && c == before.(refbuf := c.refbuf, pos := 0, phase := Stream, introOffset := -1)
      && first <= burst <= c.refbuf.number < first + |queue| && queue[c.refbuf.number - first].sync
    }

    /**
     Where looking for a starting point has brought a listener: with offset 0 to the first one from the burst point on, if
     there is one; one that wants no burst to the tail, if that is one.
     */
    ghost predicate Sought(offset: int, c: Client)
      reads this
    {
      && (offset == 0 ==> forall i :: 0 <= i < |queue| && burst <= first + i && queue[i].sync ==>
                            c.refbuf.Queued? && burst <= c.refbuf.number <= first + i)
      && (offset == -1 && queue != [] && queue[|queue| - 1].sync ==> c.refbuf == Queued(first + |queue| - 1))
    }

    /**
     find_client_start: put a listener that has no buffer at the first starting point from where it looks on. It
     stays without a buffer only when the tail is no starting point.
     */
    method FindClientStart(id: nat)
      requires Valid() && id in clients && clients[id].refbuf == Null && clients[id].phase == File
      modifies `queue, `clients, `joined, `sent
      ensures Valid() && id in clients && Served(old(Now()), Now(), id)
      ensures Joined(old(clients)[id], clients[id]) || clients == old(clients)
      ensures Joined(old(clients)[id], clients[id]) || queue == [] || !queue[|queue| - 1].sync
      ensures Sought(old(clients)[id].introOffset, clients[id]) && |queue| == |old(queue)|
      ensures id in old(sent) && id in sent && Wire(clients[id], sent[id]) == old(Wire(clients[id], sent[id]))
    {
      hide Ok, Bytes, Served, Slice, Wire;
      Start(id);
      Facts(id);
      if queue == [] {
        return;
      }
      var c := clients[id];
      var n := SearchFrom(c.introOffset);
      ghost var from := n;
      while n < first + |queue|
        invariant burst <= n <= |all| && from <= n && (n == |all| ==> !queue[|queue| - 1].sync)
        invariant forall i :: 0 <= i < |queue| && from <= first + i < n ==> !queue[i].sync
      {
        if queue[n - first].sync {
          SliceEmpty(all, n);
          SameWire(c, c.(refbuf := Queued(n), pos := 0, phase := Stream, introOffset := -1), sent[id], []);
          Change(id, c.(refbuf := Queued(n), pos := 0, phase := Stream, introOffset := -1), n, []);
          return;
        }
        n := n + 1;
      }
    }

    /** A listener off the queue stays off it, and nothing is sent. */
    method PutOff(id: nat, c: Client)
      requires Valid() && id in clients && clients[id].phase != Stream && ClientOk(c) && !c.refbuf.Queued?
      requires HeaderKept(clients[id], c, header) && (clients[id].phase != Http ==> c.phase != Http)
      requires c.got == clients[id].got && c.headerSent == clients[id].headerSent && c.response == clients[id].response
      modifies `queue, `clients, `joined, `sent
      ensures Valid() && id in clients && Served(old(Now()), Now(), id) && clients == old(clients)[id := c] && |queue| == |old(queue)|
      ensures sent == old(sent) && id in sent && Wire(c, sent[id]) == old(Wire(clients[id], sent[id]))
    {
      hide Ok, Bytes, Served, Slice, Wire;
      Facts(id);
      SameWire(clients[id], c, sent[id], sent[id]);
      Change(id, c, joined[id], sent[id]);
      assert sent == old(sent);
    }

    /** A listener with nothing left of the intro file lets go of its buffer and looks for a place in the queue. */
    method LeaveIntro(id: nat, c: Client)
      requires Valid() && id in clients && clients[id].phase == File && queue != [] && ClientOk(clients[id])
      requires c == clients[id].(refbuf := Null, pos := 0, introOffset := c.introOffset)
      modifies `queue, `clients, `joined, `sent
      ensures Valid() && id in clients && Served(old(Now()), Now(), id) && queue != [] && clients[id].error == old(clients[id].error)
      ensures id in old(sent) && id in sent && Wire(clients[id], sent[id]) == old(Wire(clients[id], sent[id]))
      ensures (old(Stock()).marked ==> clients[id].phase == Stream) && Sought(c.introOffset, clients[id])
    {
      hide Ok, Served, Delivered, SameData, Wire;
      PutOff(id, c);
      ghost var m := Now();
      FindClientStart(id);
      ServedMore(old(Now()), m, Now(), id);
      ServedStock(old(Now()), Now(), id, introFile, connected);
    }

    /** format_check_file_buffer: intro file data, then a place in the queue. */
    method CheckFileBuffer(id: nat) returns (rc: int)
      requires Valid() && id in clients && clients[id].phase == File
      modifies `queue, `clients, `joined, `sent
      ensures Valid() && id in clients && Served(old(Now()), Now(), id)
      ensures rc == 0 || rc == -1
      ensures id in old(sent) && id in sent && Checked(old(Stock()), old(clients[id]), old(sent[id]), rc, clients[id], sent[id])
      ensures rc == 0 ==> clients[id].refbuf.Own? && clients[id].respcode != 0
      ensures clients[id].error == old(clients[id].error)
      ensures rc == -1 && queue != [] ==>
                Sought(old(if clients[id].refbuf == Null && !connected then 0 else clients[id].introOffset), clients[id])
      ensures old(clients[id].refbuf != Null && queue == []) && rc == -1 ==> clients[id] == old(clients)[id].(introOffset := 0)
    {
      hide Ok, Served, Delivered, SameData, Wire, FileData;
      Facts(id);
      var c := clients[id];
      if c.refbuf == Null {
        if connected {
          FindClientStart(id);
          ServedStock(old(Now()), Now(), id, introFile, connected);
          return -1;
        }
        c := c.(refbuf := Own(seq(PER_CLIENT_REFBUF_SIZE, _ => 0)), pos := PER_CLIENT_REFBUF_SIZE, introOffset := 0);
      }
      if c.pos == |c.refbuf.data| {
        var bytes := FileData(introFile, c.introOffset);
        if bytes != [] {
          c := c.(refbuf := Own(bytes), pos := 0, introOffset := c.introOffset + |bytes|);
        } else if queue != [] {
          LeaveIntro(id, c.(refbuf := Null, pos := 0));
          return -1;
        } else {
          PutOff(id, c.(introOffset := 0));
          return -1;
        }
      }
      PutOff(id, c);
      return 0;
    }

    /** The bytes of the response, which is built when it is first needed. */
    static function ResponseData(c: Client): (data: seq<byte>) {
      if c.respcode == 0 then c.response else if c.refbuf.Own? then c.refbuf.data else []
    }

    /** format_check_http_buffer: the response, then on to the intro file. */
    method CheckHttpBuffer(id: nat) returns (rc: int)
      requires Valid() && id in clients && clients[id].phase == Http && !clients[id].error
      modifies `queue, `clients, `joined, `sent
      ensures Valid() && id in clients && Served(old(Now()), Now(), id)
      ensures rc == 0 || rc == -1
      ensures id in old(sent) && id in sent && Checked(old(Stock()), old(clients[id]), old(sent[id]), rc, clients[id], sent[id])
      ensures rc == 0 ==> clients[id].refbuf.Own? && clients[id].respcode != 0
      ensures !clients[id].refbuf.Queued?
      ensures old(clients[id].respcode == 0 && header == None) ==> rc == -1 && clients[id].error && clients[id].respcode == 500
      ensures old(clients[id].respcode != 0 || header != None) ==> !clients[id].error && clients[id].respcode == 200
      ensures old(clients[id].respcode != 0 || header != None) ==>
                rc == if old(clients[id].pos == |ResponseData(clients[id])|) then -1 else 0
      ensures rc == 0 ==> clients[id].phase == Http && clients[id].refbuf == Own(old(ResponseData(clients[id]))) && clients[id].pos == old(clients[id].pos)
      ensures rc == -1 && !clients[id].error ==>
                clients[id].phase == File && clients[id].introOffset == 0 && clients[id].refbuf.Own? && clients[id].pos == |clients[id].refbuf.data|
    {
      hide Ok, Served, Delivered, Wire;
      Facts(id);
      var c := clients[id];
      if c.respcode == 0 {
        if header == None {
          PutOff(id, c.(refbuf := Own(c.response), respcode := 500, error := true));
          return -1;
        }
        c := c.(refbuf := Own(c.response), respcode := 200, header := header.value, headerPos := 0);
      }
      if c.pos == |c.refbuf.data| {
        PutOff(id, c.(phase := File, introOffset := 0, pos := PER_CLIENT_REFBUF_SIZE,
                      refbuf := Own(seq(PER_CLIENT_REFBUF_SIZE, _ => 0))));
        return -1;
      }
      PutOff(id, c);
      return 0;
    }

    function BufferData(c: Client): (data: seq<byte>)
      requires c.refbuf != Null && (c.refbuf.Queued? ==> first <= c.refbuf.number < first + |queue|)
      reads this
    {
      if c.refbuf.Own? then c.refbuf.data else queue[c.refbuf.number - first].data
    }

    /**
     The write function: the format's header first (in slices), then what is left of the buffer. What the socket takes of
     that is, and nothing else, what the listener has been sent more.
     */
    method WriteToClient(id: nat, a: Answer) returns (bytes: int)
      requires Valid() && id in clients && clients[id].refbuf != Null && clients[id].respcode != 0
      modifies `queue, `clients, `joined, `sent
      ensures Valid() && id in clients && Served(old(Now()), Now(), id) && joined == old(joined)
      ensures old(Sendable(all, clients[id])) && bytes == SendResult(a.ret, |old(Offer(all, clients[id]))|)
      ensures clients[id] == AfterSend(old(clients)[id], Accepted(a.ret, old(Offer(all, clients[id]))), a.died)
      ensures id in old(sent) && id in sent
              && Wire(clients[id], sent[id]) == old(Wire(clients[id], sent[id])) + Accepted(a.ret, old(Offer(all, clients[id])))
    {
      hide Ok, Bytes, Served, Slice, Wire;
      Facts(id);
      var c := clients[id];
      var data := BufferData(c);
      var buf := data[c.pos..];
      if c.phase != Http && c.headerPos != |c.header| {
        var len := if |c.header| - c.headerPos < EBML_SLICE_SIZE then |c.header| - c.headerPos else EBML_SLICE_SIZE;
        buf := c.header[c.headerPos..c.headerPos + len];
      }
      bytes := SendResult(a.ret, |buf|);
      var taken := if bytes > 0 then buf[..bytes] else [];
      assert taken == Accepted(a.ret, Offer(all, c));
      SendGrows(all, syncs, c, joined[id], sent[id], taken, a.died);
      SendOnward(c, joined[id], sent[id], taken, a.died, burst, |all|, header);
      Change(id, AfterSend(c, taken, a.died), joined[id], SentAfter(c, sent[id], taken));
      assert joined == old(joined);
    }

    method CheckBuffer(id: nat) returns (rc: int)
      requires Valid() && id in clients && !clients[id].error
      modifies `queue, `clients, `joined, `sent
      ensures Valid() && id in clients && Served(old(Now()), Now(), id)
      ensures id in old(sent) && id in sent && Checked(old(Stock()), old(clients[id]), old(sent[id]), rc, clients[id], sent[id])
      ensures rc >= 0 ==> clients[id].refbuf != Null && clients[id].respcode != 0
      ensures rc < 0 ==> rc == -1
      ensures clients[id].error ==> rc == -1 && old(clients[id].respcode == 0 && header == None)
    {
      hide Ok, Served, Delivered, Wire;
      Facts(id);
      match clients[id].phase {
        case Http => rc := CheckHttpBuffer(id);
        case File => rc := CheckFileBuffer(id);
        case Stream =>
          rc := AdvanceQueue(id);
          SameWire(old(clients[id]), clients[id], old(sent[id]), sent[id]);
      }
      Facts(id);
    }

    /**
     One turn of the send loop; the result is positive when there may be more to send. Exactly the bytes that were due
     and that the socket took have been sent; with nothing due a listener may go on to the intro file or the queue.
     */
    method Turn(id: nat, a: Answer) returns (bytes: int)
      requires Valid() && id in clients && !clients[id].error
      modifies `queue, `clients, `joined, `sent
      ensures Valid() && id in clients && Served(old(Now()), Now(), id)
      ensures id in old(sent) && id in sent && Turned(old(Stock()), old(clients[id]), old(sent[id]), a, bytes, clients[id], sent[id])
      ensures clients[id].error ==> a.died || old(clients[id].respcode == 0 && header == None)
    {
      hide Ok, Served, Wire, Turned, Checked, Offer, Ready;
      bytes := CheckBuffer(id);
      ghost var rc, m := bytes, Now();
      if bytes >= 0 {
        bytes := WriteToClient(id, a);
        ServedMore(old(Now()), m, Now(), id);
      }
      TurnOf(old(Stock()), old(clients[id]), old(sent[id]), rc, m.clients[id], m.sent[id], a, bytes, clients[id], sent[id]);
    }

    method MarkError(id: nat)
      requires Valid() && id in clients
      modifies `queue, `clients, `joined, `sent
      ensures Valid() && id in clients && clients[id] == old(clients)[id].(error := true) && Served(old(Now()), Now(), id)
      ensures sent == old(sent)
    {
      hide Ok, Served, Slice, Wire;
      Facts(id);
      SameWire(clients[id], clients[id].(error := true), sent[id], sent[id]);
      Change(id, clients[id].(error := true), joined[id], sent[id]);
      assert sent == old(sent);
    }

    /**
     send_to_listener: up to ten turns of checking the buffer and writing. What is due and the socket takes is sent in the
     first turn; a socket that takes everything gets all there is, or ten pieces, or more than 20000 bytes. With
     `deletionExpected` a listener still at the head of the queue afterwards is marked for removal; otherwise only one whose
     connection has failed, whose time is up or for whom there is no header is.
     */
    method SendToListener(id: nat, deletionExpected: bool, net: (nat, nat) -> Answer)
      requires Valid() && id in clients
      modifies `queue, `clients, `joined, `sent
      ensures Valid() && id in clients && Served(old(Now()), Now(), id)
      ensures id in old(sent) && id in sent && Progress(id, old(Stock()), old(clients[id]), old(sent[id]), clients[id], sent[id], net)
      ensures Grew(id, old(Stock()).all, old(clients[id]), old(sent[id]), sent[id], net)
      ensures deletionExpected && !clients[id].error ==> clients[id].refbuf != Queued(first)
      ensures clients[id].error ==> MayGo(id, old(clients)[id], net, deletionExpected, first, header)
    {
      hide Ok, Served, Lost, Progress, Grew, Delivered;
      StreamQueued(id);
      Facts(id);
      SendLoop(id, net);
      ghost var m := Now();
      ServedGrew(id, old(Now()), m, old(Stock()), net);
      if deletionExpected && clients[id].refbuf == Queued(first) {
        ServedNumber(old(Now()), m, id);
        ProgressMarked(id, old(Stock()), old(clients[id]), old(sent[id]), clients[id], sent[id], net);
        MarkError(id);
        ServedMore(old(Now()), m, Now(), id);
      }
    }

    lemma BeforeLoop(id: nat, net: (nat, nat) -> Answer)
      requires Valid() && id in clients
      ensures id in sent && Looping(id, Stock(), clients[id], sent[id], clients[id], sent[id], net, 0, 0)
    {
      hide Ok, Looping, Delivered, StockOf;
      Facts(id);
      LoopStart(id, Stock(), clients[id], sent[id], net);
    }

    method SendLoop(id: nat, net: (nat, nat) -> Answer)
      requires Valid() && id in clients
      modifies `queue, `clients, `joined, `sent
      ensures Valid() && id in clients && Served(old(Now()), Now(), id)
      ensures id in old(sent) && id in sent && Progress(id, old(Stock()), old(clients[id]), old(sent[id]), clients[id], sent[id], net)
      ensures clients[id].error ==> Lost(id, old(clients)[id], net, header)
    {
      hide Ok, Served, Lost, Looping, Progress, Turned, SameData, StockOf;
      Start(id);
      ghost var start, x := Now(), Stock();
      LostBy(id, start.clients[id], net, header, 0);
      BeforeLoop(id, net);
      var loop := 10;
      var totalWritten := 0;
      while true
        invariant Valid() && id in clients && id in sent && Served(start, Now(), id) && 0 <= loop <= 10 && totalWritten >= 0
        invariant clients[id].error ==> Lost(id, start.clients[id], net, header)
        invariant Looping(id, x, start.clients[id], start.sent[id], clients[id], sent[id], net, 10 - loop, totalWritten)
        invariant loop == 10 ==> totalWritten == 0
        decreases loop
      {
        ghost var m := Now();
        var a := net(id, 10 - loop);
        ServedRespcode(start, m, id);
        LostBy(id, start.clients[id], net, header, 10 - loop);
        if a.timeUp {
          LoopTime(id, x, start.clients[id], start.sent[id], clients[id], sent[id], net, 10 - loop, totalWritten);
          MarkError(id);
          ServedMore(start, m, Now(), id);
        }
        if clients[id].error || totalWritten > 20000 || loop == 0 {
          LoopEnd(id, x, start.clients[id], start.sent[id], clients[id], sent[id], net, 10 - loop, totalWritten);
          return;
        }
        m := Now();
        ServedStock(start, m, id, introFile, connected);
        loop := loop - 1;
        var bytes := Turn(id, a);
        ServedMore(start, m, Now(), id);
        ServedPhase(m, Now(), id);
        LoopTurn(id, x, start.clients[id], start.sent[id], m.clients[id], m.sent[id], net, 9 - loop, totalWritten, bytes, clients[id], sent[id]);
        if bytes <= 0 {
          return;
        }
        totalWritten := totalWritten + bytes;
      }
    }

    lemma StreamQueued(id: nat)
      requires Valid() && id in clients
      ensures clients[id].refbuf.Queued? <==> clients[id].phase == Stream
    {
      hide Law, InRange, QueueOk, Size, Delivered;
    }

    // ---------- coming and going ----------

    /** Take a listener out of the client tree for good; its reference is given back. */
    method FreeClient(id: nat)
      requires Valid() && id in clients
      modifies `queue, `clients, `listeners, `gone
      ensures Valid() && Now() == Freed(old(Now()), id) && SameData(queue, old(queue)) && Known(Now()) == old(Known(Now()))
      ensures listeners == old(listeners) - 1
    {
      hide Ok, Everyone, SameData, Switch;
      FreedOk(Now(), id);
      queue := Switch(queue, first, clients[id].refbuf, Null);
      clients := clients - {id};
      listeners := listeners - 1;
      gone := gone + {id};
    }

    /** Refuse a pending listener. */
    method FreePending(id: nat)
      requires Valid() && id in pending
      modifies `pending, `gone
      ensures Valid() && Now() == Refused(old(Now()), id) && Known(Now()) == old(Known(Now()))
    {
      hide Ok, Everyone;
      RefusedOk(Now(), id);
      pending := pending - {id};
      gone := gone + {id};
    }

    /** Let a pending listener in. */
    method Admit(id: nat)
      requires Valid() && id in pending
      modifies `clients, `pending, `listeners, `joined, `sent
      ensures Valid() && Now() == Admitted(old(Now()), id) && Known(Now()) == old(Known(Now()))
      ensures id !in old(clients) && !old(pending)[id].refbuf.Queued?
    {
      hide Ok, Everyone;
      AdmittedOk(Now(), id);
      joined, sent := joined[id := 0], sent[id := []];
      clients := clients[id := pending[id]];
      pending := pending - {id};
      listeners := listeners + 1;
    }

    /** Somebody waits to be let in: a new listener or one from another mount. */
    method Receive(id: nat, c: Client)
      requires Valid() && id !in Known(Now()) && ClientOk(c) && c.phase != Stream
      modifies `pending
      ensures Valid() && pending == old(pending)[id := c] && Known(Now()) == old(Known(Now())) + {id}
    {
      hide Ok, Everyone;
      ArrivedOk(Now(), id, c);
      pending := pending[id := c];
    }

    /** The record of a new listener: a buffer of its own for the response, which is not built yet. */
    static function NewListener(response: seq<byte>): (c: Client) {
      Client(Own(seq(PER_CLIENT_REFBUF_SIZE, _ => 0)), 0, Http, 0, 0, false, response, [], 0, [], [])
    }

    /** A new listener is put on the pending tree. */
    method AddListener(id: nat, response: seq<byte>)
      requires Valid() && id !in Known(Now())
      modifies `pending
      ensures Valid() && pending == old(pending)[id := NewListener(response)] && Known(Now()) == old(Known(Now())) + {id}
    {
      hide Ok, Known;
      Receive(id, NewListener(response));
    }

    /** The format has got hold of the header it sends every listener. */
    method SetHeader(header: Option<seq<byte>>)
      requires Valid()
      modifies `header
      ensures Valid() && Now() == old(Now()).(header := header) && Known(Now()) == old(Known(Now()))
    {
      hide Ok;
      HeaderOk(Now(), header);
      this.header := header;
    }

    /** The limit on listeners, -1 for none; it is compared as an unsigned number. */
    predicate Full()
      reads this
    {
      IsFull(listeners, maxListeners)
    }

    /** source_main's admission: every pending listener is let in or, when the mount is full, dropped. */
    method AdmitPending()
      requires Valid()
      modifies `clients, `pending, `listeners, `joined, `sent, `gone
      ensures Valid() && Empty(pending) && Known(Now()) == old(Known(Now()))
      ensures maxListeners >= 0 ==> listeners <= old(listeners) || listeners <= maxListeners
      ensures Admission(old(clients), old(pending), clients, pending, maxListeners == -1)
      ensures Undisturbed(old(clients), old(joined), old(sent), joined, sent) && SentUntouched(old(pending), old(sent), sent)
      ensures 0 <= maxListeners <= listeners || AllIn(old(clients), old(pending), clients, map[])
    {
      hide Ok, Known, Recorded, Left, Admitting;
      OkRecorded(Now());
      AdmittingStart(Now(), maxListeners);
      while pending != map[]
        invariant Valid() && Admitting(old(Now()), Now(), maxListeners)
        decreases |pending|
      {
        assert pending.Keys != {};
        var id :| id in pending;
        ghost var m := Now();
        RemoveShrinks(pending, id);
        if Full() {
          FreePending(id);
          AdmittingRefuse(old(Now()), m, maxListeners, id);
        } else {
          Admit(id);
          AdmittingAccept(old(Now()), m, maxListeners, id);
        }
      }
      AdmittingEnd(old(Now()), Now(), maxListeners);
    }

    // ---------- reducing the queue ----------

    /**
     source_main's trim loop. The branch that reports "queue state is unexpected" is never taken, every buffer removed
     had no other reference left, and the head that stays is still needed.
     */
    method Trim()
      requires Valid()
      modifies `queue, `first, `queueSize
      ensures Valid() && old(first) <= first && Trimmed(old(queue), old(first), queue, first)
      ensures listeners == |clients| && |all| == first + |queue|
      ensures old(queue) != [] ==> queue != [] && (first == burst || !Deserted(clients, first) || !Unmarked(holds, first))
    {
      hide Ok, Deserted, Unmarked, Recorded, Left;
      OkRecorded(Now());
      if queue == [] {
        return;
      }
      while queue[0].count == 1
        invariant Valid() && old(first) <= first && Trimmed(old(queue), old(first), queue, first) && queue != []
        decreases |queue|
      {
        BeheadedOk(Now());
        if |queue| == 1 || burst == first {
          assert false;
        }
        queueSize := queueSize - |queue[0].data|;
        queue := queue[1..];
        first := first + 1;
      }
      Needed(Now());
      OkRecorded(Now());
    }

    // ---------- one pass of the source thread ----------

    /** One listener of the client tree: send to it, and drop it when its connection has failed or it is too slow. */
    method Serve(id: nat, removeFromQ: bool, net: (nat, nat) -> Answer)
      requires Valid() && id in clients
      modifies `queue, `clients, `listeners, `joined, `sent, `gone
      ensures Valid() && Stock() == old(Stock()) && RoundStep(old(Now()), Now(), id, removeFromQ, old(Stock()), net)
    {
      hide Ok, MayGo, SameData, Served, AllOnward, Recorded, Everyone, Switch, Progress, Grew, StockOf;
      OkRecorded(Now());
      AllOnwardStart(Now());
      SendToListener(id, removeFromQ, net);
      ghost var m := Now();
      ServedOthers(old(Now()), m, id);
      ServedStock(old(Now()), m, id, introFile, connected);
      AllOnwardServe(old(Now()), m, id);
      if clients[id].error {
        FreeClient(id);
        SameDataTwice(old(queue), m.queue, queue);
        SameStock(m, Now(), introFile, connected);
        AllOnwardDrop(old(Now()), m, Now(), id);
      }
    }

    /** source_main's loop over the client tree. */
    method ServeAll(removeFromQ: bool, net: (nat, nat) -> Answer)
      requires Valid()
      modifies `queue, `clients, `listeners, `joined, `sent, `gone
      ensures Valid() && Known(Now()) == old(Known(Now())) && SameData(queue, old(queue)) && AllOnward(old(Now()), Now())
      ensures clients.Keys <= old(clients.Keys) && listeners <= old(listeners)
      ensures removeFromQ ==> Deserted(clients, first)
      ensures Departed(old(Now()), clients, net, removeFromQ) && forall x :: x in clients ==> !clients[x].error
      ensures AllTreated(old(Now()), Now(), old(Stock()), net)
    {
      hide Ok, Known, ServedUpTo, SameData, AllOnward, Recorded, Left, Deserted, Departed, AllTreated, StockOf, RoundStep;
      OkRecorded(Now());
      ghost var x := Stock();
      ServedUpToStart(Now(), removeFromQ, x, net);
      var todo := clients.Keys;
      while todo != {}
        invariant Valid() && todo <= clients.Keys && ServedUpTo(old(Now()), Now(), todo, removeFromQ, x, net) && Stock() == x
        decreases todo
      {
        var id :| id in todo;
        ghost var m := Now();
        ServedUpToStill(old(Now()), m, todo, id, removeFromQ, x, net);
        Serve(id, removeFromQ, net);
        ServedUpToNext(old(Now()), m, Now(), todo, id, removeFromQ, x, net);
        todo := todo - {id};
      }
      ServedUpToEnd(old(Now()), Now(), removeFromQ, x, net);
    }

    /** Everybody is served, then the pending are let in; after a pass over the limit nobody is at the head of the queue. */
    method ServeAndAdmit(removeFromQ: bool, net: (nat, nat) -> Answer)
      requires Valid()
      modifies `queue, `clients, `pending, `listeners, `joined, `sent, `gone
      ensures Valid() && Known(Now()) == old(Known(Now())) && Empty(pending) && AllOnward(old(Now()), Now())
      ensures maxListeners >= 0 ==> listeners <= old(listeners) || listeners <= maxListeners
      ensures |queue| == |old(queue)| && (removeFromQ ==> Deserted(clients, first))
      ensures Departed(old(Now()), clients, net, removeFromQ)
      ensures AllTreated(old(Now()), Now(), old(Stock()), net) && Stock() == old(Stock())
    {
      hide Ok, Empty, SameData, Known, Admission, Deserted, AllOnward, Recorded, Undisturbed, Left, Departed, AllTreated, SentUntouched, StockOf;
      OkRecorded(Now());
      ServeAll(removeFromQ, net);
      ghost var m := Now();
      SameDataTwice(old(queue), queue, queue);
      SameStock(old(Now()), m, introFile, connected);
      AdmitPending();
      SameStock(m, Now(), introFile, connected);
      AllTreatedAdmit(old(Now()), m, Now(), old(Stock()), net, maxListeners == -1);
      AllOnwardAdmit(old(Now()), m, Now(), maxListeners == -1);
      AdmissionHolders(m.clients, m.pending, clients, pending, maxListeners == -1, first);
      DepartedAdmit(old(Now()), m, clients, pending, net, removeFromQ, maxListeners == -1);
    }

    /**
     The part of a pass that holds both tree locks: serve everybody, admit the pending, reduce the queue. When the queue
     was over its limit and nothing but listeners could be at its head, the head goes.
     */
    method ClientPhase(removeFromQ: bool, net: (nat, nat) -> Answer)
      requires Valid()
      modifies `queue, `first, `queueSize, `clients, `pending, `listeners, `joined, `sent, `gone
      ensures Valid() && Known(Now()) == old(Known(Now())) && Empty(pending) && AllOnward(old(Now()), Now())
      ensures maxListeners >= 0 ==> listeners <= old(listeners) || listeners <= maxListeners
      ensures listeners == |clients| && |all| == first + |queue|
      ensures old(first) <= first && (old(queue) != [] ==> queue != [])
      ensures old(queue) != [] && removeFromQ && old(first) < burst && Unmarked(holds, old(first)) ==> old(first) < first
      ensures Departed(old(Now()), clients, net, removeFromQ)
      ensures AllTreated(old(Now()), Now(), old(Stock()), net) && Stock() == old(Stock())
    {
      hide Ok, Empty, Everyone, Deserted, Unmarked, Trimmed, AllOnward, Departed, AllTreated, StockOf;
      ServeAndAdmit(removeFromQ, net);
      ghost var m := Now();
      Trim();
      TrimmedStock(m, Now(), introFile, connected);
      AllTreatedSame(old(Now()), Now(), old(Now()), m, old(Stock()), net);
      AllOnwardSame(old(Now()), Now(), old(Now()), m);
    }

    /** The first part of a pass: what get_next_buffer has brought, if anything, is appended. */
    method Take(buf: Option<NewBuf>)
      requires Valid() && (buf.Some? && buf.value.codec.Some? ==> buf.value.codec.value !in holds)
      modifies `queue, `burst, `queueSize, `burstOffset, `holds, `all, `syncs
      ensures Valid() && all == old(all) + (if buf.Some? then [buf.value.data] else [])
      ensures |queue| == |old(queue)| + (if buf.Some? then 1 else 0) && |all| == first + |queue|
      ensures syncs == old(syncs) + if buf.Some? && buf.value.sync then {|old(all)|} else {}
      ensures buf.Some? ==> burstOffset <= burstSize || burst + 1 == |all|
      ensures queueSize == old(queueSize) + Added(buf) && (first < burst ==> queue != [])
    {
      hide Ok, Kept, Recorded, Left;
      OkRecorded(Now());
      if buf.Some? {
        Append(buf.value);
      }
      BurstInQueue(Now());
    }

    /** The bytes a pass adds to the queue. */
    static function Added(buf: Option<NewBuf>): (n: nat) {
      if buf.Some? then |buf.value.data| else 0
    }

    /**
     One pass of source_main. The sizes and counts are those of the queue after it, the limit on listeners is kept,
     everybody who was there has been served with the new buffer in the queue, everybody who stays has only gone on, and a queue over its limit does not get longer unless its head is in the
     burst part or kept by a codec.
     */
    method Pass(buf: Option<NewBuf>, net: (nat, nat) -> Answer)
      requires Valid() && (buf.Some? && buf.value.codec.Some? ==> buf.value.codec.value !in holds)
      modifies `queue, `first, `burst, `burstOffset, `queueSize, `clients, `pending, `listeners, `holds
      modifies `all, `syncs, `joined, `sent, `gone
      ensures Valid() && Known(Now()) == old(Known(Now())) && Empty(pending) && AllOnward(old(Now()), Now())
      ensures all == old(all) + if buf.Some? then [buf.value.data] else []
      ensures syncs == old(syncs) + if buf.Some? && buf.value.sync then {|old(all)|} else {}
      ensures listeners == |clients| && (maxListeners >= 0 ==> listeners <= old(listeners) || listeners <= maxListeners)
      ensures buf.Some? ==> queue != [] && (burstOffset <= burstSize || burst + 1 == |all|)
      ensures old(first) <= first
      ensures Departed(old(Now()), clients, net, old(queueSize) + Added(buf) > queueSizeLimit)
      ensures AllTreated(old(Now()), Now(), Stock(), net)
      ensures old(queueSize) + Added(buf) > queueSizeLimit && old(first) < burst && Unmarked(holds, old(first)) ==> |queue| <= |old(queue)|
    {
      hide Ok, Empty, SameData, Everyone, Unmarked, AllOnward, Recorded, Kept, Left, Departed, AllTreated, StockOf;
      Take(buf);
      var removeFromQ := queueSize > queueSizeLimit;
      ghost var m := Now();
      ClientPhase(removeFromQ, net);
      PassSame(old(Now()), m, Now(), Stock(), net, removeFromQ);
    }

    // ---------- moving listeners to another mount ----------

    /** Take a listener off the client tree without ending it; its reference is given back. */
    method TakeClient(id: nat) returns (c: Client)
      requires Valid() && id in clients
      modifies `queue, `clients, `listeners
      ensures Valid() && c == old(clients)[id] && ClientOk(c) && clients == old(clients) - {id}
    {
      hide Ok, SameData, ClientOk;
      TakenOk(Now(), id);
      c := clients[id];
      queue := Switch(queue, first, clients[id].refbuf, Null);
      clients := clients - {id};
      listeners := listeners - 1;
    }

    method TakePending(id: nat) returns (c: Client)
      requires Valid() && id in pending
      modifies `pending
      ensures Valid() && c == old(pending)[id] && ClientOk(c) && pending == old(pending) - {id}
    {
      hide Ok, ClientOk;
      DepartedOk(Now(), id);
      c := pending[id];
      pending := pending - {id};
    }

    /** Everybody on the pending tree goes over, one by one. */
    method MovePending(dest: Source)
      requires this != dest && Valid() && dest.Valid() && Apart(pending, Known(dest.Now()))
      modifies `pending, dest`pending
      ensures Valid() && dest.Valid() && Empty(pending)
      ensures MovedOver(old(pending), pending, old(dest.pending), dest.pending, connected, old(Known(dest.Now())), Known(dest.Now()))
    {
      hide Ok, MovedOver, Apart, Everyone, ClientOk;
      EveryoneHas(dest.clients, dest.pending, dest.gone);
      MovedStart(pending, dest.pending, connected, Known(dest.Now()));
      while pending != map[]
        invariant Valid() && dest.Valid()
        invariant MovedOver(old(pending), pending, old(dest.pending), dest.pending, connected, old(Known(dest.Now())), Known(dest.Now()))
        decreases |pending|
      {
        assert pending.Keys != {};
        var id :| id in pending;
        MovedNext(old(pending), pending, old(dest.pending), dest.pending, connected, old(Known(dest.Now())), Known(dest.Now()), id);
        MovedStep(old(pending), pending, old(dest.pending), dest.pending, connected, old(Known(dest.Now())), Known(dest.Now()), id);
        var c := TakePending(id);
        MovedOk(c, connected);
        dest.Receive(id, Moved(c, connected));
      }
    }

    /** The same for the client tree. */
    method MoveClientTree(dest: Source)
      requires this != dest && Valid() && dest.Valid() && Apart(clients, Known(dest.Now()))
      modifies `queue, `clients, `listeners, dest`pending
      ensures Valid() && dest.Valid() && Empty(clients)
      ensures MovedOver(old(clients), clients, old(dest.pending), dest.pending, connected, old(Known(dest.Now())), Known(dest.Now()))
    {
      hide Ok, MovedOver, Apart, Everyone, ClientOk;
      EveryoneHas(dest.clients, dest.pending, dest.gone);
      MovedStart(clients, dest.pending, connected, Known(dest.Now()));
      while clients != map[]
        invariant Valid() && dest.Valid()
        invariant MovedOver(old(clients), clients, old(dest.pending), dest.pending, connected, old(Known(dest.Now())), Known(dest.Now()))
        decreases |clients|
      {
        assert clients.Keys != {};
        var id :| id in clients;
        MovedNext(old(clients), clients, old(dest.pending), dest.pending, connected, old(Known(dest.Now())), Known(dest.Now()), id);
        MovedStep(old(clients), clients, old(dest.pending), dest.pending, connected, old(Known(dest.Now())), Known(dest.Now()), id);
        var c := TakeClient(id);
        MovedOk(c, connected);
        dest.Receive(id, Moved(c, connected));
      }
    }

    /** Whether source_move_clients does anything. */
    predicate CanMoveTo(dest: Source)
      reads this, dest
      ensures CanMoveTo(dest) == Movable(Settings(), dest.Settings())
    {
      && mount != dest.mount && (dest.running || dest.onDemand) && (onDemand || format.Some?)
      && (format.Some? && dest.format.Some? ==> format == dest.format)
    }

    method CheckMove(dest: Source) returns (able: bool)
      ensures able == CanMoveTo(dest) && (able ==> dest.running || dest.onDemand)
    {
      if mount == dest.mount {
        return false;
      }
      if !dest.running && !dest.onDemand {
        return false;
      }
      if !onDemand && format == None {
        return false;
      }
      if format.Some? && dest.format.Some? && format != dest.format {
        return false;
      }
      return true;
    }

    /** Both trees, pending listeners first. */
    method MoveTrees(dest: Source)
      requires this != dest && Valid() && dest.Valid()
      requires Apart(clients, Known(dest.Now())) && Apart(pending, Known(dest.Now()))
      modifies `queue, `clients, `pending, `listeners, dest`pending
      ensures Valid() && dest.Valid() && Empty(clients) && Empty(pending)
      ensures Transferred(old(clients), old(pending), old(dest.pending), dest.pending, connected, old(Known(dest.Now())), Known(dest.Now()))
    {
      hide Ok, Empty, MovedOver, Apart, Everyone, ClientOk, Transferred, Left, Recorded;
      OkRecorded(Now());
      ghost var d0, k0 := dest.pending, Known(dest.Now());
      MovePending(dest);
      ghost var d1, k1 := dest.pending, Known(dest.Now());
      ApartNext(old(Now()), pending, d0, d1, connected, k0, k1);
      MoveClientTree(dest);
      TransferDone(old(clients), clients, old(pending), pending, d0, d1, dest.pending, connected, k0, k1, Known(dest.Now()));
    }

    /**
     source_move_clients. Everybody arrives at the destination exactly once, nobody with a buffer of the queue that was
     left, and both mounts stay as they should be.
     */
    method MoveClients(dest: Source)
      requires this != dest && Valid() && dest.Valid()
      requires Apart(clients, Known(dest.Now())) && Apart(pending, Known(dest.Now()))
      modifies `queue, `clients, `pending, `listeners, dest`pending, dest`onDemandReq
      ensures Valid() && dest.Valid()
      ensures !old(CanMoveTo(dest)) ==> Now() == old(Now()) && dest.Now() == old(dest.Now())
      ensures old(CanMoveTo(dest)) ==> Empty(clients) && Empty(pending) && listeners == 0
      ensures old(CanMoveTo(dest)) ==> Transferred(old(clients), old(pending), old(dest.pending), dest.pending, connected,
                                               old(Known(dest.Now())), Known(dest.Now()))
      ensures dest.onDemandReq == old(dest.onDemandReq || (CanMoveTo(dest) && !dest.running && |clients| + |pending| > 0))
    {
      hide Ok, Empty, Apart, Everyone, Transferred, Known, CanMoveTo, Recorded, Left;
      var able := CheckMove(dest);
      if !able {
        return;
      }
      var count := |pending| + |clients|;
      MoveTrees(dest);
      OkRecorded(Now());
      EmptyCount(clients);
      listeners := 0;
      if !dest.running && dest.onDemand && count > 0 {
        dest.onDemandReq := true;
      }
    }

    /** A source connects to the mount with its settings; what the mount already has stays as it is. */
    method Configure(s: Setup)
      requires Valid()
      modifies `connected, `format, `burstSize, `queueSizeLimit, `maxListeners, `introFile, `header
      ensures Valid() && Now() == old(Now()).(header := s.header) && Known(Now()) == old(Known(Now()))
      ensures connected && format == Some(s.format) && introFile == s.introFile
      ensures maxListeners == s.maxListeners && burstSize == s.burstSize && queueSizeLimit == s.queueSizeLimit
    {
      hide Ok, Known;
      Adopt(s);
      SetHeader(s.header);
    }

    method Adopt(s: Setup)
      modifies `connected, `format, `burstSize, `queueSizeLimit, `maxListeners, `introFile
      ensures maxListeners == s.maxListeners && burstSize == s.burstSize && queueSizeLimit == s.queueSizeLimit
      ensures connected && format == Some(s.format) && introFile == s.introFile
    {
      connected, format, burstSize, queueSizeLimit := true, Some(s.format), s.burstSize, s.queueSizeLimit;
      maxListeners, introFile := s.maxListeners, s.introFile;
    }

    // ---------- the end of a source ----------

    /** The last part of source_clear_source: every buffer loses the references it still has and is freed. */
    method FreeQueue()
      requires Valid() && Empty(clients) && holds == map[]
      modifies `queue, `first, `burst, `burstOffset, `queueSize
      ensures Valid() && queue == [] && queueSize == 0 && burstOffset == 0 && Known(Now()) == old(Known(Now()))
    {
      hide ListenersOk, Size;
      AllRefs(queue, first, burst);
      SizeEmpty(all);
      ghost var end := first + |queue|;
      while queue != []
        invariant first + |queue| == end && first <= end
        invariant forall i :: 0 <= i < |queue| ==> queue[i].count == if burst <= first + i then 2 else 1
        decreases |queue|
      {
        var p := queue[0];
        while p.count > 1
          invariant 1 <= p.count <= 2
          decreases p.count
        {
          p := p.(count := p.count - 1);
        }
        queue := queue[1..];
        first := first + 1;
      }
      burst, burstOffset, queueSize := first, 0, 0;
    }

    method FreeClients()
      requires Valid()
      modifies `queue, `clients, `listeners, `gone
      ensures Valid() && Known(Now()) == old(Known(Now())) && Empty(clients)
    {
      hide Ok, SameData, Everyone, Switch;
      while clients != map[]
        invariant Valid() && Known(Now()) == old(Known(Now()))
        decreases |clients|
      {
        assert clients.Keys != {};
        var id :| id in clients;
        RemoveShrinks(clients, id);
        FreeClient(id);
      }
    }

    method FreeAllPending()
      requires Valid()
      modifies `pending, `gone
      ensures Valid() && Known(Now()) == old(Known(Now())) && Empty(pending)
    {
      hide Ok, Everyone;
      while pending != map[]
        invariant Valid() && Known(Now()) == old(Known(Now()))
        decreases |pending|
      {
        assert pending.Keys != {};
        var id :| id in pending;
        RemoveShrinks(pending, id);
        FreePending(id);
      }
    }

    /** The format plugin is freed: its codecs let go of the buffers they kept. */
    method FreePlugin()
      requires Valid()
      modifies `queue, `holds, `syncs
      ensures Valid() && holds == map[] && Known(Now()) == old(Known(Now()))
    {
      hide Ok;
      while holds != map[]
        invariant Valid() && Known(Now()) == old(Known(Now()))
        decreases |holds|
      {
        assert holds.Keys != {};
        var k :| k in holds;
        assert (holds - {k}).Keys == holds.Keys - {k};
        ReleasePossibleStart(k, false);
      }
    }

    /** The part of source_clear_source that ends listeners, codecs and queue. */
    method Drain()
      requires Valid()
      modifies `queue, `first, `burst, `burstOffset, `queueSize, `clients, `pending, `listeners, `holds, `syncs, `gone
      ensures Valid() && queue == [] && Empty(clients) && Empty(pending) && holds == map[]
      ensures gone == old(Known(Now())) == Known(Now()) && listeners == 0 && queueSize == 0 && burstOffset == 0
    {
      hide Ok, Empty, Known;
      FreeClients();
      FreeAllPending();
      FreePlugin();
      FreeQueue();
      NobodyLeft(Now());
    }

    /** The settings are those of a mount without a source. */
    method Reset()
      requires Valid()
      modifies `connected, `format, `header, `burstSize, `queueSizeLimit, `maxListeners, `introFile, `onDemandReq
      ensures Valid() && Known(Now()) == old(Known(Now()))
      ensures maxListeners == -1 && burstSize == 0 && queueSizeLimit == 0
      ensures !connected && format == None && header == None && introFile == None && !onDemandReq
    {
      hide Ok, Known;
      ForgetSettings();
      SetHeader(None);
    }

    method ForgetSettings()
      modifies `connected, `format, `burstSize, `queueSizeLimit, `maxListeners, `introFile, `onDemandReq
      ensures maxListeners == -1 && burstSize == 0 && queueSizeLimit == 0 && !connected && format == None && introFile == None && !onDemandReq
    {
      connected, format, burstSize, queueSizeLimit, maxListeners, introFile := false, None, 0, 0, -1, None;
      onDemandReq := false;
    }

    /**
     source_clear_source: everybody still there is freed, the codecs let go, the queue is emptied, and the settings are
     those of a mount without a source.
     */
    method ClearSource()
      requires Valid()
      modifies this
      ensures Valid() && queue == [] && Empty(clients) && Empty(pending) && holds == map[]
      ensures gone == old(Known(Now())) == Known(Now()) && listeners == 0 && queueSize == 0 && burstOffset == 0
      ensures maxListeners == -1 && burstSize == 0 && queueSizeLimit == 0
      ensures !connected && format == None && header == None && introFile == None && !onDemandReq
      ensures all == old(all) && running == old(running) && onDemand == old(onDemand)
    {
      hide Ok, Empty, Known;
      Drain();
      Reset();
    }
  }
}
