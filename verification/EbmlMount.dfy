/** A WebM mount: the slicer feeds the queue, and every listener is sent the header before any stream data. */
module EbmlMount {
  import opened Octets
  import opened Ebml
  import opened RefCounts
  import opened StreamSlices
  import opened MountState
  import opened MountChanges
  import opened Sending
  import opened Broadcast

  /** Every starting point of the queue is a Cluster of the input. */
  ghost predicate AtClusters(input: seq<byte>, headerSize: nat, all: seq<seq<byte>>, syncs: set<nat>) {
    forall n :: n in syncs ==> n < |all| && ClusterAt(input, headerSize + Offset(all, n))
  }

  lemma AtClustersLonger(input: seq<byte>, more: seq<byte>, headerSize: nat, all: seq<seq<byte>>, syncs: set<nat>)
    requires AtClusters(input, headerSize, all, syncs)
    ensures AtClusters(input + more, headerSize, all, syncs)
  {
    hide ClusterAt, Offset;
    forall n | n in syncs ensures ClusterAt(input + more, headerSize + Offset(all, n)) {
      ClusterStays(input, more, headerSize + Offset(all, n));
    }
  }

  lemma OffsetStays(all: seq<seq<byte>>, x: seq<byte>, n: nat)
    requires n <= |all|
    ensures Offset(all + [x], n) == Offset(all, n) && (n == |all| ==> Offset(all, n) == |Bytes(all)|)
  {
    assert (all + [x])[..n] == all[..n];
    assert all[..|all|] == all;
  }

  lemma AtClustersMore(input: seq<byte>, headerSize: nat, all: seq<seq<byte>>, buf: Slice, syncs: set<nat>)
    requires AtClusters(input, headerSize, all, syncs)
    requires buf.sync ==> ClusterAt(input, headerSize + |Bytes(all)|)
    ensures AtClusters(input, headerSize, all + [buf.data], syncs + if buf.sync then {|all|} else {})
  {
    hide ClusterAt, Offset, Bytes;
    forall n | n in syncs ensures ClusterAt(input, headerSize + Offset(all + [buf.data], n)) {
      OffsetStays(all, buf.data, n);
    }
    OffsetStays(all, buf.data, |all|);
  }

  /** Until something has been emitted there are no starting points, so it does not matter that the header grows. */
  lemma Rebase(input: seq<byte>, headerSize: nat, headerSize': nat, all: seq<seq<byte>>, syncs: set<nat>)
    requires AtClusters(input, headerSize, all, syncs) && (all != [] ==> headerSize' == headerSize)
    ensures AtClusters(input, headerSize', all, syncs)
  {
    hide ClusterAt, Offset;
  }

  /**
   The starting points of the queue are exactly the buffers that were marked; a marked one that begins at `pending` has not
   been appended yet.
   */
  ghost predicate AsMarked(marks: set<int>, headerSize: nat, all: seq<seq<byte>>, syncs: set<nat>, pending: Option<int>) {
    && (forall n :: n in syncs ==> Begins(headerSize, all, n) in marks && n < |all|)
    && (forall p :: p in marks ==> StartsAt(headerSize, all, syncs, p) || pending == Some(p))
  }

  /** Where in the input buffer `n` begins. */
  ghost function Begins(headerSize: nat, all: seq<seq<byte>>, n: nat): (at: int) {
    if n <= |all| then headerSize + Offset(all, n) else -1
  }

  /** A starting point of the queue begins at `p` of the input. */
  ghost predicate StartsAt(headerSize: nat, all: seq<seq<byte>>, syncs: set<nat>, p: int) {
    exists n :: n in syncs && n < |all| && p == Begins(headerSize, all, n)
  }

  lemma BeginsStays(headerSize: nat, all: seq<seq<byte>>, x: seq<byte>, n: nat)
    requires n <= |all|
    ensures Begins(headerSize, all + [x], n) == Begins(headerSize, all, n)
    ensures n == |all| ==> Begins(headerSize, all, n) == headerSize + |Bytes(all)|
  {
    OffsetStays(all, x, n);
  }

  lemma StartsStay(headerSize: nat, all: seq<seq<byte>>, x: seq<byte>, syncs: set<nat>, more: set<nat>, p: int)
    requires StartsAt(headerSize, all, syncs, p)
    ensures StartsAt(headerSize, all + [x], syncs + more, p)
  {
    hide Begins;
    var n :| n in syncs && n < |all| && p == Begins(headerSize, all, n);
    BeginsStays(headerSize, all, x, n);
    assert n in syncs + more;
  }

  lemma AsMarkedRebase(marks: set<int>, headerSize: nat, headerSize': nat, all: seq<seq<byte>>, syncs: set<nat>, more: Option<int>)
    requires AsMarked(marks, headerSize, all, syncs, None) && (all != [] ==> headerSize' == headerSize)
    ensures AsMarked(marks + (if more.Some? then {more.value} else {}), headerSize', all, syncs, more)
  {
    hide Begins;
    if all == [] {
      assert forall p :: !StartsAt(headerSize, all, syncs, p);
    }
  }

  lemma AsMarkedMore(marks: set<int>, headerSize: nat, all: seq<seq<byte>>, syncs: set<nat>, buf: Slice)
    requires AsMarked(marks, headerSize, all, syncs, if buf.sync then Some(headerSize + |Bytes(all)|) else None)
    requires buf.sync ==> headerSize + |Bytes(all)| in marks
    ensures AsMarked(marks, headerSize, all + [buf.data], syncs + (if buf.sync then {|all|} else {}), None)
  {
    hide Begins, Bytes, StartsAt;
    var all', more := all + [buf.data], if buf.sync then {|all|} else {};
    BeginsStays(headerSize, all, buf.data, |all|);
    forall n | n in syncs + more ensures n < |all'| && Begins(headerSize, all', n) in marks {
      if n in syncs {
        BeginsStays(headerSize, all, buf.data, n);
      }
    }
    forall p | p in marks ensures StartsAt(headerSize, all', syncs + more, p) {
      if StartsAt(headerSize, all, syncs, p) {
        StartsStay(headerSize, all, buf.data, syncs, more, p);
      } else {
        NewStart(headerSize, all, buf.data, syncs);
      }
    }
  }

  lemma NewStart(headerSize: nat, all: seq<seq<byte>>, x: seq<byte>, syncs: set<nat>)
    ensures StartsAt(headerSize, all + [x], syncs + {|all|}, headerSize + |Bytes(all)|)
  {
    hide Begins, Bytes;
    BeginsStays(headerSize, all, x, |all|);
    assert |all| in syncs + {|all|};
  }

  lemma MarkedStarts(marks: set<int>, headerSize: nat, all: seq<seq<byte>>, syncs: set<nat>, p: int)
    requires AsMarked(marks, headerSize, all, syncs, None)
    ensures StartsAt(headerSize, all, syncs, p) <==> p in marks
  {
    hide Begins;
  }

  /** Everybody who has got a response has got the header with it. */
  ghost predicate Headed(clients: Tree, pending: Tree, header: Option<seq<byte>>) {
    && (forall id :: id in clients && clients[id].respcode == 200 ==> header == Some(clients[id].header))
    && (forall id :: id in pending && pending[id].respcode == 200 ==> header == Some(pending[id].header))
  }

  lemma HeadedPass(m: Core, m': Core)
    requires Headed(m.clients, m.pending, m.header) && AllOnward(m, m') && m'.header == m.header && Empty(m'.pending)
    ensures Headed(m'.clients, m'.pending, m'.header)
  {
  }

  /** The bytes of the stream a listener at a Cluster was sent, seen in the input. */
  lemma SeenInInput(input: seq<byte>, header: seq<byte>, emitted: seq<byte>, held: seq<byte>, from: nat, to: nat)
    requires input == header + emitted + held && from <= to <= |emitted|
    ensures input[..|header|] == header && emitted[from..to] == input[|header| + from..|header| + to]
  {
  }

  /** What happens to a mount: somebody connects, or its source thread makes a pass. */
  datatype Event = Connect(response: seq<byte>) | Cycle(chunks: seq<seq<byte>>, net: (nat, nat) -> Answer)

  /** What there is to know of a mount. */
  datatype Moment = Moment(core: Core, input: seq<byte>, nextId: nat, introFile: Option<seq<byte>>, connected: bool)

  /** Why a pass had no buffer for the queue: all that there was has been read, or the header is too large. */
  predicate Exhausted(chunks: seq<seq<byte>>, used: nat, size: nat) {
    used >= |chunks| || chunks[used] == [] || size + |chunks[used]| > HEADER_MAX_SIZE
  }

  /** A pass reads the first `used` chunks and serves everybody; the queue gets one buffer, unless the chunks did not bring one. */
  ghost predicate Cycled(a: Moment, chunks: seq<seq<byte>>, net: (nat, nat) -> Answer, used: nat, b: Moment) {
    && used <= |chunks| && b.input == a.input + Bytes(chunks[..used]) && b.nextId == a.nextId
    && b.introFile == a.introFile && b.connected == a.connected
    && AllTreated(a.core, b.core, StockOf(b.core, b.introFile, b.connected), net)
    && Known(b.core) == Known(a.core) && Empty(b.core.pending) && AllOnward(a.core.(header := b.core.header), b.core)
    && (if b.core.all == a.core.all then Exhausted(chunks, used, |b.input|)
        else exists data :: data != [] && b.core.all == a.core.all + [data])
  }

  ghost predicate Happened(a: Moment, e: Event, b: Moment) {
    match e
    case Connect(response) =>
      && b.core == a.core.(pending := a.core.pending[a.nextId := Source.NewListener(response)])
      && b == Moment(b.core, a.input, a.nextId + 1, a.introFile, a.connected)
    case Cycle(chunks, net) => exists used :: Cycled(a, chunks, net, used, b)
  }

  ghost predicate AllHappened(trace: seq<Moment>, events: seq<Event>) {
    |trace| == |events| + 1 && forall i :: 0 <= i < |events| ==> Happened(trace[i], events[i], trace[i + 1])
  }

  predicate Readable(chunks: seq<seq<byte>>) {
    forall r :: r in chunks ==> |r| <= SLICE_SIZE
  }

  class Mount {
    const slicer: Slicer
    const source: Source
    /** Connection ids are handed out by a counter. */
    var nextId: nat

    ghost predicate Valid()
      reads this, slicer, slicer.buffer, slicer.header, source
    {
      Fed(None)
    }

    /** Between the slicer and the queue: `refbuf` has been emitted but not yet appended. */
    ghost predicate Fed(refbuf: Option<Slice>)
      reads this, slicer, slicer.buffer, slicer.header, source
    {
      && slicer.Ready() && source.Valid()
      && slicer.emitted == Bytes(source.all) + (if refbuf.Some? then refbuf.value.data else [])
      && (source.all != [] || refbuf.Some? ==> slicer.headerRead)
      && AtClusters(slicer.input, slicer.headerSize, source.all, source.syncs)
      && (refbuf.Some? && refbuf.value.sync ==> ClusterAt(slicer.input, slicer.headerSize + |Bytes(source.all)|))
      && AsMarked(slicer.marks, slicer.headerSize, source.all, source.syncs, Pending(refbuf))
      && (refbuf.Some? && refbuf.value.sync ==> slicer.headerSize + |Bytes(source.all)| in slicer.marks)
      && source.header == slicer.sourceHeader && Headed(source.clients, source.pending, source.header)
      && (forall id :: id in Known(source.Now()) ==> id < nextId)
    }

    /** Where a marked buffer begins that is on its way to the queue. */
    ghost function Pending(refbuf: Option<Slice>): (at: Option<int>)
      reads slicer, source
    {
      if refbuf.Some? && refbuf.value.sync then Some(slicer.headerSize + |Bytes(source.all)|) else None
    }

    constructor (mount: string, burstSize: nat, queueSizeLimit: nat, maxListeners: int, introFile: Option<seq<byte>>)
      ensures Valid() && fresh(source) && fresh(slicer) && fresh(slicer.buffer) && fresh(slicer.header) && fresh(slicer.inputBuffer)
    {
      slicer := new Slicer();
      source := new Source(mount, burstSize, queueSizeLimit, maxListeners, None, introFile);
      nextId := 0;
    }

    ghost function Now(): (m: Moment)
      reads this, slicer, source
    {
      Moment(source.Now(), slicer.input, nextId, source.introFile, source.connected)
    }

    method Pull(chunks: seq<seq<byte>>) returns (refbuf: Option<Slice>, ghost used: nat)
      requires Valid() && Readable(chunks)
      modifies slicer, slicer.buffer, slicer.header, slicer.inputBuffer, source`header
      ensures Fed(refbuf) && used <= |chunks| && slicer.input == old(slicer.input) + Bytes(chunks[..used])
      ensures source.Now() == old(source.Now()).(header := source.header) && Known(source.Now()) == old(Known(source.Now()))
      ensures if refbuf.Some? then refbuf.value.data != [] else Exhausted(chunks, used, |slicer.input|)
    {
      hide Slicer.Ready, Ok, Known, AtClusters, ClusterAt, Bytes, AsMarked, StartDue;
      ghost var all, syncs, input, headerSize := source.all, source.syncs, slicer.input, slicer.headerSize;
      ghost var marks := slicer.marks;
      var taken, running;
      refbuf, taken, running := slicer.GetBuffer(chunks);
      used := taken;
      source.SetHeader(slicer.sourceHeader);
      AsMarkedRebase(marks, headerSize, slicer.headerSize, all, syncs, Pending(refbuf));
      Rebase(input, headerSize, slicer.headerSize, all, syncs);
      AtClustersLonger(input, Bytes(chunks[..used]), slicer.headerSize, all, syncs);
    }

    method Push(refbuf: Option<Slice>, net: (nat, nat) -> Answer)
      requires Fed(refbuf)
      modifies source
      ensures Valid() && source.all == old(source.all) + (if refbuf.Some? then [refbuf.value.data] else [])
      ensures Known(source.Now()) == old(Known(source.Now())) && Empty(source.pending) && source.header == old(source.header)
      ensures AllOnward(old(source.Now()), source.Now())
      ensures source.introFile == old(source.introFile) && source.connected == old(source.connected)
      ensures AllTreated(old(source.Now()), source.Now(), source.Stock(), net)
    {
      hide Slicer.Ready, Ok, Known, AtClusters, AllOnward, ClusterAt, Bytes, Headed, Empty, Departed, AsMarked, AllTreated;
      ghost var m := source.Now();
      if refbuf.Some? {
        var slice := refbuf.value;
        AtClustersMore(slicer.input, slicer.headerSize, source.all, slice, source.syncs);
        AsMarkedMore(slicer.marks, slicer.headerSize, source.all, source.syncs, slice);
        BytesAppend(source.all, [slice.data]);
        BytesOne(slice.data);
        source.Pass(Some(NewBuf(slice.data, slice.sync, None)), net);
      } else {
        assert source.all + [] == source.all && source.syncs + {} == source.syncs;
        assert slicer.emitted == Bytes(source.all);
        source.Pass(None, net);
      }
      HeadedPass(m, source.Now());
    }

    /** One pass of the source thread of a WebM mount. */
    method Pass(chunks: seq<seq<byte>>, net: (nat, nat) -> Answer) returns (ghost used: nat)
      requires Valid() && Readable(chunks)
      modifies slicer, slicer.buffer, slicer.header, slicer.inputBuffer, source
      ensures Valid() && Cycled(old(Now()), chunks, net, used, Now())
    {
      hide Fed, Known, AllOnward, AllTreated, Empty, Bytes, Exhausted;
      ghost var m := source.Now();
      ghost var all := source.all;
      var refbuf;
      refbuf, used := Pull(chunks);
      ghost var m' := source.Now();
      Push(refbuf, net);
      AllTreatedSame(m, source.Now(), m', source.Now(), source.Stock(), net);
      Grown(all, refbuf);
    }

    /** The queue has grown exactly if there was a buffer. */
    static lemma Grown(all: seq<seq<byte>>, refbuf: Option<Slice>)
      ensures all + (if refbuf.Some? then [refbuf.value.data] else []) == all <==> refbuf.None?
    {
      if refbuf.Some? {
        assert |all + [refbuf.value.data]| == |all| + 1;
      }
    }

    method Join(response: seq<byte>)
      requires Valid()
      modifies this, source`pending
      ensures Valid() && Happened(old(Now()), Connect(response), Now())
    {
      hide Slicer.Ready, Ok, Known, AtClusters, ClusterAt, Bytes, AsMarked;
      source.AddListener(nextId, response);
      nextId := nextId + 1;
    }

    /** Every run keeps what `Valid` says; `trace` has the states it goes through, each made by its event from the one before. */
    method Run(events: seq<Event>) returns (ghost trace: seq<Moment>)
      requires Valid() && forall e :: e in events && e.Cycle? ==> Readable(e.chunks)
      modifies this, slicer, slicer.buffer, slicer.header, slicer.inputBuffer, source
      ensures Valid() && AllHappened(trace, events) && trace[0] == old(Now()) && trace[|events|] == Now()
    {
      hide Fed, Readable, Happened;
      trace := [Now()];
      for i := 0 to |events|
        invariant Valid() && |trace| == i + 1 && trace[0] == old(Now()) && trace[i] == Now()
        invariant forall k :: 0 <= k < i ==> Happened(trace[k], events[k], trace[k + 1])
      {
        Do(events[i]);
        trace := trace + [Now()];
      }
    }

    method Do(e: Event)
      requires Valid() && (e.Cycle? ==> Readable(e.chunks))
      modifies this, slicer, slicer.buffer, slicer.header, slicer.inputBuffer, source
      ensures Valid() && Happened(old(Now()), e, Now())
    {
      hide Fed, Readable, Cycled;
      match e {
        case Connect(response) =>
          Join(response);
        case Cycle(chunks, net) =>
          ghost var used := Pass(chunks, net);
      }
    }

    /**
     A listener on the queue of a WebM mount is sent the input up to the Cluster that ended the header, all of it before any
     stream data, and then one contiguous slice of the input that starts at a Cluster. That Cluster is the first that was
     seen if and only if the first read does not start with one.
     */
    lemma StartsAtCluster(id: nat)
      requires Valid() && id in source.clients && source.clients[id].phase == Stream
      ensures slicer.headerRead && slicer.headerSize <= |slicer.input|
      ensures source.clients[id].header == slicer.input[..slicer.headerSize]
      ensures source.clients[id].headerPos <= slicer.headerSize
      ensures source.clients[id].headerSent == slicer.input[..source.clients[id].headerPos]
      ensures ClusterAt(slicer.input, slicer.headerSize)
      ensures (forall p :: Seen(slicer.taken, p) ==> slicer.headerSize <= p) <==> !(slicer.taken != [] && Found(slicer.taken[0], 0))
      ensures id in source.joined && id in source.sent && source.joined[id] <= |source.all|
      ensures source.sent[id] != [] ==> source.clients[id].headerSent == slicer.input[..slicer.headerSize]
      ensures var at := slicer.headerSize + Offset(source.all, source.joined[id]);
              && ClusterAt(slicer.input, at) && at + |source.sent[id]| <= |slicer.input|
              && source.sent[id] == slicer.input[at..at + |source.sent[id]|]
    {
      hide Ok, ClusterAt, Bytes, Known, Seen, Found, NoneBefore, AsMarked, Slicer.Starts, Wire;
      source.GapFree(id);
      source.SentInOrder(id);
      slicer.HeaderEnd();
      source.HasResponse(id);
      var from := Offset(source.all, source.joined[id]);
      SeenInInput(slicer.input, slicer.header[..slicer.headerSize], slicer.emitted, slicer.buffer[..slicer.position],
                  from, from + |source.sent[id]|);
    }

    /**
     The queue can be joined exactly where it should be: its starting points are the end of the header and the last Cluster
     found in each read after that, as far as the stream has got.
     */
    lemma StartingPoints(p: int)
      requires Valid() && slicer.headerSize > 0
      ensures StartsAt(slicer.headerSize, source.all, source.syncs, p) <==>
              StartDue(slicer.taken, slicer.headerSize, p) && p < slicer.headerSize + |Bytes(source.all)|
    {
      hide Ok, ClusterAt, Bytes, Known, StartDue, Slicer.Valid, Slicer.Traced, AtClusters, Headed, AsMarked, StartsAt;
      MarkedStarts(slicer.marks, slicer.headerSize, source.all, source.syncs, p);
    }
  }
}
