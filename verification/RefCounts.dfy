/**
 The reference count law of a mount's queue (src/refbuf.c, src/source.c, src/client.c), on values. Buffers are numbered
 in the order in which they were appended; the queue holds those from number `first` on. A listener's `refbuf` is
 no buffer, a buffer of its own (HTTP response or intro file data), or a numbered buffer of the queue.
 */
module RefCounts {
  import opened Octets

  datatype Buf = Buf(data: seq<byte>, count: nat, sync: bool)

  datatype Ref = Null | Own(data: seq<byte>) | Queued(number: nat)

  /** Which function checks a listener's buffer: it is sent its HTTP response, the intro file, or the stream. */
  datatype Phase = Http | File | Stream

  /**
   A listener. `response` is its HTTP response once built; `header` is what the format sends every listener before
   any data (the EBML header; empty for formats that use the generic writer). Two fields record what the socket has
   taken: `headerSent` of the header, `got` of the listener's own buffers, that is the response and the intro file.
   */
  datatype Client = Client(refbuf: Ref, pos: nat, phase: Phase, introOffset: int, respcode: int, error: bool,
                           response: seq<byte>, header: seq<byte>, headerPos: nat, headerSent: seq<byte>, got: seq<byte>)

  type Tree = map<nat, Client>

  /** The listeners of a tree that are at buffer `n`. */
  function Holders(tree: Tree, n: nat): (ids: set<nat>) {
    set id | id in tree && tree[id].refbuf == Queued(n)
  }

  /** The codecs that may still mark buffer `n` as a starting point. */
  function Markers(holds: map<nat, nat>, n: nat): (codecs: set<nat>) {
    set k | k in holds && holds[k] == n
  }

  /** References buffer `n` of a queue should have. */
  function References(n: nat, burst: nat, tree: Tree, holds: map<nat, nat>): (count: nat) {
    1 + (if burst <= n then 1 else 0) + |Holders(tree, n)| + |Markers(holds, n)|
  }

  ghost predicate Law(queue: seq<Buf>, first: nat, burst: nat, tree: Tree, holds: map<nat, nat>) {
    forall i :: 0 <= i < |queue| ==> queue[i].count == References(first + i, burst, tree, holds)
  }

  /** refbuf_addref and refbuf_release on the buffer at index `i`. */
  function Adjust(queue: seq<Buf>, i: nat, delta: int): (queue': seq<Buf>)
    requires i < |queue| && queue[i].count + delta >= 0
    ensures |queue'| == |queue|
    ensures forall j :: 0 <= j < |queue| ==> queue'[j].data == queue[j].data && queue'[j].sync == queue[j].sync
  {
    queue[i := queue[i].(count := queue[i].count + delta)]
  }

  // ---------- how the holders change ----------

  lemma HoldersInsert(tree: Tree, id: nat, c: Client, n: nat)
    requires id !in tree
    ensures |Holders(tree[id := c], n)| == |Holders(tree, n)| + if c.refbuf == Queued(n) then 1 else 0
  {
    assert Holders(tree[id := c], n) == Holders(tree, n) + if c.refbuf == Queued(n) then {id} else {};
  }

  lemma HoldersRemove(tree: Tree, id: nat, n: nat)
    requires id in tree
    ensures |Holders(tree - {id}, n)| == |Holders(tree, n)| - if tree[id].refbuf == Queued(n) then 1 else 0
  {
    HoldersInsert(tree - {id}, id, tree[id], n);
    assert (tree - {id})[id := tree[id]] == tree;
  }

  lemma HoldersUpdate(tree: Tree, id: nat, c: Client, n: nat)
    requires id in tree
    ensures |Holders(tree[id := c], n)| ==
            |Holders(tree, n)| + (if c.refbuf == Queued(n) then 1 else 0) - if tree[id].refbuf == Queued(n) then 1 else 0
  {
    HoldersRemove(tree, id, n);
    HoldersInsert(tree - {id}, id, c, n);
    assert (tree - {id})[id := c] == tree[id := c];
  }

  lemma MarkersInsert(holds: map<nat, nat>, k: nat, at: nat, n: nat)
    requires k !in holds
    ensures |Markers(holds[k := at], n)| == |Markers(holds, n)| + if at == n then 1 else 0
  {
    assert Markers(holds[k := at], n) == Markers(holds, n) + if at == n then {k} else {};
  }

  lemma MarkersRemove(holds: map<nat, nat>, k: nat, n: nat)
    requires k in holds
    ensures |Markers(holds - {k}, n)| == |Markers(holds, n)| - if holds[k] == n then 1 else 0
  {
    MarkersInsert(holds - {k}, k, holds[k], n);
    assert (holds - {k})[k := holds[k]] == holds;
  }

  // ---------- what each step of the source does to the law ----------

  /** Every queued reference is to a buffer that is still in the queue. */
  ghost predicate InRange(first: nat, end: nat, tree: Tree, holds: map<nat, nat>) {
    && (forall id :: id in tree && tree[id].refbuf.Queued? ==> first <= tree[id].refbuf.number < end)
    && (forall k :: k in holds ==> first <= holds[k] < end)
  }

  /** The holds after a new buffer `n`, which a codec may have kept. */
  function Kept(holds: map<nat, nat>, codec: Option<nat>, n: nat): (holds': map<nat, nat>) {
    if codec.Some? then holds[codec.value := n] else holds
  }

  /** A new tail is referenced by the queue and by the burst part, and by a codec that has kept it. */
  lemma LawAppend(queue: seq<Buf>, first: nat, burst: nat, tree: Tree, holds: map<nat, nat>, buf: Buf, codec: Option<nat>)
    requires Law(queue, first, burst, tree, holds) && InRange(first, first + |queue|, tree, holds) && burst <= first + |queue|
    requires codec.Some? ==> codec.value !in holds
    requires buf.count == if codec.Some? then 3 else 2
    ensures Law(queue + [buf], first, burst, tree, Kept(holds, codec, first + |queue|))
    ensures InRange(first, first + |queue + [buf]|, tree, Kept(holds, codec, first + |queue|))
  {
    var n := first + |queue|;
    assert Holders(tree, n) == {} && Markers(holds, n) == {};
    forall m: nat ensures |Markers(Kept(holds, codec, n), m)| == |Markers(holds, m)| + if m == n && codec.Some? then 1 else 0 {
      if codec.Some? {
        MarkersInsert(holds, codec.value, n, m);
      }
    }
  }

  /** The burst point moves on by one buffer and lets go of the one it leaves, which stays in the queue. */
  lemma LawBurst(queue: seq<Buf>, first: nat, burst: nat, tree: Tree, holds: map<nat, nat>)
    requires Law(queue, first, burst, tree, holds) && first <= burst < first + |queue|
    ensures queue[burst - first].count >= 2
    ensures Law(Adjust(queue, burst - first, -1), first, burst + 1, tree, holds)
  {
  }

  /** client_set_queue on the queue's side: take a reference on the new buffer, then let go of the old one. */
  function Switch(queue: seq<Buf>, first: nat, from: Ref, to: Ref): (queue': seq<Buf>)
    requires from.Queued? ==> first <= from.number < first + |queue| && queue[from.number - first].count > 0
    requires to.Queued? ==> first <= to.number < first + |queue|
    ensures |queue'| == |queue|
    ensures forall j :: 0 <= j < |queue| ==> queue'[j].data == queue[j].data && queue'[j].sync == queue[j].sync
  {
    var taken := if to.Queued? then Adjust(queue, to.number - first, 1) else queue;
    if from.Queued? then Adjust(taken, from.number - first, -1) else taken
  }

  /** A listener changes its buffer: no queued buffer is freed by it, and the law goes on to hold. */
  lemma LawSwitch(queue: seq<Buf>, first: nat, burst: nat, tree: Tree, holds: map<nat, nat>, id: nat, c: Client)
    requires Law(queue, first, burst, tree, holds) && InRange(first, first + |queue|, tree, holds) && id in tree
    requires c.refbuf.Queued? ==> first <= c.refbuf.number < first + |queue|
    ensures tree[id].refbuf.Queued? ==> queue[tree[id].refbuf.number - first].count >= 2
    ensures Law(Switch(queue, first, tree[id].refbuf, c.refbuf), first, burst, tree[id := c], holds)
    ensures InRange(first, first + |queue|, tree[id := c], holds)
  {
    if tree[id].refbuf.Queued? {
      HoldersRemove(tree, id, tree[id].refbuf.number);
    }
    forall n: nat
      ensures |Holders(tree[id := c], n)| ==
              |Holders(tree, n)| + (if c.refbuf == Queued(n) then 1 else 0) - if tree[id].refbuf == Queued(n) then 1 else 0
    {
      HoldersUpdate(tree, id, c, n);
    }
  }

  /** A listener that has let go of the queue can be taken out of the tree, and one that is not on it put in. */
  lemma LawLeave(queue: seq<Buf>, first: nat, burst: nat, tree: Tree, holds: map<nat, nat>, id: nat)
    requires Law(queue, first, burst, tree, holds) && InRange(first, first + |queue|, tree, holds)
    requires id in tree && !tree[id].refbuf.Queued?
    ensures Law(queue, first, burst, tree - {id}, holds) && InRange(first, first + |queue|, tree - {id}, holds)
  {
    forall n: nat ensures |Holders(tree - {id}, n)| == |Holders(tree, n)| {
      HoldersRemove(tree, id, n);
    }
  }

  lemma LawEnter(queue: seq<Buf>, first: nat, burst: nat, tree: Tree, holds: map<nat, nat>, id: nat, c: Client)
    requires Law(queue, first, burst, tree, holds) && InRange(first, first + |queue|, tree, holds)
    requires id !in tree && !c.refbuf.Queued?
    ensures Law(queue, first, burst, tree[id := c], holds) && InRange(first, first + |queue|, tree[id := c], holds)
  {
    forall n: nat ensures |Holders(tree[id := c], n)| == |Holders(tree, n)| {
      HoldersInsert(tree, id, c, n);
    }
  }

  /** A codec lets go of the page it kept; the page stays in the queue. */
  lemma LawUnmark(queue: seq<Buf>, first: nat, burst: nat, tree: Tree, holds: map<nat, nat>, k: nat)
    requires Law(queue, first, burst, tree, holds) && InRange(first, first + |queue|, tree, holds) && k in holds
    ensures queue[holds[k] - first].count >= 2
    ensures Law(Adjust(queue, holds[k] - first, -1), first, burst, tree, holds - {k})
    ensures InRange(first, first + |queue|, tree, holds - {k})
  {
    MarkersRemove(holds, k, holds[k]);
    forall n: nat ensures |Markers(holds - {k}, n)| == |Markers(holds, n)| - if holds[k] == n then 1 else 0 {
      MarkersRemove(holds, k, n);
    }
  }

  /**
   The head has a count of 1 exactly when it is outside the burst part and nobody is at it or holds it. So it is not
   the burst point and not the tail: the queue cannot be emptied, and nobody is left with a freed buffer.
   */
  lemma LawTrim(queue: seq<Buf>, first: nat, burst: nat, tree: Tree, holds: map<nat, nat>)
    requires Law(queue, first, burst, tree, holds) && InRange(first, first + |queue|, tree, holds)
    requires first <= burst < first + |queue|
    ensures queue[0].count == 1 <==> first < burst && Holders(tree, first) == {} && Markers(holds, first) == {}
    ensures queue[0].count == 1 ==> |queue| > 1 && burst != first
    ensures queue[0].count == 1 ==> Law(queue[1..], first + 1, burst, tree, holds) && InRange(first + 1, first + |queue|, tree, holds)
  {
    if queue[0].count == 1 {
      assert Holders(tree, first) == {} && Markers(holds, first) == {};
      forall id | id in tree && tree[id].refbuf.Queued? ensures tree[id].refbuf.number != first {
        assert tree[id].refbuf.number == first ==> id in Holders(tree, first);
      }
      forall k | k in holds ensures holds[k] != first {
        assert holds[k] == first ==> k in Markers(holds, first);
      }
    }
  }

  /** A listener that leaves the tree gives its reference back; no queued buffer is freed by it. */
  lemma LawDrop(queue: seq<Buf>, first: nat, burst: nat, tree: Tree, holds: map<nat, nat>, id: nat)
    requires Law(queue, first, burst, tree, holds) && InRange(first, first + |queue|, tree, holds) && id in tree
    ensures tree[id].refbuf.Queued? ==> queue[tree[id].refbuf.number - first].count >= 2
    ensures Law(Switch(queue, first, tree[id].refbuf, Null), first, burst, tree - {id}, holds)
    ensures InRange(first, first + |queue|, tree - {id}, holds)
  {
    var off := tree[id].(refbuf := Null);
    LawSwitch(queue, first, burst, tree, holds, id, off);
    LawLeave(Switch(queue, first, tree[id].refbuf, Null), first, burst, tree[id := off], holds, id);
    assert tree[id := off] - {id} == tree - {id};
  }
}
