/**
 The state of one mount and the single steps that change it, on values: the queue with its counts, the sizes, the two
 trees of listeners, and what the proofs need to know of the past. Every step keeps `Ok`.
 */
module MountState {
  import opened Octets
  import opened RefCounts
  import opened StreamSlices

  /** A buffer from the format plugin; a codec may keep a reference to mark it later. */
  datatype NewBuf = NewBuf(data: seq<byte>, sync: bool, codec: Option<nat>)

  /**
   `queue` starts at buffer number `first`; `burst` is the number of the burst point; `holds` has the buffer each codec
   may still mark; `header` is what the format has for every listener, if it has it yet. Of the past: `all` buffers ever appended, the `syncs` among them that were marked as starting points, where
   listeners `joined` and what they were `sent` since, and who is `gone`.
   */
  datatype Core = Core(queue: seq<Buf>, first: nat, burst: nat, queueSize: nat, burstOffset: nat,
                       clients: Tree, pending: Tree, listeners: nat, holds: map<nat, nat>,
                       header: Option<seq<byte>>, all: seq<seq<byte>>, syncs: set<nat>, joined: map<nat, nat>, sent: map<nat, seq<byte>>, gone: set<nat>)

  /** Everything about a listener that does not depend on its mount. */
  predicate ClientOk(c: Client) {
    && c.headerPos <= |c.header| && c.headerSent == c.header[..c.headerPos]
    && (c.phase == Stream <==> c.refbuf.Queued?)
    && (c.phase == Http ==> c.refbuf.Own?)
    && (c.respcode == 0 ==> c.pos == 0) && (c.phase != Http ==> c.respcode == 200)
    && (c.respcode == 0 || c.respcode == 200 || c.error)
    && (c.refbuf.Own? ==> c.pos <= |c.refbuf.data|)
    && if c.phase == Http then Responding(c) else Responded(c)
  }

  /** The response has been sent up to where the listener is in it, and nothing else. */
  predicate Responding(c: Client) {
    && c.headerPos == 0 && c.pos <= |c.response| && c.got == c.response[..c.pos]
    && (c.respcode != 0 ==> c.refbuf == Own(c.response))
  }

  /**
   The whole response has been sent; intro file data only after the whole header. Of the present piece of the intro file
   exactly the part before the listener's place has been sent, and it was sent last; offset 0 means that there is none.
   */
  predicate Responded(c: Client) {
    && c.response <= c.got && (|c.got| > |c.response| ==> c.headerPos == |c.header|)
    && (c.refbuf.Own? ==> if c.introOffset > 0 then PieceSent(c) else c.pos == |c.refbuf.data|)
  }

  predicate PieceSent(c: Client) {
    && c.refbuf.Own? && c.pos <= |c.refbuf.data|
    && |c.response| + c.pos <= |c.got| && c.got[|c.got| - c.pos..] == c.refbuf.data[..c.pos]
  }

  /** What a listener on the queue has been sent: one slice of the stream, from a starting point to where it is now. */
  ghost predicate Delivered(c: Client, all: seq<seq<byte>>, syncs: set<nat>, joined: nat, sent: seq<byte>) {
    c.refbuf.Queued? ==>
      && joined in syncs && joined <= c.refbuf.number < |all| && c.pos <= |all[c.refbuf.number]|
      && sent == Slice(all, joined, c.refbuf.number, c.pos)
      && (sent != [] ==> c.headerPos == |c.header|)
  }

  lemma DeliveredKeeps(c: Client, all: seq<seq<byte>>, more: seq<seq<byte>>, syncs: set<nat>, syncs': set<nat>,
                       joined: nat, sent: seq<byte>)
    requires Delivered(c, all, syncs, joined, sent) && syncs <= syncs'
    ensures Delivered(c, all + more, syncs', joined, sent)
  {
    if c.refbuf.Queued? {
      SliceKeeps(all, more, joined, c.refbuf.number, c.pos);
    }
  }

  function Everyone(clients: Tree, pending: Tree, gone: set<nat>): (ids: set<nat>) {
    clients.Keys + pending.Keys + gone
  }

  /** The queue is what is left of the stream, and the burst point is in it. */
  ghost predicate QueueOk(queue: seq<Buf>, first: nat, burst: nat, all: seq<seq<byte>>, syncs: set<nat>) {
    && |all| == first + |queue|
    && (forall i :: 0 <= i < |queue| ==> queue[i].data == all[first + i])
    && (forall i :: 0 <= i < |queue| && queue[i].sync ==> first + i in syncs)
    && (if queue == [] then burst == first else first <= burst < first + |queue|)
  }

  /** The data of a queue. */
  function Contents(queue: seq<Buf>): (bufs: seq<seq<byte>>) {
    seq(|queue|, i requires 0 <= i < |queue| => queue[i].data)
  }

  lemma QueueAppend(queue: seq<Buf>, first: nat, burst: nat, all: seq<seq<byte>>, syncs: set<nat>, buf: Buf)
    requires QueueOk(queue, first, burst, all, syncs)
    ensures QueueOk(queue + [buf], first, burst, all + [buf.data], syncs + if buf.sync then {|all|} else {})
    ensures burst <= first + |queue| == |all|
  {
  }

  lemma QueueAt(queue: seq<Buf>, first: nat, burst: nat, all: seq<seq<byte>>, syncs: set<nat>)
    requires QueueOk(queue, first, burst, all, syncs)
    ensures |all| == first + |queue| && first <= burst && (burst < |all| ==> queue[burst - first].data == all[burst])
  {
  }

  lemma QueueSame(queue: seq<Buf>, queue': seq<Buf>, first: nat, burst: nat, all: seq<seq<byte>>, syncs: set<nat>)
    requires QueueOk(queue, first, burst, all, syncs) && SameData(queue', queue)
    ensures QueueOk(queue', first, burst, all, syncs)
  {
  }

  lemma QueueAdjust(queue: seq<Buf>, first: nat, burst: nat, all: seq<seq<byte>>, syncs: set<nat>, i: nat, delta: int)
    requires QueueOk(queue, first, burst, all, syncs) && i < |queue| && queue[i].count + delta >= 0
    ensures QueueOk(Adjust(queue, i, delta), first, burst, all, syncs)
  {
  }

  lemma QueueMark(queue: seq<Buf>, first: nat, burst: nat, all: seq<seq<byte>>, syncs: set<nat>, i: nat)
    requires QueueOk(queue, first, burst, all, syncs) && i < |queue|
    ensures QueueOk(queue[i := queue[i].(sync := true)], first, burst, all, syncs + {first + i})
  {
  }

  lemma LawSame(queue: seq<Buf>, queue': seq<Buf>, first: nat, burst: nat, tree: Tree, holds: map<nat, nat>)
    requires Law(queue, first, burst, tree, holds)
    requires |queue'| == |queue| && forall i :: 0 <= i < |queue| ==> queue'[i].count == queue[i].count
    ensures Law(queue', first, burst, tree, holds)
  {
  }

  lemma RefInRange(first: nat, end: nat, tree: Tree, holds: map<nat, nat>, id: nat)
    requires InRange(first, end, tree, holds) && id in tree
    ensures tree[id].refbuf.Queued? ==> first <= tree[id].refbuf.number < end
  {
  }

  lemma HoldInRange(first: nat, end: nat, tree: Tree, holds: map<nat, nat>, k: nat)
    requires InRange(first, end, tree, holds) && k in holds
    ensures first <= holds[k] < end
  {
  }

  lemma QueueBurst(queue: seq<Buf>, first: nat, burst: nat, all: seq<seq<byte>>, syncs: set<nat>)
    requires QueueOk(queue, first, burst, all, syncs) && burst + 1 < |all|
    requires first <= burst < first + |queue| ==> queue[burst - first].count >= 1
    ensures first <= burst < first + |queue| && queue[burst - first].data == all[burst]
    ensures QueueOk(Adjust(queue, burst - first, -1), first, burst + 1, all, syncs)
    ensures SameData(Adjust(queue, burst - first, -1), queue)
  {
  }

  /** The trees are disjoint and every listener is where its record says. */
  ghost predicate ListenersOk(clients: Tree, pending: Tree, gone: set<nat>, all: seq<seq<byte>>, syncs: set<nat>,
                              joined: map<nat, nat>, sent: map<nat, seq<byte>>)
  {
    && clients.Keys !! pending.Keys && clients.Keys !! gone && pending.Keys !! gone
    && (forall id :: id in pending ==> ClientOk(pending[id]) && pending[id].phase != Stream)
    && (forall id :: id in clients ==> ClientOk(clients[id]))
    && clients.Keys <= joined.Keys && clients.Keys <= sent.Keys
    && (forall id :: id in clients ==> Delivered(clients[id], all, syncs, joined[id], sent[id]))
  }

  lemma ListenersKeep(clients: Tree, pending: Tree, gone: set<nat>, all: seq<seq<byte>>, more: seq<seq<byte>>,
                      syncs: set<nat>, syncs': set<nat>, joined: map<nat, nat>, sent: map<nat, seq<byte>>)
    requires ListenersOk(clients, pending, gone, all, syncs, joined, sent) && syncs <= syncs'
    ensures ListenersOk(clients, pending, gone, all + more, syncs', joined, sent)
  {
    forall id | id in clients ensures Delivered(clients[id], all + more, syncs', joined[id], sent[id]) {
      DeliveredKeeps(clients[id], all, more, syncs, syncs', joined[id], sent[id]);
    }
  }

  lemma ListenersPut(clients: Tree, pending: Tree, gone: set<nat>, all: seq<seq<byte>>, syncs: set<nat>,
                     joined: map<nat, nat>, sent: map<nat, seq<byte>>, id: nat, c: Client, j: nat, s: seq<byte>)
    requires ListenersOk(clients, pending, gone, all, syncs, joined, sent) && id in clients
    requires ClientOk(c) && Delivered(c, all, syncs, j, s)
    ensures ListenersOk(clients[id := c], pending, gone, all, syncs, joined[id := j], sent[id := s])
    ensures |clients[id := c]| == |clients|
  {
    assert clients[id := c].Keys == clients.Keys;
  }

  lemma ListenersDrop(clients: Tree, pending: Tree, gone: set<nat>, all: seq<seq<byte>>, syncs: set<nat>,
                      joined: map<nat, nat>, sent: map<nat, seq<byte>>, id: nat)
    requires ListenersOk(clients, pending, gone, all, syncs, joined, sent) && id in clients
    ensures ListenersOk(clients - {id}, pending, gone + {id}, all, syncs, joined, sent)
  {
    hide ClientOk, Delivered;
  }

  lemma ListenersTake(clients: Tree, pending: Tree, gone: set<nat>, all: seq<seq<byte>>, syncs: set<nat>,
                      joined: map<nat, nat>, sent: map<nat, seq<byte>>, id: nat)
    requires ListenersOk(clients, pending, gone, all, syncs, joined, sent) && id in clients
    ensures ListenersOk(clients - {id}, pending, gone, all, syncs, joined, sent)
    ensures ClientOk(clients[id]) && |clients - {id}| == |clients| - 1
  {
    hide ClientOk, Delivered;
    assert (clients - {id}).Keys == clients.Keys - {id};
  }

  lemma ListenersRefuse(clients: Tree, pending: Tree, gone: set<nat>, all: seq<seq<byte>>, syncs: set<nat>,
                        joined: map<nat, nat>, sent: map<nat, seq<byte>>, id: nat)
    requires ListenersOk(clients, pending, gone, all, syncs, joined, sent) && id in pending
    ensures ListenersOk(clients, pending - {id}, gone + {id}, all, syncs, joined, sent)
  {
    hide ClientOk, Delivered;
  }

  lemma EveryoneHas(clients: Tree, pending: Tree, gone: set<nat>)
    ensures pending.Keys <= Everyone(clients, pending, gone)
  {
  }

  lemma EveryoneDrop(clients: Tree, pending: Tree, gone: set<nat>, id: nat)
    requires id in clients
    ensures |clients - {id}| == |clients| - 1
    ensures Everyone(clients - {id}, pending, gone + {id}) == Everyone(clients, pending, gone)
  {
    assert (clients - {id}).Keys == clients.Keys - {id};
  }

  lemma EveryoneRefuse(clients: Tree, pending: Tree, gone: set<nat>, id: nat)
    requires id in pending
    ensures Everyone(clients, pending - {id}, gone + {id}) == Everyone(clients, pending, gone)
  {
    assert (pending - {id}).Keys == pending.Keys - {id};
  }

  lemma EveryoneAdmit(clients: Tree, pending: Tree, gone: set<nat>, id: nat)
    requires id in pending && id !in clients
    ensures |clients[id := pending[id]]| == |clients| + 1
    ensures Everyone(clients[id := pending[id]], pending - {id}, gone) == Everyone(clients, pending, gone)
  {
    assert clients[id := pending[id]].Keys == clients.Keys + {id};
    assert (pending - {id}).Keys == pending.Keys - {id};
  }

  lemma ListenersAdmit(clients: Tree, pending: Tree, gone: set<nat>, all: seq<seq<byte>>, syncs: set<nat>,
                       joined: map<nat, nat>, sent: map<nat, seq<byte>>, id: nat)
    requires ListenersOk(clients, pending, gone, all, syncs, joined, sent) && id in pending
    ensures id !in clients && !pending[id].refbuf.Queued?
    ensures ListenersOk(clients[id := pending[id]], pending - {id}, gone, all, syncs, joined[id := 0], sent[id := []])
  {
    assert ClientOk(pending[id]) && Delivered(pending[id], all, syncs, 0, []);
    hide ClientOk, Delivered;
  }

  lemma ListenersAdd(clients: Tree, pending: Tree, gone: set<nat>, all: seq<seq<byte>>, syncs: set<nat>,
                     joined: map<nat, nat>, sent: map<nat, seq<byte>>, id: nat, c: Client)
    requires ListenersOk(clients, pending, gone, all, syncs, joined, sent)
    requires id !in Everyone(clients, pending, gone) && ClientOk(c) && c.phase != Stream
    ensures ListenersOk(clients, pending[id := c], gone, all, syncs, joined, sent)
    ensures pending[id := c] - {id} == pending && Everyone(clients, pending[id := c], gone) == Everyone(clients, pending, gone) + {id}
  {
  }

  ghost predicate Ok(m: Core) {
    && QueueOk(m.queue, m.first, m.burst, m.all, m.syncs)
    && m.queueSize == Size(m.all, m.first) && m.burstOffset == Size(m.all, m.burst)
    && Law(m.queue, m.first, m.burst, m.clients, m.holds) && InRange(m.first, m.first + |m.queue|, m.clients, m.holds)
    && ListenersOk(m.clients, m.pending, m.gone, m.all, m.syncs, m.joined, m.sent) && m.listeners == |m.clients|
  }

  /** Everybody who ever was on the mount and has not moved to another. */
  function Known(m: Core): (ids: set<nat>) {
    Everyone(m.clients, m.pending, m.gone)
  }

  // ---------- steps on the queue ----------

  /** A new tail, referenced by the queue, by the burst part and maybe by a codec. */
  function Enqueued(m: Core, buf: NewBuf): (m': Core) {
    m.(queue := m.queue + [Buf(buf.data, if buf.codec.Some? then 3 else 2, buf.sync)],
       queueSize := m.queueSize + |buf.data|, burstOffset := m.burstOffset + |buf.data|,
       holds := Kept(m.holds, buf.codec, m.first + |m.queue|),
       all := m.all + [buf.data], syncs := m.syncs + if buf.sync then {|m.all|} else {})
  }

  lemma EnqueuedOk(m: Core, buf: NewBuf)
    requires Ok(m) && (buf.codec.Some? ==> buf.codec.value !in m.holds)
    ensures Ok(Enqueued(m, buf))
  {
    hide Law, InRange, Size, ListenersOk, QueueOk, Kept;
    var m' := Enqueued(m, buf);
    var refbuf := Buf(buf.data, if buf.codec.Some? then 3 else 2, buf.sync);
    QueueAppend(m.queue, m.first, m.burst, m.all, m.syncs, refbuf);
    LawAppend(m.queue, m.first, m.burst, m.clients, m.holds, refbuf, buf.codec);
    SizeAppend(m.all, buf.data, m.first);
    SizeAppend(m.all, buf.data, m.burst);
    ListenersKeep(m.clients, m.pending, m.gone, m.all, [buf.data], m.syncs, m'.syncs, m.joined, m.sent);
  }

  /** The burst point moves on by one buffer and gives back its reference on the one it leaves. */
  ghost function Bursted(m: Core): (m': Core)
    requires Ok(m) && m.burst + 1 < |m.all|
  {
    LawBurst(m.queue, m.first, m.burst, m.clients, m.holds);
    SizeDrop(m.all, m.burst);
    m.(queue := Adjust(m.queue, m.burst - m.first, -1), burst := m.burst + 1,
       burstOffset := m.burstOffset - |m.queue[m.burst - m.first].data|)
  }

  lemma BurstedOk(m: Core)
    requires Ok(m) && m.burst + 1 < |m.all|
    ensures Ok(Bursted(m)) && SameData(Bursted(m).queue, m.queue) && AtLeastTwo(m.queue, m.first, m.burst)
    ensures m.burstOffset >= |m.queue[m.burst - m.first].data|
  {
    hide Law, InRange, Size, ListenersOk, QueueOk;
    QueueAt(m.queue, m.first, m.burst, m.all, m.syncs);
    LawBurst(m.queue, m.first, m.burst, m.clients, m.holds);
    QueueBurst(m.queue, m.first, m.burst, m.all, m.syncs);
    SizeDrop(m.all, m.burst);
  }

  /** A queued buffer is marked as a starting point. */
  function Marked(m: Core, n: nat): (m': Core)
    requires m.first <= n < m.first + |m.queue|
  {
    m.(queue := m.queue[n - m.first := m.queue[n - m.first].(sync := true)], syncs := m.syncs + {n})
  }

  lemma MarkedOk(m: Core, n: nat)
    requires Ok(m) && m.first <= n < m.first + |m.queue|
    ensures Ok(Marked(m, n))
  {
    hide Law, InRange, Size, ListenersOk, QueueOk;
    var m' := Marked(m, n);
    QueueMark(m.queue, m.first, m.burst, m.all, m.syncs, n - m.first);
    LawSame(m.queue, m'.queue, m.first, m.burst, m.clients, m.holds);
    ListenersKeep(m.clients, m.pending, m.gone, m.all, [], m.syncs, m'.syncs, m.joined, m.sent);
    assert m.all + [] == m.all;
  }

  /** A codec lets go of the buffer it kept. */
  ghost function Released(m: Core, k: nat): (m': Core)
    requires Ok(m) && k in m.holds
  {
    LawUnmark(m.queue, m.first, m.burst, m.clients, m.holds, k);
    m.(queue := Adjust(m.queue, m.holds[k] - m.first, -1), holds := m.holds - {k})
  }

  lemma ReleasedOk(m: Core, k: nat)
    requires Ok(m) && k in m.holds
    ensures m.first <= m.holds[k] < m.first + |m.queue| && m.queue[m.holds[k] - m.first].count >= 2 && Ok(Released(m, k))
  {
    hide Law, InRange, Size, ListenersOk, QueueOk;
    HoldInRange(m.first, m.first + |m.queue|, m.clients, m.holds, k);
    LawUnmark(m.queue, m.first, m.burst, m.clients, m.holds, k);
    QueueAdjust(m.queue, m.first, m.burst, m.all, m.syncs, m.holds[k] - m.first, -1);
  }

  /** The head is taken off the queue. */
  function Beheaded(m: Core): (m': Core)
    requires m.queue != [] && m.queueSize >= |m.queue[0].data|
  {
    m.(queue := m.queue[1..], first := m.first + 1, queueSize := m.queueSize - |m.queue[0].data|)
  }

  /** A head with a count of 1 can be taken off; it is neither the burst point nor the tail. */
  lemma BeheadedOk(m: Core)
    requires Ok(m) && m.queue != [] && m.queue[0].count == 1
    ensures m.queueSize >= |m.queue[0].data| && |m.queue| > 1 && m.burst != m.first && Ok(Beheaded(m))
  {
    hide Law, InRange, Size, ListenersOk;
    LawTrim(m.queue, m.first, m.burst, m.clients, m.holds);
    SizeDrop(m.all, m.first);
  }

  // ---------- steps on listeners ----------

  /** Buffer `n` is in the queue and letting go of one reference does not free it. */
  predicate AtLeastTwo(queue: seq<Buf>, first: nat, n: nat) {
    first <= n < first + |queue| && queue[n - first].count >= 2
  }

  /** The record of a listener is replaced; its buffer may change, which is client_set_queue. */
  ghost function PutIn(m: Core, id: nat, c: Client, j: nat, s: seq<byte>): (m': Core)
    requires Ok(m) && id in m.clients && (c.refbuf.Queued? ==> m.first <= c.refbuf.number < m.first + |m.queue|)
  {
    LawSwitch(m.queue, m.first, m.burst, m.clients, m.holds, id, c);
    m.(queue := Switch(m.queue, m.first, m.clients[id].refbuf, c.refbuf),
       clients := m.clients[id := c], joined := m.joined[id := j], sent := m.sent[id := s])
  }

  lemma PutInOk(m: Core, id: nat, c: Client, j: nat, s: seq<byte>)
    requires Ok(m) && id in m.clients && ClientOk(c) && Delivered(c, m.all, m.syncs, j, s)
    requires c.refbuf.Queued? ==> m.first <= c.refbuf.number < m.first + |m.queue|
    ensures Ok(PutIn(m, id, c, j, s)) && SameData(PutIn(m, id, c, j, s).queue, m.queue)
    ensures m.clients[id].refbuf.Queued? ==> AtLeastTwo(m.queue, m.first, m.clients[id].refbuf.number)
  {
    hide Law, InRange, Size, QueueOk, Delivered, ClientOk, ListenersOk, Adjust;
    LawSwitch(m.queue, m.first, m.burst, m.clients, m.holds, id, c);
    RefInRange(m.first, m.first + |m.queue|, m.clients, m.holds, id);
    ListenersPut(m.clients, m.pending, m.gone, m.all, m.syncs, m.joined, m.sent, id, c, j, s);
    QueueSame(m.queue, Switch(m.queue, m.first, m.clients[id].refbuf, c.refbuf), m.first, m.burst, m.all, m.syncs);
  }

  /** A listener leaves the client tree and gives its reference back. */
  ghost function Taken(m: Core, id: nat): (m': Core)
    requires Ok(m) && id in m.clients
  {
    LawDrop(m.queue, m.first, m.burst, m.clients, m.holds, id);
    m.(queue := Switch(m.queue, m.first, m.clients[id].refbuf, Null), clients := m.clients - {id},
       listeners := |m.clients - {id}|)
  }

  lemma TakenOk(m: Core, id: nat)
    requires Ok(m) && id in m.clients
    ensures Ok(Taken(m, id)) && SameData(Taken(m, id).queue, m.queue) && ClientOk(m.clients[id])
    ensures m.clients[id].refbuf.Queued? ==> AtLeastTwo(m.queue, m.first, m.clients[id].refbuf.number)
    ensures Taken(m, id).listeners == m.listeners - 1
  {
    hide Law, InRange, Size, ListenersOk, QueueOk, Adjust;
    RefInRange(m.first, m.first + |m.queue|, m.clients, m.holds, id);
    LawDrop(m.queue, m.first, m.burst, m.clients, m.holds, id);
    QueueSame(m.queue, Switch(m.queue, m.first, m.clients[id].refbuf, Null), m.first, m.burst, m.all, m.syncs);
    ListenersTake(m.clients, m.pending, m.gone, m.all, m.syncs, m.joined, m.sent, id);
  }

  /** It leaves for good. */
  ghost function Freed(m: Core, id: nat): (m': Core)
    requires Ok(m) && id in m.clients
  {
    Taken(m, id).(gone := m.gone + {id})
  }

  lemma FreedOk(m: Core, id: nat)
    requires Ok(m) && id in m.clients
    ensures Ok(Freed(m, id)) && SameData(Freed(m, id).queue, m.queue) && Known(Freed(m, id)) == Known(m)
    ensures m.clients[id].refbuf.Queued? ==> AtLeastTwo(m.queue, m.first, m.clients[id].refbuf.number)
    ensures Freed(m, id).listeners == m.listeners - 1
  {
    hide Law, InRange, Size, ListenersOk, QueueOk, Everyone, Switch;
    TakenOk(m, id);
    ListenersDrop(m.clients, m.pending, m.gone, m.all, m.syncs, m.joined, m.sent, id);
    EveryoneDrop(m.clients, m.pending, m.gone, id);
  }

  /** A pending listener is refused. */
  function Refused(m: Core, id: nat): (m': Core) {
    m.(pending := m.pending - {id}, gone := m.gone + {id})
  }

  lemma RefusedOk(m: Core, id: nat)
    requires Ok(m) && id in m.pending
    ensures Ok(Refused(m, id)) && Known(Refused(m, id)) == Known(m)
  {
    hide Law, InRange, Size, ListenersOk, QueueOk, Everyone;
    ListenersRefuse(m.clients, m.pending, m.gone, m.all, m.syncs, m.joined, m.sent, id);
    EveryoneRefuse(m.clients, m.pending, m.gone, id);
  }

  /** A pending listener is let in. */
  function Admitted(m: Core, id: nat): (m': Core)
    requires id in m.pending
  {
    m.(clients := m.clients[id := m.pending[id]], pending := m.pending - {id}, listeners := m.listeners + 1,
       joined := m.joined[id := 0], sent := m.sent[id := []])
  }

  lemma AdmittedOk(m: Core, id: nat)
    requires Ok(m) && id in m.pending
    ensures Ok(Admitted(m, id)) && Known(Admitted(m, id)) == Known(m)
    ensures id !in m.clients && !m.pending[id].refbuf.Queued?
  {
    hide Ok, Everyone;
    PendingIsNew(m, id);
    AdmittedInOrder(m, id);
    EveryoneAdmit(m.clients, m.pending, m.gone, id);
  }

  lemma PendingIsNew(m: Core, id: nat)
    requires Ok(m) && id in m.pending
    ensures id !in m.clients && !m.pending[id].refbuf.Queued?
  {
    hide Law, InRange, Size, QueueOk, Delivered;
  }

  lemma AdmittedInOrder(m: Core, id: nat)
    requires Ok(m) && id in m.pending && id !in m.clients && !m.pending[id].refbuf.Queued?
    ensures Ok(Admitted(m, id))
  {
    hide Law, InRange, Size, ListenersOk, QueueOk;
    var m' := Admitted(m, id);
    assert ListenersOk(m'.clients, m'.pending, m'.gone, m'.all, m'.syncs, m'.joined, m'.sent) by {
      ListenersAdmit(m.clients, m.pending, m.gone, m.all, m.syncs, m.joined, m.sent, id);
    }
    assert Law(m'.queue, m'.first, m'.burst, m'.clients, m'.holds) && InRange(m'.first, m'.first + |m'.queue|, m'.clients, m'.holds) by {
      LawEnter(m.queue, m.first, m.burst, m.clients, m.holds, id, m.pending[id]);
    }
    assert m'.listeners == |m'.clients| by {
      TreeGrows(m.clients, id, m.pending[id]);
    }
  }

  lemma TreeGrows(tree: Tree, id: nat, c: Client)
    requires id !in tree
    ensures |tree[id := c]| == |tree| + 1
  {
    assert tree[id := c].Keys == tree.Keys + {id};
  }

  /** A new listener, or one from another mount, waits to be let in. */
  lemma ArrivedOk(m: Core, id: nat, c: Client)
    requires Ok(m) && id !in Known(m) && ClientOk(c) && c.phase != Stream
    ensures Ok(m.(pending := m.pending[id := c])) && Known(m.(pending := m.pending[id := c])) == Known(m) + {id}
    ensures m.pending[id := c] - {id} == m.pending
  {
    hide Law, InRange, Size, ListenersOk, QueueOk, Everyone;
    ListenersAdd(m.clients, m.pending, m.gone, m.all, m.syncs, m.joined, m.sent, id, c);
  }

  lemma DepartedOk(m: Core, id: nat)
    requires Ok(m) && id in m.pending
    ensures Ok(m.(pending := m.pending - {id})) && ClientOk(m.pending[id])
  {
    hide Law, InRange, Size, QueueOk, Delivered;
  }

  lemma HeaderOk(m: Core, header: Option<seq<byte>>)
    requires Ok(m)
    ensures Ok(m.(header := header))
  {
    hide Law, InRange, Size, QueueOk, ListenersOk;
  }

  /** Two queues that differ in nothing but their counts. */
  ghost predicate SameData(a: seq<Buf>, b: seq<Buf>) {
    |a| == |b| && forall i :: 0 <= i < |a| ==> a[i].data == b[i].data && a[i].sync == b[i].sync
  }
}
