/** How a pass of the source thread, or a move to another mount, changes the listeners of a mount, on values. */
module MountChanges {
  import opened Octets
  import opened RefCounts
  import opened StreamSlices
  import opened MountState
  import opened Sending

  // ---------- admission ----------

  /** Listeners only move from the pending to the client tree, with their records; `open` mounts turn nobody away. */
  ghost predicate Admission(clients0: Tree, pending0: Tree, clients: Tree, pending: Tree, open: bool) {
    && clients0.Keys <= clients.Keys <= clients0.Keys + pending0.Keys && pending.Keys <= pending0.Keys
    && (forall id :: id in clients0 ==> clients[id] == clients0[id])
    && (forall id :: id in pending ==> pending[id] == pending0[id])
    && (forall id :: id in clients && id !in clients0 ==> clients[id] == pending0[id] && !clients[id].refbuf.Queued?)
    && (open ==> clients.Keys + pending.Keys == clients0.Keys + pending0.Keys)
  }

  lemma AdmissionRefuse(clients0: Tree, pending0: Tree, clients: Tree, pending: Tree, id: nat)
    requires Admission(clients0, pending0, clients, pending, false) && id in pending
    ensures Admission(clients0, pending0, clients, pending - {id}, false)
  {
  }

  lemma AdmissionAccept(clients0: Tree, pending0: Tree, clients: Tree, pending: Tree, open: bool, id: nat)
    requires Admission(clients0, pending0, clients, pending, open) && id in pending && id !in clients
    requires !pending[id].refbuf.Queued?
    ensures Admission(clients0, pending0, clients[id := pending[id]], pending - {id}, open)
  {
    var clients', pending' := clients[id := pending[id]], pending - {id};
    assert clients'.Keys == clients.Keys + {id} && pending'.Keys == pending.Keys - {id};
    assert id in pending0 && id !in clients0;
  }

  /** Nobody has been turned away. */
  ghost predicate AllIn(clients0: Tree, pending0: Tree, clients: Tree, pending: Tree) {
    clients.Keys + pending.Keys == clients0.Keys + pending0.Keys
  }

  lemma AllInAccept(clients0: Tree, pending0: Tree, clients: Tree, pending: Tree, id: nat)
    requires AllIn(clients0, pending0, clients, pending) && id in pending
    ensures AllIn(clients0, pending0, clients[id := pending[id]], pending - {id})
  {
    assert clients[id := pending[id]].Keys + (pending - {id}).Keys == clients.Keys + pending.Keys;
  }

  lemma AdmissionHolders(clients0: Tree, pending0: Tree, clients: Tree, pending: Tree, open: bool, n: nat)
    requires Admission(clients0, pending0, clients, pending, open)
    ensures Deserted(clients0, n) ==> Deserted(clients, n)
  {
  }

  /** What is known about the listeners of a tree stays as it was. */
  ghost predicate Undisturbed(clients: Tree, joined0: map<nat, nat>, sent0: map<nat, seq<byte>>,
                              joined: map<nat, nat>, sent: map<nat, seq<byte>>)
  {
    forall id :: id in clients ==>
      id in joined0 && id in joined && id in sent0 && id in sent && joined[id] == joined0[id] && sent[id] == sent0[id]
  }

  lemma UndisturbedAdmit(clients0: Tree, pending0: Tree, clients: Tree, pending: Tree, open: bool, joined0: map<nat, nat>,
                         sent0: map<nat, seq<byte>>, joined: map<nat, nat>, sent: map<nat, seq<byte>>, id: nat)
    requires Admission(clients0, pending0, clients, pending, open) && id !in clients
    requires Undisturbed(clients0, joined0, sent0, joined, sent)
    ensures Undisturbed(clients0, joined0, sent0, joined[id := 0], sent[id := []])
  {
  }

  /** So does what has been sent to everybody who does not wait to be let in, whether they are still there or not. */
  ghost predicate SentUntouched(pending: Tree, sent0: map<nat, seq<byte>>, sent: map<nat, seq<byte>>) {
    forall id :: id in sent0 && id !in pending ==> id in sent && sent[id] == sent0[id]
  }

  predicate IsFull(listeners: nat, maxListeners: int)
    ensures IsFull(listeners, maxListeners) <==> 0 <= maxListeners <= listeners
  {
    maxListeners != -1 && maxListeners >= 0 && listeners >= maxListeners
  }

  /** Admission from `m` on has come to `m'`. */
  ghost predicate Admitting(m: Core, m': Core, maxListeners: int) {
    && Known(m') == Known(m) && (maxListeners >= 0 ==> m'.listeners <= m.listeners || m'.listeners <= maxListeners)
    && Admission(m.clients, m.pending, m'.clients, m'.pending, maxListeners == -1)
    && Undisturbed(m.clients, m.joined, m.sent, m'.joined, m'.sent) && SentUntouched(m.pending, m.sent, m'.sent)
    && (IsFull(m'.listeners, maxListeners) || AllIn(m.clients, m.pending, m'.clients, m'.pending))
  }

  lemma AdmittingStart(m: Core, maxListeners: int)
    requires Recorded(m)
    ensures Admitting(m, m, maxListeners)
  {
  }

  lemma AdmittingRefuse(m: Core, m': Core, maxListeners: int, id: nat)
    requires Admitting(m, m', maxListeners) && id in m'.pending && IsFull(m'.listeners, maxListeners)
    requires Known(Refused(m', id)) == Known(m')
    ensures Admitting(m, Refused(m', id), maxListeners)
  {
    hide Known, Admission, Undisturbed, AllIn, SentUntouched;
    AdmissionRefuse(m.clients, m.pending, m'.clients, m'.pending, id);
  }

  lemma AdmittingAccept(m: Core, m': Core, maxListeners: int, id: nat)
    requires Admitting(m, m', maxListeners) && id in m'.pending && !IsFull(m'.listeners, maxListeners)
    requires id !in m'.clients && !m'.pending[id].refbuf.Queued? && Known(Admitted(m', id)) == Known(m')
    ensures Admitting(m, Admitted(m', id), maxListeners)
  {
    hide Known, Admission, Undisturbed, AllIn, SentUntouched;
    assert SentUntouched(m.pending, m.sent, m'.sent[id := []]) by { UntouchedAdmit(m, m', maxListeners, id); }
    UndisturbedAdmit(m.clients, m.pending, m'.clients, m'.pending, maxListeners == -1, m.joined, m.sent, m'.joined, m'.sent, id);
    AdmissionAccept(m.clients, m.pending, m'.clients, m'.pending, maxListeners == -1, id);
    AllInAccept(m.clients, m.pending, m'.clients, m'.pending, id);
  }

  lemma UntouchedAdmit(m: Core, m': Core, maxListeners: int, id: nat)
    requires Admitting(m, m', maxListeners) && id in m'.pending
    ensures SentUntouched(m.pending, m.sent, m'.sent[id := []])
  {
    hide Known, Undisturbed, AllIn;
  }

  lemma AdmittingEnd(m: Core, m': Core, maxListeners: int)
    requires Admitting(m, m', maxListeners) && m'.pending == map[]
    ensures Known(m') == Known(m) && (maxListeners >= 0 ==> m'.listeners <= m.listeners || m'.listeners <= maxListeners)
    ensures Admission(m.clients, m.pending, m'.clients, m'.pending, maxListeners == -1)
    ensures Undisturbed(m.clients, m.joined, m.sent, m'.joined, m'.sent) && SentUntouched(m.pending, m.sent, m'.sent)
    ensures 0 <= maxListeners <= m'.listeners || AllIn(m.clients, m.pending, m'.clients, map[])
  {
    hide Known, Admission, Undisturbed, AllIn, SentUntouched;
  }

  lemma RemoveShrinks(tree: Tree, id: nat)
    requires id in tree
    ensures |tree - {id}| < |tree|
  {
    assert (tree - {id}).Keys == tree.Keys - {id};
  }

  // ---------- moving to another mount ----------

  /**
   The record of a listener on its way to another mount. One that is still being sent its response keeps that buffer;
   everybody else lets go of the old queue.
   */
  function Moved(c: Client, connected: bool): (c': Client)
    ensures !c'.refbuf.Queued? || c.phase == Http
  {
    if c.phase == Http then c
    else c.(refbuf := Null, pos := 0, phase := File, introOffset := if connected then c.introOffset else -1)
  }

  lemma MovedOk(c: Client, connected: bool)
    requires ClientOk(c)
    ensures ClientOk(Moved(c, connected)) && Moved(c, connected).phase != Stream && !Moved(c, connected).refbuf.Queued?
  {
  }

  /**
   A listener has come from another mount. One still being sent its response arrives as it was; everybody else without a
   buffer, to be put on the queue: with the offset they had if the old mount's source is connected, and otherwise without a burst.
   */
  ghost predicate Arrived(c: Client, c': Client, connected: bool) {
    if c.phase == Http then c' == c
    else
      && c'.refbuf == Null && c'.pos == 0 && c'.phase == File && (connected ==> c'.introOffset == c.introOffset)
      && (!connected ==> c'.introOffset == -1) && c'.respcode == c.respcode && c'.error == c.error && c'.response == c.response
      && c'.header == c.header && c'.headerPos == c.headerPos && c'.headerSent == c.headerSent && c'.got == c.got
  }

  lemma MovedArrives(c: Client, connected: bool)
    ensures Arrived(c, Moved(c, connected), connected)
  {
  }

  ghost predicate Apart(tree: Tree, known: set<nat>) {
    tree.Keys !! known
  }

  /**
   Listeners of `tree0` that have left it are at the destination with their moved records; nothing else changed there.
   `known` is everybody the destination has ever had.
   */
  ghost predicate MovedOver(tree0: Tree, tree: Tree, dest0: Tree, dest: Tree, connected: bool, known0: set<nat>, known: set<nat>) {
    && tree.Keys <= tree0.Keys && Apart(tree, known) && dest.Keys <= known && known == known0 + (tree0.Keys - tree.Keys)
    && (forall id :: id in tree ==> tree[id] == tree0[id])
    && (forall id :: id in dest ==> id in dest0 || (id in tree0 && id !in tree))
    && (forall id :: id in dest0 ==> id in dest && dest[id] == dest0[id])
    && (forall id :: id in tree0 && id !in tree ==> id in dest && Arrived(tree0[id], dest[id], connected))
  }

  lemma MovedStart(tree: Tree, dest: Tree, connected: bool, known: set<nat>)
    requires Apart(tree, known) && dest.Keys <= known
    ensures MovedOver(tree, tree, dest, dest, connected, known, known)
  {
  }

  lemma MovedNext(tree0: Tree, tree: Tree, dest0: Tree, dest: Tree, connected: bool, known0: set<nat>, known: set<nat>, id: nat)
    requires MovedOver(tree0, tree, dest0, dest, connected, known0, known) && id in tree
    ensures id !in known && |tree - {id}| < |tree|
  {
    RemoveShrinks(tree, id);
  }

  lemma MovedStep(tree0: Tree, tree: Tree, dest0: Tree, dest: Tree, connected: bool, known0: set<nat>, known: set<nat>, id: nat)
    requires MovedOver(tree0, tree, dest0, dest, connected, known0, known) && id in tree
    ensures MovedOver(tree0, tree - {id}, dest0, dest[id := Moved(tree[id], connected)], connected, known0, known + {id})
  {
    hide Arrived, Moved;
    MovedArrives(tree[id], connected);
    assert known0 + (tree0.Keys - (tree - {id}).Keys) == known0 + (tree0.Keys - tree.Keys) + {id};
  }

  /** Both trees have arrived: every record is there, moved, and nothing else has changed. */
  ghost predicate Transferred(clients0: Tree, pending0: Tree, dest0: Tree, dest: Tree, connected: bool,
                              known0: set<nat>, known: set<nat>)
  {
    && known == known0 + (clients0.Keys + pending0.Keys)
    && dest.Keys == dest0.Keys + clients0.Keys + pending0.Keys
    && (forall id :: id in dest0 ==> dest[id] == dest0[id])
    && (forall id :: id in pending0 ==> Arrived(pending0[id], dest[id], connected))
    && (forall id :: id in clients0 ==> Arrived(clients0[id], dest[id], connected))
  }

  predicate Empty(tree: Tree) {
    tree == map[]
  }

  lemma EmptyCount(tree: Tree)
    requires Empty(tree)
    ensures |tree| == 0
  {
  }

  /** Those who are gone are in no tree. */
  ghost predicate Left(clients: Tree, pending: Tree, gone: set<nat>) {
    clients.Keys !! gone && pending.Keys !! gone
  }

  lemma ApartNext(m: Core, pending: Tree, d0: Tree, d1: Tree, connected: bool, k0: set<nat>, k1: set<nat>)
    requires Recorded(m) && Apart(m.clients, k0) && MovedOver(m.pending, pending, d0, d1, connected, k0, k1)
    ensures Apart(m.clients, k1)
  {
  }

  lemma TransferDone(clients0: Tree, clients: Tree, pending0: Tree, pending: Tree, d0: Tree, d1: Tree, d2: Tree,
                     connected: bool, k0: set<nat>, k1: set<nat>, k2: set<nat>)
    requires MovedOver(pending0, pending, d0, d1, connected, k0, k1) && Empty(pending)
    requires MovedOver(clients0, clients, d1, d2, connected, k1, k2) && Empty(clients)
    ensures Transferred(clients0, pending0, d0, d2, connected, k0, k2)
  {
    hide Arrived;
  }

  // ---------- trimming ----------

  /** With nobody left, only the queue itself and the burst part refer to its buffers. */
  lemma AllRefs(queue: seq<Buf>, first: nat, burst: nat)
    requires Law(queue, first, burst, map[], map[])
    ensures forall i :: 0 <= i < |queue| ==> queue[i].count == if burst <= first + i then 2 else 1
  {
  }

  /** Nobody is at buffer `n`; no codec keeps it. */
  predicate Deserted(tree: Tree, n: nat) {
    Holders(tree, n) == {}
  }

  predicate Unmarked(holds: map<nat, nat>, n: nat) {
    Markers(holds, n) == {}
  }

  lemma Needed(m: Core)
    requires Ok(m) && m.queue != [] && m.queue[0].count != 1
    ensures m.first == m.burst || !Deserted(m.clients, m.first) || !Unmarked(m.holds, m.first)
  {
    hide ListenersOk, Size;
    LawTrim(m.queue, m.first, m.burst, m.clients, m.holds);
  }

  /** Buffers are only taken from the head, each with a single reference left. */
  ghost predicate Trimmed(queue0: seq<Buf>, first0: nat, queue: seq<Buf>, first: nat) {
    && first0 <= first && first + |queue| == first0 + |queue0| && queue == queue0[first - first0..]
    && forall i :: 0 <= i < first - first0 ==> queue0[i].count == 1
  }

  // ---------- serving ----------

  /**
   A listener on the queue stays on it: it keeps the place where it joined and is only ever sent more. One that
   comes to the queue joins at or after the burst point. One that gets its response gets the format's header with it,
   and keeps that. Whatever else has been sent to it stays, and what comes comes after it.
   */
  ghost predicate Onward(c: Client, j: nat, s: seq<byte>, c': Client, j': nat, s': seq<byte>,
                         burst: nat, end: nat, header: Option<seq<byte>>)
  {
    && (c.phase == Stream && c.refbuf.Queued? ==> c'.refbuf.Queued? && c.refbuf.number <= c'.refbuf.number)
    && (if c.phase == Stream then c'.phase == Stream && j' == j && s <= s' else c'.phase == Stream ==> burst <= j' < end)
    && HeaderKept(c, c', header) && SentKept(c, c') && Wire(c, s) <= Wire(c', s')
  }

  predicate SentKept(c: Client, c': Client) {
    && c'.response == c.response && c.headerSent <= c'.headerSent && c.got <= c'.got
    && (c.phase == Stream ==> c'.got == c.got) && (c.phase != Http ==> c'.phase != Http)
  }

  predicate HeaderKept(c: Client, c': Client, header: Option<seq<byte>>) {
    if c.respcode == 0 then c'.respcode == 200 ==> header == Some(c'.header)
    else c'.respcode == c.respcode && c'.header == c.header
  }

  /** A send is a step onward. */
  lemma SendOnward(c: Client, j: nat, s: seq<byte>, taken: seq<byte>, died: bool, burst: nat, end: nat, header: Option<seq<byte>>)
    requires c.respcode != 0 && Wire(AfterSend(c, taken, died), SentAfter(c, s, taken)) == Wire(c, s) + taken
    requires c.phase == Stream ==> c.refbuf.Queued?
    ensures Onward(c, j, s, AfterSend(c, taken, died), j, SentAfter(c, s, taken), burst, end, header)
  {
    hide Wire;
  }

  /** Two trees that differ in one listener's record. */
  predicate OnlyAt(tree: Tree, tree0: Tree, id: nat) {
    id in tree0 && id in tree && tree == tree0[id := tree[id]]
  }

  /** Serving listener `id` changes only its record and reference counts. */
  ghost predicate Served(m: Core, m': Core, id: nat) {
    && OnlyAt(m'.clients, m.clients, id) && SameData(m'.queue, m.queue)
    && id in m.joined && id in m'.joined && id in m.sent && id in m'.sent
    && m' == m.(queue := m'.queue, clients := m'.clients, joined := m.joined[id := m'.joined[id]], sent := m.sent[id := m'.sent[id]])
    && Onward(m.clients[id], m.joined[id], m.sent[id], m'.clients[id], m'.joined[id], m'.sent[id], m.burst, |m.all|, m.header)
  }

  lemma PutServed(m: Core, id: nat, c: Client, j: nat, s: seq<byte>)
    requires Ok(m) && id in m.clients && ClientOk(c) && Delivered(c, m.all, m.syncs, j, s)
    requires c.refbuf.Queued? ==> m.first <= c.refbuf.number < m.first + |m.queue|
    requires id in m.joined && id in m.sent && Onward(m.clients[id], m.joined[id], m.sent[id], c, j, s, m.burst, |m.all|, m.header)
    ensures Served(m, PutIn(m, id, c, j, s), id)
  {
    hide Ok, ClientOk, Delivered, Switch, Onward;
    PutInOk(m, id, c, j, s);
  }

  lemma ServedMore(m: Core, m': Core, m'': Core, id: nat)
    requires Served(m, m', id) && Served(m', m'', id)
    ensures Served(m, m'', id)
  {
  }

  lemma ServedStart(m: Core, id: nat)
    requires Recorded(m) && id in m.clients
    ensures Served(m, m, id)
  {
  }

  lemma ServedOthers(m: Core, m': Core, id: nat)
    requires Served(m, m', id)
    ensures m'.clients.Keys == m.clients.Keys && id in m'.clients && SameData(m'.queue, m.queue)
    ensures forall x :: x in m'.clients && x != id ==> m'.clients[x] == m.clients[x]
    ensures Known(m') == Known(m) && id in m.sent && id in m'.sent && m'.sent == m.sent[id := m'.sent[id]]
  {
  }

  /** There is a record of where everybody joined and what was sent; nobody is in two trees. */
  ghost predicate Recorded(m: Core) {
    forall id :: id in m.clients ==> id in m.joined && id in m.sent && id !in m.pending
  }

  lemma OkRecorded(m: Core)
    requires Ok(m)
    ensures Recorded(m) && m.listeners == |m.clients| && |m.all| == m.first + |m.queue|
    ensures Left(m.clients, m.pending, m.gone)
  {
  }

  lemma BurstInQueue(m: Core)
    requires Ok(m)
    ensures m.first < m.burst ==> m.queue != []
  {
    hide Law, InRange, ListenersOk, Size;
  }

  /** With both trees empty everybody is gone. */
  lemma NobodyLeft(m: Core)
    requires Ok(m) && Empty(m.clients) && Empty(m.pending)
    ensures Known(m) == m.gone && m.listeners == 0
  {
    hide QueueOk, Law, InRange, ListenersOk, Size;
  }

  ghost predicate OnwardAt(m: Core, m': Core, id: nat)
    requires id in m.clients && id in m'.clients
  {
    && id in m.joined && id in m'.joined && id in m.sent && id in m'.sent
    && Onward(m.clients[id], m.joined[id], m.sent[id], m'.clients[id], m'.joined[id], m'.sent[id], m'.burst, |m'.all|, m'.header)
  }

  /** Everybody who was there before has only gone on; everybody else comes from the pending tree. */
  ghost predicate AllOnward(m: Core, m': Core) {
    && (forall id :: id in m'.clients && id !in m.clients ==> id in m.pending && m'.clients[id] == m.pending[id])
    && forall id :: id in m.clients && id in m'.clients ==> OnwardAt(m, m', id)
  }

  lemma AllOnwardStart(m: Core)
    requires Recorded(m)
    ensures AllOnward(m, m)
  {
  }

  lemma AllOnwardServe(m: Core, m': Core, id: nat)
    requires AllOnward(m, m) && Served(m, m', id)
    ensures AllOnward(m, m')
  {
  }

  lemma AllOnwardDrop(m: Core, m': Core, m'': Core, id: nat)
    requires AllOnward(m, m') && m''.clients == m'.clients - {id} && m''.joined == m'.joined && m''.sent == m'.sent
    requires m''.burst == m'.burst && m''.all == m'.all && m''.header == m'.header
    ensures AllOnward(m, m'')
  {
  }

  lemma OnwardTwice(m: Core, m': Core, m'': Core, id: nat)
    requires id in m.clients && id in m'.clients && id in m''.clients && OnwardAt(m, m', id) && OnwardAt(m', m'', id)
    requires m''.burst == m'.burst && m''.all == m'.all && m''.header == m'.header
    ensures OnwardAt(m, m'', id)
  {
    hide Wire;
  }

  lemma AllOnwardMore(m: Core, m': Core, m'': Core)
    requires AllOnward(m, m') && AllOnward(m', m'') && m''.clients.Keys <= m'.clients.Keys <= m.clients.Keys
    requires m''.burst == m'.burst && m''.all == m'.all && m''.header == m'.header
    ensures AllOnward(m, m'')
  {
    hide Wire, HeaderKept, SentKept;
    forall id | id in m.clients && id in m''.clients ensures OnwardAt(m, m'', id) {
      OnwardTwice(m, m', m'', id);
    }
  }

  /** Admission changes nothing for those who are already there. */
  lemma AllOnwardAdmit(m: Core, m': Core, m'': Core, open: bool)
    requires AllOnward(m, m') && Admission(m'.clients, m'.pending, m''.clients, m''.pending, open)
    requires Undisturbed(m'.clients, m'.joined, m'.sent, m''.joined, m''.sent)
    requires Recorded(m) && m'.clients.Keys <= m.clients.Keys && m'.pending == m.pending && m''.burst == m'.burst && m''.all == m'.all && m''.header == m'.header
    ensures AllOnward(m, m'')
  {
  }

  /** Nor does anything that leaves the listeners alone. */
  lemma AllOnwardSame(m: Core, m': Core, n: Core, n': Core)
    requires AllOnward(n, n')
    requires m.clients == n.clients && m.pending == n.pending && m.joined == n.joined && m.sent == n.sent
    requires m'.clients == n'.clients && m'.joined == n'.joined && m'.sent == n'.sent && m'.burst == n'.burst && m'.all == n'.all && m'.header == n'.header
    ensures AllOnward(m, m')
  {
  }

  lemma SameDataTwice(a: seq<Buf>, b: seq<Buf>, c: seq<Buf>)
    ensures SameData(a, a) && (SameData(b, a) && SameData(c, b) ==> SameData(c, a))
    ensures SameData(b, a) ==> |a| == |b|
  {
  }

  // ---------- who has to go ----------

  /** The connection has failed, the time is up, or the format has no header yet. */
  ghost predicate Lost(id: nat, c: Client, net: (nat, nat) -> Answer, header: Option<seq<byte>>) {
    c.error || (exists k: nat :: k <= 10 && (net(id, k).timeUp || net(id, k).died)) || (c.respcode == 0 && header == None)
  }

  lemma LostBy(id: nat, c: Client, net: (nat, nat) -> Answer, header: Option<seq<byte>>, k: nat)
    requires k <= 10
    ensures c.error || net(id, k).timeUp || net(id, k).died || (c.respcode == 0 && header == None) ==> Lost(id, c, net, header)
  {
  }

  /** Why a listener may be dropped: it is lost, or at the head of a queue over its limit, or not on the queue yet and comes there. */
  ghost predicate MayGo(id: nat, c: Client, net: (nat, nat) -> Answer, removeFromQ: bool, first: nat, header: Option<seq<byte>>) {
    Lost(id, c, net, header) || (removeFromQ && !(c.refbuf.Queued? && c.refbuf.number > first))
  }

  /** Everybody who is not there any more had to go. */
  ghost predicate Departed(m: Core, clients: Tree, net: (nat, nat) -> Answer, removeFromQ: bool) {
    forall x :: x in m.clients && x !in clients ==> MayGo(x, m.clients[x], net, removeFromQ, m.first, m.header)
  }

  lemma DepartedAdmit(m: Core, m': Core, clients: Tree, pending: Tree, net: (nat, nat) -> Answer, removeFromQ: bool, open: bool)
    requires Departed(m, m'.clients, net, removeFromQ) && Admission(m'.clients, m'.pending, clients, pending, open)
    ensures Departed(m, clients, net, removeFromQ)
  {
    hide MayGo;
  }

  lemma DepartedSame(m: Core, m': Core, clients: Tree, net: (nat, nat) -> Answer, removeFromQ: bool)
    requires Departed(m', clients, net, removeFromQ) && m'.clients == m.clients && m'.first == m.first && m'.header == m.header
    ensures Departed(m, clients, net, removeFromQ)
  {
    hide MayGo;
  }

  lemma ServedRespcode(m: Core, m': Core, id: nat)
    requires Served(m, m', id)
    ensures id in m.clients && id in m'.clients && (m'.clients[id].respcode == 0 ==> m.clients[id].respcode == 0)
  {
  }

  /** A listener on the queue only ever goes forward. */
  lemma ServedNumber(m: Core, m': Core, id: nat)
    requires Served(m, m', id)
    ensures id in m.clients && id in m'.clients
    ensures m.clients[id].phase == Stream && m.clients[id].refbuf.Queued? ==>
              m'.clients[id].refbuf.Queued? && m.clients[id].refbuf.number <= m'.clients[id].refbuf.number
  {
  }

  // ---------- what serving comes to ----------

  /** What a mount has for its listeners. */
  function StockOf(m: Core, introFile: Option<seq<byte>>, connected: bool): (x: Stock) {
    Stock(m.all, m.header, introFile, connected, m.queue != [] && m.queue[|m.queue| - 1].sync)
  }

  /** Nor does anything that leaves the listeners alone change what a pass makes of them. */
  lemma PassSame(m: Core, n: Core, m': Core, x: Stock, net: (nat, nat) -> Answer, removeFromQ: bool)
    requires AllOnward(n, m') && Departed(n, m'.clients, net, removeFromQ) && AllTreated(n, m', x, net)
    requires m.clients == n.clients && m.pending == n.pending && m.joined == n.joined && m.sent == n.sent
    requires m.first == n.first && m.header == n.header
    ensures AllOnward(m, m') && Departed(m, m'.clients, net, removeFromQ) && AllTreated(m, m', x, net)
  {
    hide AllOnward, Departed, AllTreated;
    AllOnwardSame(m, m', n, m');
    DepartedSame(m, n, m'.clients, net, removeFromQ);
    AllTreatedSame(m, m', n, m', x, net);
  }

  lemma SameStock(m: Core, m': Core, introFile: Option<seq<byte>>, connected: bool)
    requires SameData(m'.queue, m.queue) && m'.all == m.all && m'.header == m.header
    ensures StockOf(m', introFile, connected) == StockOf(m, introFile, connected)
  {
  }

  /** Trimming leaves the tail. */
  lemma TrimmedStock(m: Core, m': Core, introFile: Option<seq<byte>>, connected: bool)
    requires Trimmed(m.queue, m.first, m'.queue, m'.first) && m'.all == m.all && m'.header == m.header
    requires m.queue != [] ==> m'.queue != []
    ensures StockOf(m', introFile, connected) == StockOf(m, introFile, connected)
  {
  }

  lemma ServedStock(m: Core, m': Core, id: nat, introFile: Option<seq<byte>>, connected: bool)
    requires Served(m, m', id)
    ensures StockOf(m', introFile, connected) == StockOf(m, introFile, connected)
  {
    hide Onward, OnlyAt;
  }

  lemma ServedPhase(m: Core, m': Core, id: nat)
    requires Served(m, m', id)
    ensures id in m.clients && id in m'.clients && (m.clients[id].phase == Stream ==> m'.clients[id].phase == Stream)
    ensures m.clients[id].phase != Http ==> m'.clients[id].phase != Http
  {
    hide Wire;
  }

  /** A listener with its header complete has been sent more of the stream. */
  lemma ServedGrew(id: nat, m: Core, m': Core, x: Stock, net: (nat, nat) -> Answer)
    requires Ok(m) && Ok(m') && Served(m, m', id) && x.all == m.all && id in m.sent && id in m'.sent
    requires Progress(id, x, m.clients[id], m.sent[id], m'.clients[id], m'.sent[id], net)
    ensures Grew(id, x.all, m.clients[id], m.sent[id], m'.sent[id], net)
  {
    hide Law, InRange, Size, QueueOk, Progress, Grew, Wire;
    var c, c' := m.clients[id], m'.clients[id];
    assert ClientOk(c) && ClientOk(c') && Delivered(c, m.all, m.syncs, m.joined[id], m.sent[id]);
    if c.phase == Stream {
      ProgressGrew(id, x, c, m.sent[id], c', m'.sent[id], net);
    } else {
      OffQueue(id, x.all, c, m.sent[id], m'.sent[id], net);
    }
  }

  lemma OffQueue(id: nat, all: seq<seq<byte>>, c: Client, s: seq<byte>, s': seq<byte>, net: (nat, nat) -> Answer)
    requires !c.refbuf.Queued?
    ensures Grew(id, all, c, s, s', net)
  {
  }

  /** Listener `id`, whose record was `c` and who had been sent `s`, has been served: whoever is dropped afterwards was sent to before. */
  ghost predicate Treated(id: nat, x: Stock, c: Client, s: seq<byte>, m': Core, net: (nat, nat) -> Answer) {
    && id in m'.sent && Grew(id, x.all, c, s, m'.sent[id], net)
    && (id in m'.clients ==> Progress(id, x, c, s, m'.clients[id], m'.sent[id], net))
  }

  /** Everybody has been. */
  ghost predicate AllTreated(m: Core, m': Core, x: Stock, net: (nat, nat) -> Answer) {
    forall id :: id in m.clients ==> id in m.sent && Treated(id, x, m.clients[id], m.sent[id], m', net)
  }

  lemma AllTreatedAdmit(m: Core, m': Core, m'': Core, x: Stock, net: (nat, nat) -> Answer, open: bool)
    requires AllTreated(m, m', x, net) && Recorded(m) && m'.pending == m.pending
    requires Admission(m'.clients, m'.pending, m''.clients, m''.pending, open) && SentUntouched(m'.pending, m'.sent, m''.sent)
    ensures AllTreated(m, m'', x, net)
  {
    hide Grew, Progress;
    forall id | id in m.clients ensures id in m.sent && Treated(id, x, m.clients[id], m.sent[id], m'', net) {
      assert Treated(id, x, m.clients[id], m.sent[id], m', net);
    }
  }

  lemma AllTreatedSame(m: Core, m': Core, n: Core, n': Core, x: Stock, net: (nat, nat) -> Answer)
    requires AllTreated(n, n', x, net) && m.clients == n.clients && m.sent == n.sent && m'.clients == n'.clients && m'.sent == n'.sent
    ensures AllTreated(m, m', x, net)
  {
    hide Grew, Progress;
  }

  // ---------- a whole round of serving ----------

  /** A round of serving from `m` on has come to `m'`, with `todo` still to come. */
  ghost predicate ServedUpTo(m: Core, m': Core, todo: set<nat>, removeFromQ: bool, x: Stock, net: (nat, nat) -> Answer) {
    && Known(m') == Known(m) && SameData(m'.queue, m.queue) && AllOnward(m, m') && m'.clients.Keys <= m.clients.Keys
    && m'.listeners <= m.listeners && m'.first == m.first && m'.burst == m.burst && m'.all == m.all && m'.header == m.header
    && (removeFromQ ==> forall i :: i in m'.clients && i !in todo ==> m'.clients[i].refbuf != Queued(m.first))
    && (forall i :: i in todo ==> i in m.clients && i in m'.clients && m'.clients[i] == m.clients[i])
    && (forall i :: i in m'.clients && i !in todo ==> !m'.clients[i].error)
    && Departed(m, m'.clients, net, removeFromQ)
    && TreatedUpTo(m, m', todo, x, net)
  }

  /** Everybody but those in `todo` has been served; these have been sent nothing. */
  ghost predicate TreatedUpTo(m: Core, m': Core, todo: set<nat>, x: Stock, net: (nat, nat) -> Answer) {
    && (forall i :: i in todo ==> i in m.clients && i in m.sent && i in m'.clients && i in m'.sent
                                  && m'.sent[i] == m.sent[i] && m'.clients[i] == m.clients[i])
    && (forall i :: i in m.clients && i !in todo ==> i in m.sent && Treated(i, x, m.clients[i], m.sent[i], m', net))
  }

  lemma TreatedNext(m: Core, m': Core, m'': Core, todo: set<nat>, id: nat, x: Stock, net: (nat, nat) -> Answer)
    requires TreatedUpTo(m, m', todo, x, net) && id in todo && id in m'.clients
    requires m''.clients.Keys <= m'.clients.Keys && forall i :: i in m'.clients && i != id ==> i in m''.clients && m''.clients[i] == m'.clients[i]
    requires id in m'.sent && id in m''.sent && m''.sent == m'.sent[id := m''.sent[id]]
    requires Treated(id, x, m'.clients[id], m'.sent[id], m'', net)
    ensures TreatedUpTo(m, m'', todo - {id}, x, net)
  {
    hide Grew, Progress;
    forall i | i in m.clients && i !in todo - {id} ensures i in m.sent && Treated(i, x, m.clients[i], m.sent[i], m'', net) {
      if i != id {
        assert Treated(i, x, m.clients[i], m.sent[i], m', net);
      }
    }
  }

  lemma ServedUpToStart(m: Core, removeFromQ: bool, x: Stock, net: (nat, nat) -> Answer)
    requires Recorded(m)
    ensures ServedUpTo(m, m, m.clients.Keys, removeFromQ, x, net)
  {
    AllOnwardStart(m);
  }

  lemma ServedUpToStill(m: Core, m': Core, todo: set<nat>, id: nat, removeFromQ: bool, x: Stock, net: (nat, nat) -> Answer)
    requires ServedUpTo(m, m', todo, removeFromQ, x, net) && id in todo
    ensures id in m.clients && id in m'.clients && m'.clients[id] == m.clients[id] && m'.first == m.first && m'.header == m.header
    ensures id in m.sent && id in m'.sent && m'.sent[id] == m.sent[id]
  {
    hide Treated, MayGo, AllOnward, Known, SameData;
  }

  lemma DepartedNext(m: Core, m': Core, m'': Core, todo: set<nat>, id: nat, removeFromQ: bool, x: Stock, net: (nat, nat) -> Answer)
    requires ServedUpTo(m, m', todo, removeFromQ, x, net) && id in todo && id in m'.clients
    requires forall i :: i in m'.clients && i != id ==> i in m''.clients
    requires id !in m''.clients ==> MayGo(id, m'.clients[id], net, removeFromQ, m'.first, m'.header)
    ensures Departed(m, m''.clients, net, removeFromQ)
  {
    hide AllOnward, Known, SameData, MayGo, TreatedUpTo;
  }

  /** One listener has been served: everybody else stays as they were. */
  ghost predicate RoundStep(m: Core, m': Core, id: nat, removeFromQ: bool, x: Stock, net: (nat, nat) -> Answer) {
    && Known(m') == Known(m) && SameData(m'.queue, m.queue) && AllOnward(m, m') && id in m.clients
    && (m'.clients.Keys == m.clients.Keys || m'.clients.Keys == m.clients.Keys - {id})
    && (forall i :: i in m'.clients && i != id ==> m'.clients[i] == m.clients[i])
    && (removeFromQ && id in m'.clients ==> m'.clients[id].refbuf != Queued(m.first))
    && (if id in m'.clients then !m'.clients[id].error else MayGo(id, m.clients[id], net, removeFromQ, m.first, m.header))
    && m'.listeners <= m.listeners && m'.first == m.first && m'.burst == m.burst && m'.all == m.all && m'.header == m.header
    && id in m.sent && id in m'.sent && m'.sent == m.sent[id := m'.sent[id]]
    && Treated(id, x, m.clients[id], m.sent[id], m', net)
  }

  lemma ServedUpToNext(m: Core, m': Core, m'': Core, todo: set<nat>, id: nat, removeFromQ: bool, x: Stock, net: (nat, nat) -> Answer)
    requires ServedUpTo(m, m', todo, removeFromQ, x, net) && RoundStep(m', m'', id, removeFromQ, x, net) && id in todo
    ensures ServedUpTo(m, m'', todo - {id}, removeFromQ, x, net) && todo - {id} <= m''.clients.Keys
  {
    hide AllOnward, Known, SameData, MayGo, Treated, TreatedUpTo, Departed;
    assert forall i :: i in todo ==> i in m'.clients by { TodoThere(m, m', todo, removeFromQ, x, net); }
    DepartedNext(m, m', m'', todo, id, removeFromQ, x, net);
    TreatedNext(m, m', m'', todo, id, x, net);
    AllOnwardMore(m, m', m'');
    SameDataTwice(m.queue, m'.queue, m''.queue);
  }

  lemma TodoThere(m: Core, m': Core, todo: set<nat>, removeFromQ: bool, x: Stock, net: (nat, nat) -> Answer)
    requires ServedUpTo(m, m', todo, removeFromQ, x, net)
    ensures forall i :: i in todo ==> i in m'.clients
  {
    hide AllOnward, Known, SameData, MayGo, Treated, TreatedUpTo, Departed;
  }

  lemma ServedUpToEnd(m: Core, m': Core, removeFromQ: bool, x: Stock, net: (nat, nat) -> Answer)
    requires ServedUpTo(m, m', {}, removeFromQ, x, net)
    ensures Known(m') == Known(m) && SameData(m'.queue, m.queue) && AllOnward(m, m') && m'.clients.Keys <= m.clients.Keys
    ensures m'.listeners <= m.listeners && (removeFromQ ==> Deserted(m'.clients, m'.first))
    ensures Departed(m, m'.clients, net, removeFromQ) && forall i :: i in m'.clients ==> !m'.clients[i].error
    ensures AllTreated(m, m', x, net)
  {
    hide AllOnward, Known, SameData, MayGo, Treated;
  }
}
