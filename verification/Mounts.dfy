/** Whole runs of two mounts that can hand their listeners to each other. */
module Mounts {
  import opened Octets
  import opened RefCounts
  import opened MountState
  import opened MountChanges
  import opened Sending
  import opened Broadcast

  /** What can happen; `onA` says to which of the two mounts. */
  datatype Step =
    | Connect(onA: bool, response: seq<byte>)
    | Tick(onA: bool, buf: Option<NewBuf>, net: (nat, nat) -> Answer)
    | Settle(onA: bool, codec: nat, mark: bool)
    | Move(fromA: bool)
    | Clear(onA: bool)
    | Start(onA: bool, setup: Setup)

  /** Connection ids are handed out by one counter, so no listener is known to both mounts. */
  ghost predicate Distinct(a: set<nat>, b: set<nat>, nextId: nat) {
    a !! b && (forall id :: id in a ==> id < nextId) && (forall id :: id in b ==> id < nextId)
  }

  lemma DistinctNew(a: set<nat>, b: set<nat>, nextId: nat)
    requires Distinct(a, b, nextId)
    ensures nextId !in a && nextId !in b && Distinct(a + {nextId}, b, nextId + 1) && Distinct(a, b + {nextId}, nextId + 1)
  {
  }

  lemma DistinctApart(m: Core, known: set<nat>, nextId: nat)
    requires Distinct(Known(m), known, nextId)
    ensures Apart(m.clients, known) && Apart(m.pending, known)
  {
  }

  lemma DistinctMove(m: Core, m': Core, dest: Tree, dest': Tree, connected: bool, known: set<nat>, known': set<nat>, nextId: nat)
    requires Distinct(Known(m), known, nextId) && Left(m.clients, m.pending, m.gone)
    requires Empty(m'.clients) && Empty(m'.pending) && m'.gone == m.gone
    requires Transferred(m.clients, m.pending, dest, dest', connected, known, known')
    ensures Distinct(Known(m'), known', nextId)
  {
  }

  lemma DistinctSwap(a: set<nat>, b: set<nat>, nextId: nat)
    requires Distinct(a, b, nextId)
    ensures Distinct(b, a, nextId)
  {
  }

  // ---------- what each step makes of a mount ----------

  datatype View = View(core: Core, conf: Conf)

  ghost function ViewOf(s: Source): (v: View)
    reads s
  {
    View(s.Now(), s.Settings())
  }

  /** A new listener waits. */
  ghost predicate Joins(a: View, id: nat, response: seq<byte>, b: View) {
    b == a.(core := a.core.(pending := a.core.pending[id := Source.NewListener(response)]))
  }

  /** The codec of a new buffer keeps none yet. */
  predicate Free(holds: map<nat, nat>, buf: Option<NewBuf>) {
    buf.Some? && buf.value.codec.Some? ==> buf.value.codec.value !in holds
  }

  /** One pass of the source thread, which leaves the settings alone. */
  ghost predicate PassOf(m: Core, m': Core, conf: Conf, buf: Option<NewBuf>, net: (nat, nat) -> Answer) {
    var over := m.queueSize + Source.Added(buf) > conf.queueSizeLimit;
    && m'.header == m.header && Known(m') == Known(m) && m.first <= m'.first
    && Empty(m'.pending) && AllOnward(m, m') && Departed(m, m'.clients, net, over)
    && AllTreated(m, m', StockOf(m', conf.introFile, conf.connected), net)
    && m'.all == m.all + (if buf.Some? then [buf.value.data] else [])
    && m'.syncs == m.syncs + (if buf.Some? && buf.value.sync then {|m.all|} else {})
    && m'.listeners == |m'.clients|
    && (conf.maxListeners >= 0 ==> m'.listeners <= m.listeners || m'.listeners <= conf.maxListeners)
    && (buf.Some? ==> m'.queue != [] && (m'.burstOffset <= conf.burstSize || m'.burst + 1 == |m'.all|))
    && (over && m.first < m'.burst && Unmarked(m'.holds, m.first) ==> |m'.queue| <= |m.queue|)
  }

  ghost predicate Passes(a: View, buf: Option<NewBuf>, net: (nat, nat) -> Answer, b: View) {
    if !Free(a.core.holds, buf) then b == a else b.conf == a.conf && PassOf(a.core, b.core, a.conf, buf, net)
  }

  /** A codec decides about the buffer it keeps. */
  ghost predicate Settles(a: View, codec: nat, mark: bool, b: View) {
    if codec !in a.core.holds then b == a
    else
      && b.conf == a.conf && |b.core.queue| == |a.core.queue|
      && b.core == a.core.(queue := b.core.queue, holds := a.core.holds - {codec},
                           syncs := a.core.syncs + if mark then {a.core.holds[codec]} else {})
  }

  /** Everybody of `a` goes to `d`, or nothing happens. */
  ghost predicate Moves(a: View, d: View, a': View, d': View) {
    if !Movable(a.conf, d.conf) then a' == a && d' == d
    else
      && Empty(a'.core.clients) && Empty(a'.core.pending) && a'.core.listeners == 0 && a'.conf == a.conf
      && a'.core.all == a.core.all && a'.core.gone == a.core.gone && d'.core == d.core.(pending := d'.core.pending)
      && Transferred(a.core.clients, a.core.pending, d.core.pending, d'.core.pending, a.conf.connected, Known(d.core), Known(d'.core))
      && d'.conf == d.conf.(onDemandReq := d.conf.onDemandReq || (!d.conf.running && |a.core.clients| + |a.core.pending| > 0))
  }

  /** The source is gone. */
  ghost predicate Clears(a: View, b: View) {
    && b.core.queue == [] && Empty(b.core.clients) && Empty(b.core.pending) && b.core.holds == map[] && b.core.all == a.core.all
    && b.core.gone == Known(a.core) && b.core.listeners == 0 && b.core.queueSize == 0 && b.core.burstOffset == 0 && b.core.header == None
    && b.conf == a.conf.(connected := false, format := None, introFile := None, onDemandReq := false,
                         maxListeners := -1, burstSize := 0, queueSizeLimit := 0)
  }

  /** A source connects. */
  ghost predicate Starts(a: View, s: Setup, b: View) {
    && b.core == a.core.(header := s.header)
    && b.conf == a.conf.(connected := true, format := Some(s.format), introFile := s.introFile,
                         maxListeners := s.maxListeners, burstSize := s.burstSize, queueSizeLimit := s.queueSizeLimit)
  }

  method DoConnect(s: Source, id: nat, response: seq<byte>)
    requires s.Valid() && id !in Known(s.Now())
    modifies s
    ensures s.Valid() && Joins(old(ViewOf(s)), id, response, ViewOf(s)) && Known(s.Now()) == old(Known(s.Now())) + {id}
  {
    hide Ok, Known;
    s.AddListener(id, response);
  }

  /** A codec that still keeps a buffer has to settle that first. */
  method DoTick(s: Source, buf: Option<NewBuf>, net: (nat, nat) -> Answer)
    requires s.Valid()
    modifies s
    ensures s.Valid() && Passes(old(ViewOf(s)), buf, net, ViewOf(s)) && Known(s.Now()) == old(Known(s.Now()))
  {
    hide Ok, Known, AllOnward, AllTreated, Departed, Empty, Unmarked, PassOf;
    if Free(s.holds, buf) {
      DoPass(s, buf, net);
    }
  }

  method DoPass(s: Source, buf: Option<NewBuf>, net: (nat, nat) -> Answer)
    requires s.Valid() && Free(s.holds, buf)
    modifies s
    ensures s.Valid() && PassOf(old(s.Now()), s.Now(), s.Settings(), buf, net) && s.Settings() == old(s.Settings())
    ensures Known(s.Now()) == old(Known(s.Now()))
  {
    hide Ok, Known, AllOnward, AllTreated, Departed, Empty, Unmarked;
    s.Pass(buf, net);
  }

  method DoSettle(s: Source, codec: nat, mark: bool)
    requires s.Valid()
    modifies s
    ensures s.Valid() && Settles(old(ViewOf(s)), codec, mark, ViewOf(s)) && Known(s.Now()) == old(Known(s.Now()))
  {
    hide Ok;
    if codec in s.holds {
      s.ReleasePossibleStart(codec, mark);
    }
  }

  method DoClear(s: Source)
    requires s.Valid()
    modifies s
    ensures s.Valid() && Clears(old(ViewOf(s)), ViewOf(s)) && Known(s.Now()) == old(Known(s.Now()))
  {
    hide Ok, Known, Empty;
    s.ClearSource();
  }

  method DoStart(s: Source, setup: Setup)
    requires s.Valid()
    modifies s
    ensures s.Valid() && Starts(old(ViewOf(s)), setup, ViewOf(s)) && Known(s.Now()) == old(Known(s.Now()))
  {
    hide Ok, Known;
    s.Configure(setup);
  }

  method DoMove(a: Source, b: Source, id: nat)
    requires a != b && a.Valid() && b.Valid() && Distinct(Known(a.Now()), Known(b.Now()), id)
    modifies a, b
    ensures a.Valid() && b.Valid() && Distinct(Known(a.Now()), Known(b.Now()), id)
    ensures Moves(old(ViewOf(a)), old(ViewOf(b)), ViewOf(a), ViewOf(b))
  {
    hide Ok, Distinct, Apart, Transferred, Known, Left, Recorded, Empty, Source.CanMoveTo, Movable;
    ghost var m, n := a.Now(), b.Now();
    OkRecorded(m);
    DistinctApart(m, Known(n), id);
    ghost var able := a.CanMoveTo(b);
    a.MoveClients(b);
    if able {
      DistinctMove(m, a.Now(), n.pending, b.pending, a.connected, Known(n), Known(b.Now()), id);
    }
  }

  // ---------- runs ----------

  /** Both mounts, and the next connection id. */
  datatype Moment = Moment(a: View, b: View, nextId: nat)

  ghost predicate Happened(p: Moment, step: Step, q: Moment) {
    && q.nextId == (if step.Connect? then p.nextId + 1 else p.nextId)
    && match step {
         case Connect(onA, response) =>
           if onA then Joins(p.a, p.nextId, response, q.a) && q.b == p.b else Joins(p.b, p.nextId, response, q.b) && q.a == p.a
         case Tick(onA, buf, net) =>
           if onA then Passes(p.a, buf, net, q.a) && q.b == p.b else Passes(p.b, buf, net, q.b) && q.a == p.a
         case Settle(onA, codec, mark) =>
           if onA then Settles(p.a, codec, mark, q.a) && q.b == p.b else Settles(p.b, codec, mark, q.b) && q.a == p.a
         case Move(fromA) =>
           if fromA then Moves(p.a, p.b, q.a, q.b) else Moves(p.b, p.a, q.b, q.a)
         case Clear(onA) =>
           if onA then Clears(p.a, q.a) && q.b == p.b else Clears(p.b, q.b) && q.a == p.a
         case Start(onA, setup) =>
           if onA then Starts(p.a, setup, q.a) && q.b == p.b else Starts(p.b, setup, q.b) && q.a == p.a
       }
  }

  ghost predicate AllHappened(trace: seq<Moment>, steps: seq<Step>) {
    0 < |trace| <= |steps| + 1 && forall i :: 0 <= i < |trace| - 1 ==> Happened(trace[i], steps[i], trace[i + 1])
  }

  method Do(a: Source, b: Source, step: Step, id: nat) returns (nextId: nat)
    requires a != b && a.Valid() && b.Valid() && Distinct(Known(a.Now()), Known(b.Now()), id)
    modifies a, b
    ensures a.Valid() && b.Valid() && Distinct(Known(a.Now()), Known(b.Now()), nextId)
    ensures Happened(Moment(old(ViewOf(a)), old(ViewOf(b)), id), step, Moment(ViewOf(a), ViewOf(b), nextId))
  {
    hide Ok, Distinct, Known, Joins, Passes, Settles, Moves, Clears, Starts;
    nextId := if step.Connect? then id + 1 else id;
    match step {
      case Connect(onA, response) =>
        DistinctNew(Known(a.Now()), Known(b.Now()), id);
        if onA {
          DoConnect(a, id, response);
        } else {
          DoConnect(b, id, response);
        }
      case Tick(onA, buf, net) =>
        if onA {
          DoTick(a, buf, net);
        } else {
          DoTick(b, buf, net);
        }
      case Settle(onA, codec, mark) =>
        if onA {
          DoSettle(a, codec, mark);
        } else {
          DoSettle(b, codec, mark);
        }
      case Move(fromA) =>
        if fromA {
          DoMove(a, b, id);
        } else {
          DistinctSwap(Known(a.Now()), Known(b.Now()), id);
          DoMove(b, a, id);
          DistinctSwap(Known(b.Now()), Known(a.Now()), id);
        }
      case Clear(onA) =>
        if onA {
          DoClear(a);
        } else {
          DoClear(b);
        }
      case Start(onA, setup) =>
        if onA {
          DoStart(a, setup);
        } else {
          DoStart(b, setup);
        }
    }
  }

  /**
   Every run, of any length and in any order, with any behaviour of the sockets, keeps everything `Valid` says of both
   mounts: the reference count law, the accounting of the queue, the trees, and what every listener has been sent.
   `trace` has the states it goes through, each made from the one before by its step.
   */
  method Run(a: Source, b: Source, steps: seq<Step>, start: nat) returns (nextId: nat, ghost trace: seq<Moment>)
    requires a != b && a.Valid() && b.Valid() && Distinct(Known(a.Now()), Known(b.Now()), start)
    modifies a, b
    ensures a.Valid() && b.Valid() && Distinct(Known(a.Now()), Known(b.Now()), nextId)
    ensures |trace| == |steps| + 1 && AllHappened(trace, steps)
    ensures trace[0] == Moment(old(ViewOf(a)), old(ViewOf(b)), start) && trace[|steps|] == Moment(ViewOf(a), ViewOf(b), nextId)
  {
    hide Ok, Distinct, Happened, Known;
    nextId, trace := start, [Moment(ViewOf(a), ViewOf(b), start)];
    for i := 0 to |steps|
      invariant a.Valid() && b.Valid() && Distinct(Known(a.Now()), Known(b.Now()), nextId)
      invariant |trace| == i + 1 && AllHappened(trace, steps) && trace[i] == Moment(ViewOf(a), ViewOf(b), nextId)
      invariant trace[0] == Moment(old(ViewOf(a)), old(ViewOf(b)), start)
    {
      nextId := Do(a, b, steps[i], nextId);
      trace := trace + [Moment(ViewOf(a), ViewOf(b), nextId)];
    }
  }
}
