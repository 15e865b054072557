/** The statistics server of src/stats.c: two trees of values and the listeners that follow their changes. */
module Stats {
  import opened Octets
  import opened StatsEvents

  /** A listener's FIFO; `taken` is what its thread has already got out of it. */
  datatype Feed = Feed(taken: seq<Note>, queue: seq<Note>)

  ghost predicate Follows(f: Feed, b: Board) {
    Mirrors(Replay(f.taken + f.queue), b)
  }

  lemma FollowsOn(f: Feed, b: Board, e: Event, b': Board)
    requires Built(e) && Follows(f, b) && Applied(b, e, b')
    ensures Follows(f.(queue := f.queue + [Copy(b, e)]), b') <==> Exact(b, e)
  {
    hide Mirrors, Applied, Exact, Copy, Replay;
    var n := Copy(b, e);
    assert f.taken + (f.queue + [n]) == f.taken + f.queue + [n];
    ReplayNext(f.taken + f.queue, n);
    FollowerKeepsUp(Replay(f.taken + f.queue), b, e, b');
  }

  /** Every listener has got one more event. */
  ghost predicate AllTold(feeds: map<nat, Feed>, feeds': map<nat, Feed>, n: Note) {
    feeds'.Keys == feeds.Keys && forall id :: id in feeds ==> feeds'[id] == feeds[id].(queue := feeds[id].queue + [n])
  }

  /** `r` has heard of the statistics in `done`, with their values, and of no others. */
  ghost predicate Snapshot(r: Replica, b: Board, done: set<Key>) {
    forall k :: Find(r, k) == if k in done then Lookup(b, k) else None
  }

  lemma SnapshotMore(notes: seq<Note>, b: Board, done: set<Key>, k: Key)
    requires Snapshot(Replay(notes), b, done) && Lookup(b, k).Some?
    ensures Snapshot(Replay(notes + [Note(k.source, Some(k.name), Lookup(b, k))]), b, done + {k})
  {
    ReplayNext(notes, Note(k.source, Some(k.name), Lookup(b, k)));
  }

  lemma SnapshotDone(r: Replica, b: Board, done: set<Key>)
    requires Snapshot(r, b, done) && forall k :: Lookup(b, k).Some? ==> k in done
    ensures Mirrors(r, b)
  {
    forall k ensures Find(r, k) == Lookup(b, k) {
      assert Lookup(b, k).Some? ==> k in done;
    }
  }

  ghost function KeysOf(source: Option<string>, names: set<string>): (keys: set<Key>) {
    set n | n in names :: Key(source, n)
  }

  class Server {
    var globals: map<string, string>
    var sources: map<string, map<string, string>>
    var feeds: map<nat, Feed>

    function Now(): (b: Board)
      reads this
    {
      Board(globals, sources)
    }

    /** Replaying what a listener was given, snapshot and all, yields the current statistics. */
    ghost predicate Valid()
      reads this
    {
      forall id :: id in feeds ==> Follows(feeds[id], Now())
    }

    constructor ()
      ensures Valid() && Now() == Board(map[], map[]) && feeds == map[]
    {
      globals, sources, feeds := map[], map[], map[];
    }

    method ProcessGlobal(e: Event) returns (crashed: bool, value: Option<string>)
      requires Built(e) && e.source.None?
      modifies `globals
      ensures crashed <==> Crashes(old(Now()), e)
      ensures if crashed then globals == old(globals) else Applied(old(Now()), e, Now()) && value == Carried(old(Named(Now(), e)), e)
    {
      hide Changed;
      var name := e.name.value;
      crashed, value := false, e.value;
      if e.action.Remove? {
        if name in globals {
          globals := globals - {name};
        }
        return;
      }
      if name in globals {
        if value.None? {
          value := Some(Changed(globals[name], e));
        }
        globals := globals[name := Changed(globals[name], e)];
      } else if value.None? {
        crashed := true;
      } else {
        globals := globals[name := value.value];
      }
    }

    method ProcessSource(e: Event) returns (value: Option<string>)
      requires Built(e) && e.source.Some?
      modifies `sources
      ensures Applied(old(Now()), e, Now()) && value == Carried(old(Named(Now(), e)), e)
    {
      hide Changed;
      var source := e.source.value;
      value := e.value;
      if source !in sources {
        if e.action.Remove? {
          return;
        }
        sources := sources[source := map[]];
      }
      if e.name.None? {
        sources := sources - {source};
        return;
      }
      var tree, name := sources[source], e.name.value;
      if name !in tree {
        if value.Some? {
          sources := sources[source := tree[name := value.value]];
        }
      } else if e.action.Remove? {
        sources := sources[source := tree - {name}];
      } else {
        if value.None? {
          value := Some(Changed(tree[name], e));
        }
        sources := sources[source := tree[name := Changed(tree[name], e)]];
      }
    }

    /** The stats thread's loop over the listeners. */
    method Tell(n: Note)
      modifies `feeds
      ensures AllTold(old(feeds), feeds, n)
    {
      var todo := feeds.Keys;
      while todo != {}
        invariant todo <= feeds.Keys == old(feeds.Keys)
        invariant forall id :: id in feeds ==> feeds[id] == if id in todo then old(feeds)[id]
                                                            else old(feeds)[id].(queue := old(feeds)[id].queue + [n])
        decreases todo
      {
        var id :| id in todo;
        feeds := feeds[id := feeds[id].(queue := feeds[id].queue + [n])];
        todo := todo - {id};
      }
    }

    /**
     One event of the global queue is processed and copied to the listeners. They all stay in step if and only if it is
     exact, as every SET, INC, DEC and REMOVE is. The number in a statistic goes up by one for INC, down by one for DEC, and up
     or down by the amount for ADD and SUB. The server crashes exactly where it counts a global statistic that is not there.
     */
    method Process(e: Event) returns (crashed: bool)
      requires Valid() && Built(e)
      modifies this
      ensures crashed <==> Crashes(old(Now()), e)
      ensures crashed ==> Now() == old(Now()) && feeds == old(feeds)
      ensures !crashed ==> Applied(old(Now()), e, Now()) && AllTold(old(feeds), feeds, old(Copy(Now(), e)))
      ensures !crashed && e.name.Some? ==> Counted(old(Named(Now(), e)), e, Named(Now(), e))
      ensures !crashed ==> (Valid() <==> old(Exact(Now(), e)) || feeds == map[])
    {
      hide Applied, Follows, Exact, Carried, Built, Counted;
      ghost var b := Now();
      var value;
      if e.source.None? {
        crashed, value := ProcessGlobal(e);
        if crashed {
          return;
        }
      } else {
        crashed := false;
        value := ProcessSource(e);
      }
      Tell(Note(e.source, e.name, value));
      if e.name.Some? {
        EventCounts(b, e, Now());
      }
      forall id | id in feeds ensures Follows(feeds[id], Now()) <==> Exact(b, e) {
        FollowsOn(old(feeds)[id], b, e, Now());
      }
      if feeds != map[] {
        assert feeds.Keys != {};
        var id :| id in feeds;
      }
    }

    /** The statistics the server sets when it starts, before anything is counted. */
    method Start()
      requires Valid()
      modifies this
      ensures Valid() && Started(Now())
    {
      hide Follows, Applied, Copy, AllTold;
      for i := 0 to |STARTUP|
        invariant Valid() && forall j :: 0 <= j < i ==> STARTUP[j] in globals
      {
        ghost var b := Now();
        var e := Event(None, Some(STARTUP[i]), Some("0"), Set);
        var _ := Process(e);
        SetStays(b, e, Now());
      }
    }

    /** All statistics of one tree, in any order, become SET events. */
    static method Dump(source: Option<string>, tree: map<string, string>, ghost b: Board, notes: seq<Note>, ghost done: set<Key>)
      returns (notes': seq<Note>)
      requires Snapshot(Replay(notes), b, done) && forall n :: n in tree ==> Lookup(b, Key(source, n)) == Some(tree[n])
      ensures Snapshot(Replay(notes'), b, done + KeysOf(source, tree.Keys))
    {
      hide Snapshot, Replay, Lookup;
      notes' := notes;
      var todo := tree.Keys;
      assert done + KeysOf(source, tree.Keys - todo) == done;
      while todo != {}
        invariant todo <= tree.Keys && Snapshot(Replay(notes'), b, done + KeysOf(source, tree.Keys - todo))
        decreases todo
      {
        var name :| name in todo;
        SnapshotMore(notes', b, done + KeysOf(source, tree.Keys - todo), Key(source, name));
        notes' := notes' + [Note(source, Some(name), Some(tree[name]))];
        assert KeysOf(source, tree.Keys - todo) + {Key(source, name)} == KeysOf(source, tree.Keys - (todo - {name}));
        assert done + KeysOf(source, tree.Keys - todo) + {Key(source, name)} == done + KeysOf(source, tree.Keys - (todo - {name}));
        todo := todo - {name};
      }
      assert tree.Keys - todo == tree.Keys;
    }

    /** The keys of all statistics of the sources in `names`. */
    ghost function SourceKeys(names: set<string>): (keys: set<Key>)
      reads this
      requires names <= sources.Keys
    {
      set s, n | s in names && n in sources[s] :: Key(Some(s), n)
    }

    /** Every current statistic, as the snapshot a new listener starts with. */
    method MakeSnapshot() returns (notes: seq<Note>)
      ensures Mirrors(Replay(notes), Now())
    {
      hide Snapshot, Mirrors, Replay;
      ghost var b := Now();
      assert Snapshot(Replay([]), b, {}) by { SnapshotNone(b); }
      notes := Dump(None, globals, b, [], {});
      ghost var done := {} + KeysOf(None, globals.Keys);
      var todo := sources.Keys;
      assert done + SourceKeys(sources.Keys - todo) == done;
      while todo != {}
        invariant todo <= sources.Keys && Snapshot(Replay(notes), b, done + SourceKeys(sources.Keys - todo))
        decreases todo
      {
        var source :| source in todo;
        notes := Dump(Some(source), sources[source], b, notes, done + SourceKeys(sources.Keys - todo));
        assert SourceKeys(sources.Keys - (todo - {source})) ==
               SourceKeys(sources.Keys - todo) + KeysOf(Some(source), sources[source].Keys);
        assert done + SourceKeys(sources.Keys - todo) + KeysOf(Some(source), sources[source].Keys) ==
               done + SourceKeys(sources.Keys - (todo - {source}));
        todo := todo - {source};
      }
      SnapshotDone(Replay(notes), b, done + SourceKeys(sources.Keys - todo));
    }

    /** A new listener: the snapshot and the registration are one step. */
    method Register(id: nat)
      requires Valid() && id !in feeds
      modifies `feeds
      ensures Valid() && feeds.Keys == old(feeds.Keys) + {id} && feeds == old(feeds)[id := feeds[id]] && feeds[id].taken == []
      ensures Follows(feeds[id], Now())
    {
      hide Mirrors, Replay;
      var notes := MakeSnapshot();
      assert [] + notes == notes;
      feeds := feeds[id := Feed([], notes)];
    }

    method Unregister(id: nat)
      requires Valid()
      modifies `feeds
      ensures Valid() && feeds == old(feeds) - {id}
    {
      hide Follows;
      feeds := feeds - {id};
    }

    /** A listener's thread gets the oldest event of its queue. */
    method Take(id: nat) returns (n: Option<Note>)
      requires Valid() && id in feeds
      modifies `feeds
      ensures Valid() && id in feeds && feeds == old(feeds)[id := feeds[id]]
      ensures n.None? <==> old(feeds)[id].queue == []
      ensures old(feeds)[id].queue == (if n.Some? then [n.value] else []) + feeds[id].queue
      ensures feeds[id].taken == old(feeds)[id].taken + if n.Some? then [n.value] else []
      ensures Oldest(old(feeds)[id], feeds[id])
    {
      hide Mirrors, Replay;
      var f := feeds[id];
      if f.queue == [] {
        assert feeds[id := f] == feeds;
        return None;
      }
      n := Some(f.queue[0]);
      assert f.taken + [f.queue[0]] + f.queue[1..] == f.taken + f.queue;
      feeds := feeds[id := Feed(f.taken + [f.queue[0]], f.queue[1..])];
    }

    ghost function Seen(): (m: Moment)
      reads this
    {
      Moment(Now(), feeds)
    }

    method Do(step: Step) returns (exact: bool, crashed: bool)
      requires Valid() && (step.Happen? ==> Built(step.event))
      modifies this
      ensures Happened(old(Seen()), step, Seen()) && (exact ==> Valid())
      ensures exact <==> !step.Happen? || feeds == map[] || Crashes(old(Now()), step.event) || Exact(old(Now()), step.event)
      ensures crashed <==> step.Happen? && Crashes(old(Now()), step.event)
    {
      hide Follows, Applied, Built, Copy, Crashes, AllTold;
      exact, crashed := true, false;
      match step {
        case Join(id) =>
          if id !in feeds {
            Register(id);
          }
        case Leave(id) =>
          Unregister(id);
        case Read(id) =>
          if id in feeds {
            var n := Take(id);
          }
        case Happen(e) =>
          exact := Exact(Now(), e);
          crashed := Process(e);
          exact := exact || crashed || feeds == map[];
      }
    }

    /**
     What happens to the server, in any order; the run ends at a crash or an event that is not exact. A server that has started
     does not crash. `trace` has the states the run went through.
     */
    method Run(steps: seq<Step>) returns (exact: bool, crashed: bool, ghost trace: seq<Moment>)
      requires Valid() && forall s :: s in steps && s.Happen? ==> Built(s.event)
      modifies this
      ensures exact ==> Valid()
      ensures AllHappened(trace, steps) && trace[0] == old(Seen()) && trace[|trace| - 1] == Seen()
      ensures exact && !crashed ==> |trace| == |steps| + 1
      ensures crashed ==> |trace| > 1 && steps[|trace| - 2].Happen? && Crashes(trace[|trace| - 2].board, steps[|trace| - 2].event)
      ensures (forall s :: s in steps && s.Happen? ==> !s.event.action.Add? && !s.event.action.Sub?) ==> exact
      ensures old(Started(Now())) && (forall s :: s in steps && s.Happen? ==> Ordinary(s.event)) ==> !crashed
    {
      hide Follows, Happened, Started, Ordinary, Crashes;
      exact, crashed, trace := true, false, [Seen()];
      for i := 0 to |steps|
        invariant Valid() && exact && !crashed
        invariant AllHappened(trace, steps) && |trace| == i + 1 && trace[0] == old(Seen()) && trace[i] == Seen()
        invariant old(Started(Now())) && (forall s :: s in steps && s.Happen? ==> Ordinary(s.event)) ==> Started(Now())
      {
        ghost var b := Now();
        assert steps[i] in steps;
        exact, crashed := Do(steps[i]);
        trace := trace + [Seen()];
        if forall s :: s in steps && s.Happen? ==> Ordinary(s.event) {
          StillStarted(trace[i], steps[i], Seen());
        }
        if crashed || !exact {
          return;
        }
      }
    }
  }

  /** What there is to know of a server. */
  datatype Moment = Moment(board: Board, feeds: map<nat, Feed>)

  /** What a step makes of it. */
  ghost predicate Happened(a: Moment, step: Step, b: Moment) {
    match step
    case Join(id) =>
      && b.board == a.board
      && (if id in a.feeds then b == a
          else id in b.feeds && b.feeds == a.feeds[id := b.feeds[id]] && b.feeds[id].taken == [] && Follows(b.feeds[id], b.board))
    case Leave(id) => b == a.(feeds := a.feeds - {id})
    case Read(id) =>
      && b.board == a.board
      && (if id !in a.feeds then b == a
          else id in b.feeds && b.feeds == a.feeds[id := b.feeds[id]] && Oldest(a.feeds[id], b.feeds[id]))
    case Happen(e) =>
      Built(e) && if Crashes(a.board, e) then b == a else Applied(a.board, e, b.board) && AllTold(a.feeds, b.feeds, Copy(a.board, e))
  }

  /** The oldest event, if there is one, has been taken. */
  predicate Oldest(f: Feed, f': Feed) {
    if f.queue == [] then f' == f else f' == Feed(f.taken + [f.queue[0]], f.queue[1..])
  }

  ghost predicate AllHappened(trace: seq<Moment>, steps: seq<Step>) {
    0 < |trace| <= |steps| + 1 && forall i :: 0 <= i < |trace| - 1 ==> Happened(trace[i], steps[i], trace[i + 1])
  }

  lemma StillStarted(a: Moment, step: Step, b: Moment)
    requires Happened(a, step, b) && (step.Happen? ==> Ordinary(step.event))
    ensures Started(a.board) ==> Started(b.board) && !(step.Happen? && Crashes(a.board, step.event))
  {
    hide Applied, Started, Ordinary, AllTold, Copy, Follows, Crashes;
    if step.Happen? && Started(a.board) {
      StartedStays(a.board, step.event, b.board);
    }
  }

  /** Setting a global statistic leaves it there, and every other one. */
  lemma SetStays(b: Board, e: Event, b': Board)
    requires Built(e) && e.source.None? && e.action.Set? && Applied(b, e, b')
    ensures e.name.value in b'.globals && forall n :: n in b.globals ==> n in b'.globals
  {
    assert Lookup(b', Key(None, e.name.value)).Some?;
    forall n | n in b.globals ensures n in b'.globals {
      var k := Key(None, n);
      assert Lookup(b, k).Some? && Lookup(b', k).Some?;
    }
  }

  lemma SnapshotNone(b: Board)
    ensures Snapshot(Replay([]), b, {})
  {
  }

  datatype Step = Join(id: nat) | Leave(id: nat) | Read(id: nat) | Happen(event: Event)
}
