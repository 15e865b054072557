/** Bringing the list of running relays in line with a new configuration (src/slave.c). */
module Relays {
  import opened Octets

  datatype Config = Config(localmount: string, mount: string, server: string, port: int, mp3metadata: bool,
                           onDemand: bool, login: Option<string>)

  /** A relay of the running list; `id` tells nodes apart. */
  datatype Node = Node(id: nat, config: Config)

  /** What decides whether a running relay serves a configuration: not the on-demand flag, nor the login. */
  datatype Key = Key(localmount: string, mount: string, server: string, port: int, mp3metadata: bool)

  function KeyOf(c: Config): (k: Key) {
    Key(c.localmount, c.mount, c.server, c.port, c.mp3metadata)
  }

  function NodeKeys(nodes: seq<Node>): (keys: seq<Key>) {
    seq(|nodes|, i requires 0 <= i < |nodes| => KeyOf(nodes[i].config))
  }

  function ConfigKeys(configs: seq<Config>): (keys: seq<Key>) {
    seq(|configs|, i requires 0 <= i < |configs| => KeyOf(configs[i]))
  }

  function Ids(nodes: seq<Node>): (ids: seq<nat>) {
    seq(|nodes|, i requires 0 <= i < |nodes| => nodes[i].id)
  }

  /** No two nodes have the same id, and the counter is ahead of them all. */
  ghost predicate Unique(ids: multiset<nat>, nextId: nat) {
    forall id :: id in ids ==> ids[id] == 1 && id < nextId
  }

  /** A kept relay takes over the on-demand flag and nothing else. */
  function Adopted(o: Node, c: Config): (n: Node) {
    o.(config := o.config.(onDemand := c.onDemand))
  }

  /** `n` is the relay for `c`: the running relay `o` kept, or a new one made from the configuration. */
  predicate Serves(n: Node, c: Config, o: Option<Node>) {
    if o.Some? then KeyOf(o.value.config) == KeyOf(c) && n == Adopted(o.value, c) else n.config == c
  }

  /** A kept relay is configured as asked if and only if the user name and password have not changed. */
  lemma KeptLogin(n: Node, c: Config, o: Option<Node>)
    requires Serves(n, c, o)
    ensures n.config == c <==> o.None? || o.value.config.login == c.login
    ensures KeyOf(n.config) == KeyOf(c) && n.config.onDemand == c.onDemand
  {
  }

  /** A relay whose password was changed goes on with the old one. */
  lemma OldLoginKept()
    ensures var was := Config("/a", "/b", "host", 8000, true, false, Some("first"));
            var c := was.(login := Some("second"));
            Serves(Node(0, was), c, Some(Node(0, was))) && was != c
  {
    var was := Config("/a", "/b", "host", 8000, true, false, Some("first"));
    assert Adopted(Node(0, was), was.(login := Some("second"))) == Node(0, was);
    assert "first"[0] != "second"[0];
  }

  /** The running relays that were kept. */
  function Kept(origin: seq<Option<Node>>): (nodes: seq<Node>) {
    if origin == [] then [] else (if origin[0].Some? then [origin[0].value] else []) + Kept(origin[1..])
  }

  lemma KeptMore(o: Option<Node>, origin: seq<Option<Node>>)
    ensures multiset(Kept([o] + origin)) == multiset(Kept(origin)) + if o.Some? then multiset{o.value} else multiset{}
  {
    assert ([o] + origin)[1..] == origin;
  }

  lemma KeysWithout(nodes: seq<Node>, k: nat)
    requires k < |nodes|
    ensures multiset(nodes) == multiset(nodes[..k] + nodes[k + 1..]) + multiset{nodes[k]}
    ensures multiset(NodeKeys(nodes)) == multiset(NodeKeys(nodes[..k] + nodes[k + 1..])) + multiset{KeyOf(nodes[k].config)}
    ensures multiset(Ids(nodes)) == multiset(Ids(nodes[..k] + nodes[k + 1..])) + multiset{nodes[k].id}
  {
    var ids := Ids(nodes);
    assert ids == ids[..k] + [nodes[k].id] + ids[k + 1..];
    assert Ids(nodes[..k] + nodes[k + 1..]) == ids[..k] + ids[k + 1..];
    assert nodes == nodes[..k] + [nodes[k]] + nodes[k + 1..];
    var keys, key := NodeKeys(nodes), KeyOf(nodes[k].config);
    assert keys == keys[..k] + [key] + keys[k + 1..];
    assert NodeKeys(nodes[..k] + nodes[k + 1..]) == keys[..k] + keys[k + 1..];
  }

  lemma ConfigKeysNext(configs: seq<Config>, i: nat)
    requires i < |configs|
    ensures multiset(ConfigKeys(configs[..i + 1])) == multiset(ConfigKeys(configs[..i])) + multiset{KeyOf(configs[i])}
  {
    assert ConfigKeys(configs[..i + 1]) == ConfigKeys(configs[..i]) + [KeyOf(configs[i])];
  }

  /** The relays for the first `|list|` configurations, the latest first. */
  ghost predicate InStep(list: seq<Node>, origin: seq<Option<Node>>, updated: seq<Config>) {
    |origin| == |list| <= |updated| && forall i :: 0 <= i < |list| ==> Serves(list[|list| - 1 - i], updated[i], origin[|list| - 1 - i])
  }

  lemma InStepNext(list: seq<Node>, origin: seq<Option<Node>>, updated: seq<Config>, n: Node, o: Option<Node>)
    requires InStep(list, origin, updated) && |list| < |updated| && Serves(n, updated[|list|], o)
    ensures InStep([n] + list, [o] + origin, updated)
  {
  }

  /** Nodes that are not in the running list yet. */
  predicate Fresh(list: seq<Node>, origin: seq<Option<Node>>, from: nat)
    requires |origin| == |list|
  {
    forall i :: 0 <= i < |list| && origin[i].None? ==> list[i].id >= from
  }

  class RelayList {
    var relays: seq<Node>
    var nextId: nat

    ghost predicate Valid()
      reads this
    {
      Unique(multiset(Ids(relays)), nextId)
    }

    constructor ()
      ensures Valid() && relays == [] && nextId == 0
    {
      relays, nextId := [], 0;
    }

    /** The first running relay that can be kept for `c`, if there is one. */
    static method Find(current: seq<Node>, c: Config) returns (k: nat)
      ensures k <= |current| && (k < |current| ==> KeyOf(current[k].config) == KeyOf(c))
      ensures k == |current| <==> KeyOf(c) !in NodeKeys(current)
    {
      k := 0;
      while k < |current|
        invariant k <= |current| && forall i :: 0 <= i < k ==> NodeKeys(current)[i] != KeyOf(c)
      {
        if c.localmount == current[k].config.localmount && !HasChanged(c, current[k].config) {
          assert NodeKeys(current)[k] == KeyOf(c);
          return;
        }
        k := k + 1;
      }
    }

    /** relay_has_changed, apart from the flag it sets. */
    static predicate HasChanged(c: Config, o: Config) {
      c.mount != o.mount || c.server != o.server || c.port != o.port || c.mp3metadata != o.mp3metadata
    }

    /**
     update_relays. Every configuration gets one relay, in reverse order. No running relay is lost or used twice: each is
     kept or returned for cleanup. As many are kept as there can be: what is returned is, key by key, what the old
     list has more than the configuration. A new relay differs from every node there ever was.
     */
    method UpdateRelays(updated: seq<Config>) returns (cleanup: seq<Node>, ghost origin: seq<Option<Node>>)
      requires Valid()
      modifies this
      ensures Valid() && Unique(multiset(Ids(relays)) + multiset(Ids(cleanup)), nextId)
      ensures |relays| == |updated| && InStep(relays, origin, updated) && Fresh(relays, origin, old(nextId))
      ensures Split(old(relays), origin, cleanup) && Spare(old(relays), updated, cleanup)
    {
      hide InStep, Kept, NodeKeys, ConfigKeys, Serves, KeyOf, Spare, Split, Ids, Unique;
      var current, newList: seq<Node> := relays, [];
      origin := [];
      NothingYet(relays, updated);
      assert multiset(Ids(newList)) + multiset(Ids(current)) == multiset(Ids(relays)) by { NoIds(); }
      for i := 0 to |updated|
        invariant |newList| == i == |origin| && InStep(newList, origin, updated) && Fresh(newList, origin, old(nextId)) && nextId >= old(nextId)
        invariant Split(old(relays), origin, current) && Spare(old(relays), updated[..i], current)
        invariant Unique(multiset(Ids(newList)) + multiset(Ids(current)), nextId)
      {
        ghost var o;
        ghost var before := current;
        var relay;
        relay, current, o := Choose(current, updated[i], nextId);
        UniqueNext(newList, before, current, relay, o, nextId);
        nextId := nextId + 1;
        InStepNext(newList, origin, updated, relay, o);
        SplitNext(old(relays), origin, before, current, o);
        SpareNext(old(relays), updated, i, before, current);
        newList, origin := [relay] + newList, [o] + origin;
      }
      assert updated[..|updated|] == updated;
      UniquePart(multiset(Ids(newList)), multiset(Ids(current)), nextId);
      cleanup := current;
      relays := newList;
    }

    /** Keep a running relay for `c`, or make a new one. */
    static method Choose(current: seq<Node>, c: Config, id: nat) returns (relay: Node, rest: seq<Node>, ghost o: Option<Node>)
      ensures Serves(relay, c, o) && (o.None? ==> relay.id == id)
      ensures multiset(rest) + (if o.Some? then multiset{o.value} else multiset{}) == multiset(current)
      ensures multiset(NodeKeys(rest)) == multiset(NodeKeys(current)) - multiset{KeyOf(c)}
      ensures multiset(Ids(rest)) + (if o.Some? then multiset{relay.id} else multiset{}) == multiset(Ids(current))
    {
      hide NodeKeys, Ids;
      var k := Find(current, c);
      if k == |current| {
        return Node(id, c), current, None;
      }
      KeysWithout(current, k);
      return Adopted(current[k], c), current[..k] + current[k + 1..], Some(current[k]);
    }
  }

  lemma UniqueNext(list: seq<Node>, before: seq<Node>, current: seq<Node>, relay: Node, o: Option<Node>, nextId: nat)
    requires Unique(multiset(Ids(list)) + multiset(Ids(before)), nextId) && (o.None? ==> relay.id == nextId)
    requires multiset(Ids(current)) + (if o.Some? then multiset{relay.id} else multiset{}) == multiset(Ids(before))
    ensures Unique(multiset(Ids([relay] + list)) + multiset(Ids(current)), nextId + 1)
  {
    assert Ids([relay] + list) == [relay.id] + Ids(list);
    hide Ids;
    var ids, ids' := multiset(Ids(list)) + multiset(Ids(before)), multiset(Ids([relay] + list)) + multiset(Ids(current));
    if o.Some? {
      assert ids' == ids;
    } else {
      assert ids' == ids + multiset{nextId} && nextId !in ids;
    }
  }

  lemma UniquePart(a: multiset<nat>, b: multiset<nat>, nextId: nat)
    requires Unique(a + b, nextId)
    ensures Unique(a, nextId)
  {
    forall id | id in a ensures a[id] == 1 && id < nextId {
      assert id in a + b;
    }
  }

  /** Every running relay is either kept or still in `current`. */
  ghost predicate Split(all: seq<Node>, origin: seq<Option<Node>>, current: seq<Node>) {
    multiset(Kept(origin)) + multiset(current) == multiset(all)
  }

  lemma SplitNext(all: seq<Node>, origin: seq<Option<Node>>, current: seq<Node>, rest: seq<Node>, o: Option<Node>)
    requires Split(all, origin, current)
    requires multiset(rest) + (if o.Some? then multiset{o.value} else multiset{}) == multiset(current)
    ensures Split(all, [o] + origin, rest)
  {
    hide Kept;
    KeptMore(o, origin);
  }

  /** What is left has the keys that `done` does not account for. */
  ghost predicate Spare(all: seq<Node>, done: seq<Config>, current: seq<Node>) {
    multiset(NodeKeys(current)) == multiset(NodeKeys(all)) - multiset(ConfigKeys(done))
  }

  lemma SpareNext(all: seq<Node>, updated: seq<Config>, i: nat, current: seq<Node>, rest: seq<Node>)
    requires i < |updated| && Spare(all, updated[..i], current)
    requires multiset(NodeKeys(rest)) == multiset(NodeKeys(current)) - multiset{KeyOf(updated[i])}
    ensures Spare(all, updated[..i + 1], rest)
  {
    hide NodeKeys, ConfigKeys;
    ConfigKeysNext(updated, i);
  }

  lemma NoIds()
    ensures Ids([]) == []
  {
  }

  lemma NothingYet(relays: seq<Node>, updated: seq<Config>)
    ensures InStep([], [], updated) && Split(relays, [], relays) && Spare(relays, updated[..0], relays)
  {
    assert ConfigKeys(updated[..0]) == [];
  }

  /** Bringing a list in line with the same configuration again returns nothing: every relay is kept. */
  lemma SecondUpdate(list: seq<Node>, origin: seq<Option<Node>>, updated: seq<Config>, cleanup: seq<Node>)
    requires InStep(list, origin, updated) && |list| == |updated| && Spare(list, updated, cleanup)
    ensures cleanup == []
  {
    SameKeys(list, origin, updated, |list|);
    assert list[0..] == list && updated[..|updated|] == updated;
    assert |NodeKeys(cleanup)| == |multiset(NodeKeys(cleanup))| == 0;
  }

  lemma {:induction false} SameKeys(list: seq<Node>, origin: seq<Option<Node>>, updated: seq<Config>, n: nat)
    requires InStep(list, origin, updated) && |list| == |updated| && n <= |updated|
    ensures multiset(NodeKeys(list[|list| - n..])) == multiset(ConfigKeys(updated[..n]))
  {
    hide NodeKeys, ConfigKeys, InStep;
    if n == 0 {
      assert list[|list|..] == [] && updated[..0] == [];
      NoKeys();
    } else {
      SameKeys(list, origin, updated, n - 1);
      SameKeysNext(list, origin, updated, n);
    }
  }

  lemma NoKeys()
    ensures NodeKeys([]) == [] && ConfigKeys([]) == []
  {
  }

  lemma SameKeysNext(list: seq<Node>, origin: seq<Option<Node>>, updated: seq<Config>, n: nat)
    requires InStep(list, origin, updated) && |list| == |updated| && 0 < n <= |updated|
    requires multiset(NodeKeys(list[|list| - (n - 1)..])) == multiset(ConfigKeys(updated[..n - 1]))
    ensures multiset(NodeKeys(list[|list| - n..])) == multiset(ConfigKeys(updated[..n]))
  {
    hide NodeKeys, ConfigKeys;
    var at := |list| - n;
    assert Serves(list[at], updated[n - 1], origin[at]) && KeyOf(list[at].config) == KeyOf(updated[n - 1]);
    assert list[at..] == [list[at]] + list[at + 1..];
    FirstKey(list[at], list[at + 1..]);
    ConfigKeysNext(updated, n - 1);
  }

  lemma FirstKey(n: Node, nodes: seq<Node>)
    ensures multiset(NodeKeys([n] + nodes)) == multiset(NodeKeys(nodes)) + multiset{KeyOf(n.config)}
  {
    assert NodeKeys([n] + nodes) == [KeyOf(n.config)] + NodeKeys(nodes);
  }
}
