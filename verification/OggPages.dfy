/**
 The header pages of an Ogg stream (src/format_ogg.c, src/refbuf.c): one linked list at a time, shared by the Ogg state and
 by every data page that was completed while it was current. Pages are named by their addresses, which are
 not reused.
 */
module OggPages {
  import opened Octets
  import opened Links

  /** A header page; `freed` counts how often its memory was given back. */
  datatype Page = Page(data: seq<byte>, bos: bool, next: Option<nat>, count: int, freed: nat)

  type Heap = seq<Page>

  /** The `next` links from the first page on run through `order`. */
  ghost predicate Chain(h: Heap, order: seq<nat>) {
    forall i :: 0 <= i < |order| ==> order[i] < |h| && h[order[i]].next == At(order, i + 1)
  }

  lemma EmptyChain(h: Heap)
    ensures Chain(h, [])
  {
  }

  /** `order` has exactly the pages of list `l`, each once. */
  ghost predicate Members(home: seq<nat>, order: seq<nat>, l: nat) {
    && (forall i :: 0 <= i < |order| ==> order[i] < |home| && home[order[i]] == l)
    && (forall a :: 0 <= a < |home| && home[a] == l ==> a in order)
    && (forall i, j :: 0 <= i < j < |order| ==> order[i] != order[j])
  }

  /** The live data pages that share list `l`. */
  function Users(belongs: map<nat, nat>, l: nat): (pages: set<nat>) {
    set d | d in belongs && belongs[d] == l
  }

  /** Who holds a reference on list `l`: the Ogg state on the last one, and its users. */
  function Owners(belongs: map<nat, nat>, l: nat, current: nat): (n: nat) {
    (if l == current then 1 else 0) + |Users(belongs, l)|
  }

  /** All pages of a list have the same count; a page is freed once, when nobody has it any more. */
  predicate Held(p: Page, owners: nat) {
    p.count == owners && p.freed == if owners == 0 then 1 else 0
  }

  ghost predicate Law(h: Heap, home: seq<nat>, belongs: map<nat, nat>, current: nat) {
    |home| == |h| && forall a :: 0 <= a < |h| ==> Held(h[a], Owners(belongs, home[a], current))
  }

  predicate Within(h: Heap, addresses: seq<nat>) {
    forall i :: 0 <= i < |addresses| ==> addresses[i] < |h|
  }

  /** All BOS pages in the order of their arrival, then all others (section 4 of RFC 3533). */
  function Ordered(h: Heap, arrived: seq<nat>): (order: seq<nat>)
    requires Within(h, arrived)
  {
    Pick(h, arrived, true) + Pick(h, arrived, false)
  }

  function Pick(h: Heap, arrived: seq<nat>, bos: bool): (order: seq<nat>)
    requires Within(h, arrived)
    ensures forall i :: 0 <= i < |order| ==> order[i] < |h| && h[order[i]].bos == bos
  {
    if arrived == [] then []
    else
      var a, rest := arrived[|arrived| - 1], Pick(h, arrived[..|arrived| - 1], bos);
      if h[a].bos == bos then rest + [a] else rest
  }

  /** New pages, and changes to links and counts, do not matter to it. */
  lemma {:induction false} PickKeeps(h: Heap, h': Heap, arrived: seq<nat>, bos: bool)
    requires |h| <= |h'| && forall a :: 0 <= a < |h| ==> h'[a].bos == h[a].bos
    requires Within(h, arrived)
    ensures Pick(h', arrived, bos) == Pick(h, arrived, bos)
  {
    if arrived != [] {
      PickKeeps(h, h', arrived[..|arrived| - 1], bos);
    }
  }

  lemma PickMore(h: Heap, arrived: seq<nat>, a: nat, bos: bool)
    requires a < |h| && Within(h, arrived)
    ensures Pick(h, arrived + [a], bos) == Pick(h, arrived, bos) + if h[a].bos == bos then [a] else []
  {
    assert (arrived + [a])[..|arrived|] == arrived;
  }

  // ---------- what the steps do to the law ----------

  lemma UsersMore(belongs: map<nat, nat>, d: nat, l: nat, current: nat, x: nat)
    requires d !in belongs
    ensures Owners(belongs[d := l], x, current) == Owners(belongs, x, current) + if x == l then 1 else 0
  {
    assert Users(belongs[d := l], x) == Users(belongs, x) + if x == l then {d} else {};
  }

  lemma UsersFewer(belongs: map<nat, nat>, d: nat, current: nat, x: nat)
    requires d in belongs
    ensures Owners(belongs - {d}, x, current) == Owners(belongs, x, current) - if x == belongs[d] then 1 else 0
  {
    var rest := belongs - {d};
    assert rest[d := belongs[d]] == belongs;
    UsersMore(rest, d, belongs[d], current, x);
  }

  /** refbuf_release of a page that somebody has. */
  function Let(p: Page): (p': Page) {
    p.(count := p.count - 1, freed := p.freed + if p.count == 1 then 1 else 0)
  }

  /** The pages of list `l` have changed their counts as they should; nothing but their links may have changed otherwise. */
  ghost predicate Passed(h: Heap, h': Heap, home: seq<nat>, l: nat, delta: int) {
    && |h'| == |h| == |home|
    && (forall a :: 0 <= a < |h| && home[a] != l ==> h'[a] == h[a])
    && (forall a :: 0 <= a < |h| && home[a] == l ==> h'[a] == Shared(h[a], delta).(next := h'[a].next))
  }

  /** The count of a page after one more or one fewer owner. */
  function Shared(p: Page, delta: int): (p': Page) {
    if delta == -1 then Let(p) else p.(count := p.count + delta)
  }

  /** The same while the first `i` pages of the list have been passed. */
  ghost predicate Halfway(h: Heap, h': Heap, home: seq<nat>, order: seq<nat>, l: nat, i: nat, delta: int) {
    && |h'| == |h| == |home| && i <= |order| && Members(home, order, l)
    && (forall a :: 0 <= a < |h| && home[a] != l ==> h'[a] == h[a])
    && (forall j :: i <= j < |order| ==> h'[order[j]] == h[order[j]])
    && (forall j :: 0 <= j < i ==> h'[order[j]] == Shared(h[order[j]], delta).(next := h'[order[j]].next))
    && LinksStay(h, h', delta)
  }

  /** Links may only be cut where the last reference goes. */
  ghost predicate LinksStay(h: Heap, h': Heap, delta: int) {
    |h'| == |h| && forall a :: 0 <= a < |h| && (delta != -1 || h[a].count != 1) ==> h'[a].next == h[a].next
  }

  lemma HalfwayStart(h: Heap, home: seq<nat>, order: seq<nat>, l: nat, delta: int)
    requires |home| == |h| && Members(home, order, l)
    ensures Halfway(h, h, home, order, l, 0, delta)
  {
  }

  lemma HalfwayStep(h: Heap, h': Heap, home: seq<nat>, order: seq<nat>, l: nat, i: nat, delta: int, p: Page)
    requires Halfway(h, h', home, order, l, i, delta) && i < |order|
    requires order[i] < |h| && p == Shared(h[order[i]], delta).(next := p.next)
    requires delta != -1 || h[order[i]].count != 1 ==> p.next == h[order[i]].next
    ensures Halfway(h, h'[order[i] := p], home, order, l, i + 1, delta)
  {
  }

  lemma HalfwayAt(h: Heap, h': Heap, home: seq<nat>, order: seq<nat>, l: nat, i: nat, delta: int)
    requires Halfway(h, h', home, order, l, i, delta) && Chain(h, order) && i < |order|
    ensures order[i] < |h| == |h'| && h'[order[i]] == h[order[i]] && h[order[i]].next == At(order, i + 1)
  {
  }

  lemma HalfwayDone(h: Heap, h': Heap, home: seq<nat>, order: seq<nat>, l: nat, delta: int)
    requires Halfway(h, h', home, order, l, |order|, delta)
    ensures Passed(h, h', home, l, delta) && LinksStay(h, h', delta)
  {
    forall a | 0 <= a < |h| && home[a] == l ensures h'[a] == Shared(h[a], delta).(next := h'[a].next) {
      var j :| 0 <= j < |order| && order[j] == a;
    }
  }

  lemma LawJoin(h: Heap, h': Heap, home: seq<nat>, belongs: map<nat, nat>, current: nat, d: nat)
    requires Law(h, home, belongs, current) && Passed(h, h', home, current, 1) && d !in belongs
    ensures Law(h', home, belongs[d := current], current)
  {
    hide Owners;
    forall a | 0 <= a < |h| ensures Held(h'[a], Owners(belongs[d := current], home[a], current)) {
      UsersMore(belongs, d, current, current, home[a]);
      CurrentOwned(belongs, current);
    }
  }

  lemma CurrentOwned(belongs: map<nat, nat>, current: nat)
    ensures Owners(belongs, current, current) >= 1
  {
  }

  lemma LawDrop(h: Heap, h': Heap, home: seq<nat>, belongs: map<nat, nat>, current: nat, d: nat)
    requires Law(h, home, belongs, current) && d in belongs && Passed(h, h', home, belongs[d], -1)
    ensures Law(h', home, belongs - {d}, current)
  {
    hide Owners;
    forall a | 0 <= a < |h| ensures Held(h'[a], Owners(belongs - {d}, home[a], current)) {
      UsersFewer(belongs, d, current, home[a]);
    }
  }

  /** The Ogg state lets go of its list and starts a new one. */
  lemma LawFree(h: Heap, h': Heap, home: seq<nat>, belongs: map<nat, nat>, current: nat)
    requires Law(h, home, belongs, current) && Passed(h, h', home, current, -1)
    requires forall a :: 0 <= a < |home| ==> home[a] <= current
    ensures Law(h', home, belongs, current + 1)
  {
    forall a | 0 <= a < |h| ensures Held(h'[a], Owners(belongs, home[a], current + 1)) {
      assert Owners(belongs, home[a], current + 1) == Owners(belongs, home[a], current) - if home[a] == current then 1 else 0;
    }
  }

  /** A new page has the Ogg state as its only owner, which is right exactly if its list has no users yet. */
  lemma LawAttach(h: Heap, h': Heap, home: seq<nat>, belongs: map<nat, nat>, current: nat)
    requires Law(h, home, belongs, current) && |h'| == |h| + 1
    requires forall a :: 0 <= a < |h| ==> h'[a].count == h[a].count && h'[a].freed == h[a].freed
    requires h'[|h|].count == 1 && h'[|h|].freed == 0
    ensures Law(h', home + [current], belongs, current) <==> Users(belongs, current) == {}
  {
    hide Users;
    var home' := home + [current];
    forall a | 0 <= a < |h| ensures Held(h'[a], Owners(belongs, home'[a], current)) {
      assert Held(h[a], Owners(belongs, home[a], current));
    }
    assert home'[|h|] == current;
    assert Law(h', home', belongs, current) <==> Held(h'[|h|], Owners(belongs, current, current));
  }
}
