/** The operations on the header pages: src/format_ogg.c and the release of associated pages in src/refbuf.c. */
module OggHeaders {
  import opened Octets
  import opened Links
  import opened OggPages

  /** Everything about the links of the lists and who uses them. */
  ghost predicate Linked(h: Heap, lists: seq<seq<nat>>, home: seq<nat>, belongs: map<nat, nat>) {
    && |lists| > 0 && |home| == |h|
    && (forall a :: 0 <= a < |home| ==> home[a] < |lists|)
    && (forall l :: 0 <= l < |lists| ==> Members(home, lists[l], l))
    && (forall l :: 0 <= l < |lists| && Owners(belongs, l, |lists| - 1) > 0 ==> Chain(h, lists[l]))
  }

  /** Every data page's `associated` is the first page of the list it belongs to. */
  ghost predicate Associated(lists: seq<seq<nat>>, belongs: map<nat, nat>, associated: map<nat, nat>) {
    belongs.Keys == associated.Keys &&
    forall d :: d in belongs ==> belongs[d] < |lists| && First(lists[belongs[d]]) == Some(associated[d])
  }

  /** The last list is in order, and the three pointers of the Ogg state are where they should be. */
  ghost predicate Current(h: Heap, list: seq<nat>, arrived: seq<nat>, headerPages: Option<nat>, tail: Option<nat>, bosEnd: Option<nat>) {
    && Within(h, arrived) && list == Ordered(h, arrived)
    && headerPages == First(list) && tail == Last(list) && bosEnd == Last(Pick(h, arrived, true))
  }

  lemma ChainKeeps(h: Heap, h': Heap, order: seq<nat>)
    requires Chain(h, order) && |h| <= |h'|
    requires forall i :: 0 <= i < |order| ==> order[i] < |h| ==> h'[order[i]].next == h[order[i]].next
    ensures Chain(h', order)
  {
  }

  /** A list whose owners change by one keeps its links as long as it has any. */
  lemma LinkedPass(h: Heap, h': Heap, lists: seq<seq<nat>>, home: seq<nat>, belongs: map<nat, nat>, belongs': map<nat, nat>,
                   l: nat, cur: nat, delta: int)
    requires Linked(h, lists, home, belongs) && cur == |lists| - 1 && Law(h, home, belongs, cur)
    requires Passed(h, h', home, l, delta) && LinksStay(h, h', delta) && -1 <= delta && Owners(belongs, l, cur) > 0
    requires forall x :: Owners(belongs', x, cur) == Owners(belongs, x, cur) + if x == l then delta else 0
    ensures Linked(h', lists, home, belongs')
  {
    hide Owners, Chain;
    forall x | 0 <= x < |lists| && Owners(belongs', x, cur) > 0 ensures Chain(h', lists[x]) {
      StillLinked(h, h', lists[x], home, x, l, delta, Owners(belongs, x, cur));
      ChainKeeps(h, h', lists[x]);
    }
  }

  lemma StillLinked(h: Heap, h': Heap, order: seq<nat>, home: seq<nat>, x: nat, l: nat, delta: int, owners: nat)
    requires |home| == |h| && Members(home, order, x) && Passed(h, h', home, l, delta) && LinksStay(h, h', delta)
    requires forall a :: 0 <= a < |h| && home[a] == x ==> Held(h[a], owners)
    requires x == l && delta == -1 ==> owners > 1
    ensures forall i :: 0 <= i < |order| ==> order[i] < |h| && h'[order[i]].next == h[order[i]].next
  {
  }

  /** The Ogg state gives up its list; a new one begins, empty. */
  lemma LinkedFree(h: Heap, h': Heap, lists: seq<seq<nat>>, home: seq<nat>, belongs: map<nat, nat>)
    requires Linked(h, lists, home, belongs) && Law(h, home, belongs, |lists| - 1)
    requires Passed(h, h', home, |lists| - 1, -1) && LinksStay(h, h', -1)
    ensures Linked(h', lists + [[]], home, belongs)
  {
    hide Chain, Users;
    var cur := |lists| - 1;
    forall x | 0 <= x < |lists| && Owners(belongs, x, cur + 1) > 0 ensures Chain(h', lists[x]) {
      StillLinked(h, h', lists[x], home, x, cur, -1, Owners(belongs, x, cur));
      ChainKeeps(h, h', lists[x]);
    }
    forall x | 0 <= x < |lists| + 1 ensures Members(home, (lists + [[]])[x], x) {
      assert x < |lists| ==> (lists + [[]])[x] == lists[x];
    }
    assert Chain(h', []) by { EmptyChain(h'); }
  }

  /** Links and counts do not matter to the order of the current list. */
  lemma CurrentKeeps(h: Heap, h': Heap, list: seq<nat>, arrived: seq<nat>, headerPages: Option<nat>, tail: Option<nat>, bosEnd: Option<nat>,
                     home: seq<nat>, l: nat, delta: int)
    requires Current(h, list, arrived, headerPages, tail, bosEnd) && Passed(h, h', home, l, delta)
    ensures Current(h', list, arrived, headerPages, tail, bosEnd)
  {
    hide Shared;
    SameKind(h, h', home, l, delta);
    PickKeeps(h, h', arrived, true);
    PickKeeps(h, h', arrived, false);
  }

  lemma SameKind(h: Heap, h': Heap, home: seq<nat>, l: nat, delta: int)
    requires Passed(h, h', home, l, delta)
    ensures |h'| == |h| && forall a :: 0 <= a < |h| ==> h'[a].bos == h[a].bos
  {
    forall a | 0 <= a < |h| ensures h'[a].bos == h[a].bos {
      assert home[a] == l || h'[a] == h[a];
    }
  }

  /** Somebody with a reference can rely on the pages being there. */
  lemma Alive(h: Heap, home: seq<nat>, belongs: map<nat, nat>, current: nat, order: seq<nat>, l: nat)
    requires Law(h, home, belongs, current) && Members(home, order, l) && Owners(belongs, l, current) > 0
    ensures forall i :: 0 <= i < |order| ==> order[i] < |h| && h[order[i]].freed == 0 && h[order[i]].count > 0
  {
  }

  lemma UserOwns(belongs: map<nat, nat>, d: nat, current: nat)
    requires d in belongs
    ensures Owners(belongs, belongs[d], current) > 0
  {
    assert d in Users(belongs, belongs[d]);
  }

  /** The list `left + right` with page `a` between its two parts. */
  function Inserted(h: Heap, left: seq<nat>, p: Page): (h': Heap)
    requires Within(h, left)
  {
    if left == [] then h + [p] else h[left[|left| - 1] := h[left[|left| - 1]].(next := Some(|h|))] + [p]
  }

  lemma InsertedChain(h: Heap, left: seq<nat>, right: seq<nat>, p: Page, home: seq<nat>, l: nat)
    requires |home| == |h| && Members(home, left + right, l) && Chain(h, left + right) && Within(h, left) && p.next == First(right)
    ensures Chain(Inserted(h, left, p), left + [|h|] + right)
  {
    hide Inserted, Members;
    var order, order', h' := left + right, left + [|h|] + right, Inserted(h, left, p);
    InsertedLength(h, left, p);
    InsertedLinks(h, left, right, p, home, l);
    forall i | 0 <= i < |order'| ensures order'[i] < |h'| && h'[order'[i]].next == At(order', i + 1) {
      if i < |left| {
        assert order'[i] == order[i];
      } else if i > |left| {
        assert order'[i] == order[i - 1];
      }
    }
  }

  /** Only the link of the last page before the new one changes. */
  lemma InsertedLinks(h: Heap, left: seq<nat>, right: seq<nat>, p: Page, home: seq<nat>, l: nat)
    requires |home| == |h| && Members(home, left + right, l) && Within(h, left)
    ensures var h', order := Inserted(h, left, p), left + right;
            && |h'| == |h| + 1
            && forall i :: 0 <= i < |order| ==>
                order[i] < |h| && h'[order[i]].next == if i == |left| - 1 then Some(|h|) else h[order[i]].next
  {
    var order := left + right;
    if left != [] {
      assert left[|left| - 1] == order[|left| - 1];
    }
  }

  lemma InsertedMembers(home: seq<nat>, left: seq<nat>, right: seq<nat>, l: nat)
    requires Members(home, left + right, l)
    ensures Members(home + [l], left + [|home|] + right, l)
  {
    var order, order' := left + right, left + [|home|] + right;
    forall i | 0 <= i < |order'| ensures order'[i] < |home| + 1 && (home + [l])[order'[i]] == l {
      assert i < |left| ==> order'[i] == order[i];
      assert i > |left| ==> order'[i] == order[i - 1];
    }
    forall i, j | 0 <= i < j < |order'| ensures order'[i] != order'[j] {
      var i', j' := if i > |left| then i - 1 else i, if j > |left| then j - 1 else j;
      assert i != |left| ==> order'[i] == order[i'];
      assert j != |left| ==> order'[j] == order[j'];
    }
    forall a | 0 <= a < |home| + 1 && (home + [l])[a] == l ensures a in order' {
      assert a < |home| ==> a in order;
    }
  }

  /** Nothing changes for the other lists. */
  lemma InsertedOthers(h: Heap, left: seq<nat>, right: seq<nat>, p: Page, home: seq<nat>, l: nat, other: seq<nat>, x: nat)
    requires |home| == |h| && Members(home, left + right, l) && Within(h, left) && Members(home, other, x) && x != l
    ensures Members(home + [l], other, x) && (Chain(h, other) ==> Chain(Inserted(h, left, p), other))
  {
    assert left != [] ==> (left + right)[|left| - 1] == left[|left| - 1];
    if Chain(h, other) {
      ChainKeeps(h, Inserted(h, left, p), other);
    }
  }

  /** Linking a page into the current list. */
  lemma LinkedAttach(h: Heap, lists: seq<seq<nat>>, home: seq<nat>, belongs: map<nat, nat>, left: seq<nat>, right: seq<nat>, p: Page)
    requires Linked(h, lists, home, belongs) && Within(h, left) && lists[|lists| - 1] == left + right && p.next == First(right)
    ensures Linked(Inserted(h, left, p), lists[|lists| - 1 := left + [|h|] + right], home + [|lists| - 1], belongs)
  {
    hide Members, Chain, Users, Inserted;
    var cur := |lists| - 1;
    var h', lists', home' := Inserted(h, left, p), lists[cur := left + [|h|] + right], home + [cur];
    InsertedChain(h, left, right, p, home, cur);
    InsertedMembers(home, left, right, cur);
    forall x | 0 <= x < |lists| ensures Members(home', lists'[x], x) && (Owners(belongs, x, cur) > 0 ==> Chain(h', lists'[x])) {
      if x != cur {
        InsertedOthers(h, left, right, p, home, cur, lists[x], x);
      }
    }
    InsertedLength(h, left, p);
  }

  lemma InsertedLength(h: Heap, left: seq<nat>, p: Page)
    requires Within(h, left)
    ensures var h' := Inserted(h, left, p);
            && |h'| == |h| + 1 && h'[|h|] == p
            && forall a :: 0 <= a < |h| ==> h'[a] == h[a].(next := h'[a].next)
  {
  }

  /** The pages before and after the place of a new page. */
  function Before(h: Heap, list: seq<nat>, arrived: seq<nat>, bos: bool): (left: seq<nat>)
    requires Within(h, arrived)
  {
    if bos then Pick(h, arrived, true) else list
  }

  function After(h: Heap, arrived: seq<nat>, bos: bool): (right: seq<nat>)
    requires Within(h, arrived)
  {
    if bos then Pick(h, arrived, false) else []
  }

  lemma Around(h: Heap, list: seq<nat>, arrived: seq<nat>, bos: bool)
    requires Within(h, arrived) && list == Ordered(h, arrived)
    ensures Within(h, Before(h, list, arrived, bos)) && list == Before(h, list, arrived, bos) + After(h, arrived, bos)
  {
    hide Pick;
  }

  /** The new list is in order, whichever kind of page was added. */
  lemma OrderedAttach(h: Heap, h': Heap, list: seq<nat>, arrived: seq<nat>)
    requires Within(h, arrived) && list == Ordered(h, arrived)
    requires |h'| == |h| + 1 && forall a :: 0 <= a < |h| ==> h'[a].bos == h[a].bos
    ensures var bos := h'[|h|].bos;
            && Within(h', arrived + [|h|])
            && Ordered(h', arrived + [|h|]) == Before(h, list, arrived, bos) + [|h|] + After(h, arrived, bos)
            && Last(Pick(h', arrived + [|h|], true)) == if bos then Some(|h|) else Last(Pick(h, arrived, true))
  {
    hide Pick;
    PickAttach(h, h', arrived, true);
    PickAttach(h, h', arrived, false);
    var b, o := Pick(h, arrived, true), Pick(h, arrived, false);
    assert b + [] == b && o + [] == o;
    assert b + (o + [|h|]) == b + o + [|h|] + [];
  }

  lemma CurrentAttach(h: Heap, list: seq<nat>, arrived: seq<nat>, headerPages: Option<nat>, tail: Option<nat>, bosEnd: Option<nat>, p: Page)
    requires Current(h, list, arrived, headerPages, tail, bosEnd)
    ensures var left, right := Before(h, list, arrived, p.bos), After(h, arrived, p.bos);
            && Within(h, left) && list == left + right
            && Current(Inserted(h, left, p), left + [|h|] + right, arrived + [|h|], if left == [] then Some(|h|) else headerPages,
                       if right == [] then Some(|h|) else tail, if p.bos then Some(|h|) else bosEnd)
  {
    hide Inserted, Pick, Ordered, Before, After;
    Around(h, list, arrived, p.bos);
    var left, right := Before(h, list, arrived, p.bos), After(h, arrived, p.bos);
    InsertedLength(h, left, p);
    OrderedAttach(h, Inserted(h, left, p), list, arrived);
    EndsAttach(left, right, |h|);
  }

  /** Where the three ends are seen from a new page. */
  lemma Placed(h: Heap, list: seq<nat>, arrived: seq<nat>, headerPages: Option<nat>, tail: Option<nat>, bosEnd: Option<nat>, bos: bool)
    requires Current(h, list, arrived, headerPages, tail, bosEnd)
    ensures var left, right := Before(h, list, arrived, bos), After(h, arrived, bos);
            && Within(h, left) && list == left + right && headerPages == First(list) && tail == Last(list)
            && (if bos then bosEnd == Last(left) else left == list && right == [])
  {
    hide Pick;
    Around(h, list, arrived, bos);
  }

  lemma EndsAttach(left: seq<nat>, right: seq<nat>, a: nat)
    ensures First(left + [a] + right) == if left == [] then Some(a) else First(left + right)
    ensures Last(left + [a] + right) == if right == [] then Some(a) else Last(left + right)
  {
  }

  lemma PickAttach(h: Heap, h': Heap, arrived: seq<nat>, bos: bool)
    requires Within(h, arrived) && |h'| == |h| + 1 && forall a :: 0 <= a < |h| ==> h'[a].bos == h[a].bos
    ensures Within(h', arrived + [|h|])
    ensures Pick(h', arrived + [|h|], bos) == Pick(h, arrived, bos) + if h'[|h|].bos == bos then [|h|] else []
  {
    PickKeeps(h, h', arrived, bos);
    PickMore(h', arrived, |h|, bos);
  }

  class State {
    var heap: Heap
    var headerPages: Option<nat>
    var tail: Option<nat>
    /** The page whose `next` is meant; none means the head of the list. */
    var bosEnd: Option<nat>
    /** For every live data page that has header pages, the first of them. */
    var associated: map<nat, nat>

    /** All lists, the current one last; the list of every page; that of every data page. */
    ghost var lists: seq<seq<nat>>
    ghost var home: seq<nat>
    ghost var belongs: map<nat, nat>
    /** The pages attached since the last list was started. */
    ghost var arrived: seq<nat>

    ghost predicate Valid()
      reads this
    {
      && |lists| > 0 && Linked(heap, lists, home, belongs) && Associated(lists, belongs, associated)
      && Current(heap, lists[|lists| - 1], arrived, headerPages, tail, bosEnd)
      && Law(heap, home, belongs, |lists| - 1)
    }

    constructor ()
      ensures Valid() && heap == [] && associated == map[] && arrived == []
    {
      heap, headerPages, tail, bosEnd, associated := [], None, None, None, map[];
      lists, home, belongs, arrived := [[]], [], map[], [];
    }

    /** A page is freed once, and only when the Ogg state and every data page that shared its list have let go. */
    lemma PageLife(a: nat)
      requires Valid() && a < |heap|
      ensures a < |home| && home[a] < |lists| && heap[a].freed <= 1
      ensures heap[a].freed == 0 <==> home[a] == |lists| - 1 || exists d :: d in belongs && belongs[d] == home[a]
      ensures heap[a].freed == 0 ==> heap[a].count == Owners(belongs, home[a], |lists| - 1) > 0
    {
      hide Members, Chain, Current, Associated;
      var users := Users(belongs, home[a]);
      assert Held(heap[a], Owners(belongs, home[a], |lists| - 1));
      if d :| d in belongs && belongs[d] == home[a] {
        assert d in users;
      }
      if users != {} {
        var d :| d in users;
        assert d in belongs && belongs[d] == home[a];
      }
    }

    ghost function Now(): (m: Moment)
      reads this
    {
      Moment(heap, headerPages, associated, arrived, lists, home, belongs)
    }

    /** Some live data page shares the current list. */
    predicate InUse()
      reads this
    {
      headerPages.Some? && exists d :: d in associated && associated[d] == headerPages.value
    }

    ghost function Cur(): (l: nat)
      reads this
      requires |lists| > 0
    {
      |lists| - 1
    }

    /** Release a list page by page; refbuf_release_associated also cuts the links of pages about to go. */
    method ReleaseList(head: Option<nat>, cut: bool, ghost order: seq<nat>, ghost l: nat)
      requires |home| == |heap| && Members(home, order, l) && Chain(heap, order) && head == First(order)
      requires forall i :: 0 <= i < |order| ==> heap[order[i]].freed == 0 && heap[order[i]].count > 0
      modifies `heap
      ensures Passed(old(heap), heap, home, l, -1) && LinksStay(old(heap), heap, -1)
    {
      hide Halfway, LinksStay, Members, Chain;
      var ref := head;
      ghost var i := 0;
      HalfwayStart(heap, home, order, l, -1);
      while ref.Some?
        invariant i <= |order| && ref == At(order, i) && Halfway(old(heap), heap, home, order, l, i, -1)
        decreases |order| - i
      {
        var toGo := ref.value;
        HalfwayAt(old(heap), heap, home, order, l, i, -1);
        var p := heap[toGo];
        ref := p.next;
        if cut && p.count == 1 {
          p := p.(next := None);
        }
        p := Let(p);
        HalfwayStep(old(heap), heap, home, order, l, i, -1, p);
        heap := heap[toGo := p];
        i := i + 1;
      }
      HalfwayDone(old(heap), heap, home, order, l, -1);
    }

    /** One more reference on every page of the current list. */
    method AddReferences(ghost order: seq<nat>, ghost l: nat)
      requires |home| == |heap| && Members(home, order, l) && Chain(heap, order) && headerPages == First(order)
      modifies `heap
      ensures Passed(old(heap), heap, home, l, 1) && LinksStay(old(heap), heap, 1)
    {
      hide Halfway, Chain, Members, LinksStay;
      var header := headerPages;
      ghost var i := 0;
      HalfwayStart(heap, home, order, l, 1);
      while header.Some?
        invariant i <= |order| && header == At(order, i) && Halfway(old(heap), heap, home, order, l, i, 1)
        decreases |order| - i
      {
        var a := header.value;
        HalfwayAt(old(heap), heap, home, order, l, i, 1);
        var p := heap[a].(count := heap[a].count + 1);
        HalfwayStep(old(heap), heap, home, order, l, i, 1, p);
        heap := heap[a := p];
        header := p.next;
        i := i + 1;
      }
      HalfwayDone(old(heap), heap, home, order, l, 1);
    }

    /**
     format_ogg_attach_header. The list is in order afterwards, whatever was attached; the reference counts are right if
     and only if no live data page shares the list yet.
     */
    method Attach(data: seq<byte>, bos: bool)
      requires Valid()
      modifies this
      ensures |lists| == |old(lists)| && |heap| == |old(heap)| + 1 && arrived == old(arrived) + [|old(heap)|]
      ensures heap[|old(heap)|].data == data && heap[|old(heap)|].bos == bos && associated == old(associated)
      ensures forall a :: 0 <= a < |old(heap)| ==> heap[a] == old(heap)[a].(next := heap[a].next)
      ensures Linked(heap, lists, home, belongs) && Current(heap, lists[|lists| - 1], arrived, headerPages, tail, bosEnd)
      ensures Valid() <==> !old(InUse())
    {
      hide Law, Linked, Associated, Users, Inserted, Pick, Ordered, Before, After;
      ghost var cur := Cur();
      Placed(heap, lists[cur], arrived, headerPages, tail, bosEnd, bos);
      ghost var left, right := Before(heap, lists[cur], arrived, bos), After(heap, arrived, bos);
      ghost var p := Page(data, bos, if bos then First(right) else None, 1, 0);
      CurrentAttach(heap, lists[cur], arrived, headerPages, tail, bosEnd, p);
      if bos {
        BosEnd(heap, lists, home, belongs, left, right);
        AttachBos(data, left, right);
      } else {
        AttachOther(data, left);
      }
      InsertedLength(old(heap), left, p);
      SharedNow(lists, home, belongs, associated, old(heap), old(headerPages));
      Attached(old(heap), lists, home, belongs, associated, left, right, p);
      arrived, home, lists := arrived + [|old(heap)|], home + [cur], lists[cur := left + [|old(heap)|] + right];
    }

    /** A BOS page goes behind the other BOS pages. */
    method AttachBos(data: seq<byte>, ghost left: seq<nat>, ghost right: seq<nat>)
      requires Within(heap, left) && headerPages == First(left + right) && tail == Last(left + right) && bosEnd == Last(left)
      requires left != [] ==> heap[left[|left| - 1]].next == First(right)
      modifies `heap, `headerPages, `tail, `bosEnd
      ensures heap == Inserted(old(heap), left, Page(data, true, First(right), 1, 0))
      ensures headerPages == (if left == [] then Some(|old(heap)|) else old(headerPages))
      ensures tail == (if right == [] then Some(|old(heap)|) else old(tail)) && bosEnd == Some(|old(heap)|)
    {
      var a := |heap|;
      var follower := if bosEnd.Some? then heap[bosEnd.value].next else headerPages;
      if follower.None? {
        tail := Some(a);
      }
      var refbuf := Page(data, true, follower, 1, 0);
      if bosEnd.Some? {
        heap := heap[bosEnd.value := heap[bosEnd.value].(next := Some(a))];
      } else {
        headerPages := Some(a);
      }
      heap := heap + [refbuf];
      bosEnd := Some(a);
    }

    /** Any other page goes to the end. */
    method AttachOther(data: seq<byte>, ghost list: seq<nat>)
      requires Within(heap, list) && headerPages == First(list) && tail == Last(list)
      modifies `heap, `headerPages, `tail
      ensures heap == Inserted(old(heap), list, Page(data, false, None, 1, 0))
      ensures headerPages == (if list == [] then Some(|old(heap)|) else old(headerPages)) && tail == Some(|old(heap)|)
    {
      var a := |heap|;
      if tail.Some? {
        heap := heap[tail.value := heap[tail.value].(next := Some(a))];
      }
      heap := heap + [Page(data, false, None, 1, 0)];
      tail := Some(a);
      if headerPages.None? {
        headerPages := Some(a);
      }
    }

    /** complete_buffer: data page `d` shares the current list, if there are any header pages. */
    method Complete(d: nat)
      requires Valid() && d !in associated
      modifies this
      ensures Valid() && associated == if headerPages.Some? then old(associated)[d := headerPages.value] else old(associated)
      ensures headerPages == old(headerPages) && tail == old(tail) && bosEnd == old(bosEnd) && arrived == old(arrived)
      ensures lists == old(lists) && home == old(home) && Passed(old(heap), heap, home, Cur(), if headerPages.Some? then 1 else 0)
    {
      hide Law, Linked, Current, Passed, LinksStay, Owners, Members, Chain;
      ghost var cur := Cur();
      OwnList(heap, lists, home, belongs, arrived, headerPages, tail, bosEnd);
      if headerPages.None? {
        NothingPassed(heap, home, cur);
        return;
      }
      AddReferences(lists[cur], cur);
      forall x ensures Owners(belongs[d := cur], x, cur) == Owners(belongs, x, cur) + if x == cur then 1 else 0 {
        UsersMore(belongs, d, cur, cur, x);
      }
      CurrentOwned(belongs, cur);
      LinkedPass(old(heap), heap, lists, home, belongs, belongs[d := cur], cur, cur, 1);
      CurrentKeeps(old(heap), heap, lists[cur], arrived, headerPages, tail, bosEnd, home, cur, 1);
      LawJoin(old(heap), heap, home, belongs, cur, d);
      associated, belongs := associated[d := headerPages.value], belongs[d := cur];
    }

    /** The last reference to data page `d` goes: refbuf_release_associated. */
    method Drop(d: nat)
      requires Valid()
      modifies this
      ensures Valid() && associated == old(associated) - {d} && lists == old(lists) && home == old(home)
      ensures headerPages == old(headerPages) && tail == old(tail) && bosEnd == old(bosEnd) && arrived == old(arrived)
      ensures d in old(associated) ==> d in old(belongs) && Passed(old(heap), heap, home, old(belongs)[d], -1)
      ensures d !in old(associated) ==> heap == old(heap)
    {
      hide Law, Linked, Current, Passed, LinksStay, Owners, Members, Chain;
      if d !in associated {
        assert associated - {d} == associated;
        return;
      }
      ghost var l, cur := belongs[d], Cur();
      UserOwns(belongs, d, cur);
      ListAt(heap, lists, home, belongs, l);
      Alive(heap, home, belongs, cur, lists[l], l);
      ReleaseList(Some(associated[d]), true, lists[l], l);
      forall x ensures Owners(belongs - {d}, x, cur) == Owners(belongs, x, cur) + if x == l then -1 else 0 {
        UsersFewer(belongs, d, cur, x);
      }
      LinkedPass(old(heap), heap, lists, home, belongs, belongs - {d}, l, cur, -1);
      CurrentKeeps(old(heap), heap, lists[cur], arrived, headerPages, tail, bosEnd, home, l, -1);
      LawDrop(old(heap), heap, home, belongs, cur, d);
      associated, belongs := associated - {d}, belongs - {d};
    }

    /** format_ogg_free_headers: the Ogg state lets go of its list. */
    method FreeHeaders()
      requires Valid()
      modifies this
      ensures Valid() && headerPages.None? && tail.None? && bosEnd.None? && associated == old(associated) && arrived == []
      ensures lists == old(lists) + [[]] && home == old(home) && Passed(old(heap), heap, home, old(Cur()), -1)
    {
      hide Law, Linked, Passed, LinksStay, Owners, Members, Chain;
      ghost var cur := Cur();
      OwnList(heap, lists, home, belongs, arrived, headerPages, tail, bosEnd);
      CurrentOwned(belongs, cur);
      Alive(heap, home, belongs, cur, lists[cur], cur);
      ReleaseList(headerPages, false, lists[cur], cur);
      LinkedFree(old(heap), heap, lists, home, belongs);
      LawFree(old(heap), heap, home, belongs, cur);
      headerPages, tail, bosEnd := None, None, None;
      lists, arrived := lists + [[]], [];
    }
  }

  datatype Step = Add(data: seq<byte>, bos: bool) | Use(d: nat) | Forget(d: nat) | Restart

  /** What there is to know of a state. */
  datatype Moment = Moment(heap: Heap, headerPages: Option<nat>, associated: map<nat, nat>, arrived: seq<nat>,
                           lists: seq<seq<nat>>, home: seq<nat>, belongs: map<nat, nat>)

  /** What a step makes of it. */
  ghost predicate Happened(a: Moment, step: Step, b: Moment) {
    match step
    case Add(data, bos) =>
      && |b.heap| == |a.heap| + 1 && b.heap[|a.heap|].data == data && b.heap[|a.heap|].bos == bos
      && (forall x :: 0 <= x < |a.heap| ==> b.heap[x] == a.heap[x].(next := b.heap[x].next))
      && b.arrived == a.arrived + [|a.heap|] && |b.lists| == |a.lists| && b.associated == a.associated
    case Use(d) =>
      if d in a.associated then b == a
      else
        && b.headerPages == a.headerPages && b.lists == a.lists && b.arrived == a.arrived && |a.lists| > 0
        && b.associated == (if a.headerPages.Some? then a.associated[d := a.headerPages.value] else a.associated)
        && Passed(a.heap, b.heap, a.home, |a.lists| - 1, if a.headerPages.Some? then 1 else 0)
    case Forget(d) =>
      && b.headerPages == a.headerPages && b.lists == a.lists && b.arrived == a.arrived && b.associated == a.associated - {d}
      && (if d in a.associated then d in a.belongs && Passed(a.heap, b.heap, a.home, a.belongs[d], -1) else b.heap == a.heap)
    case Restart =>
      && b.headerPages.None? && b.arrived == [] && b.lists == a.lists + [[]] && b.associated == a.associated
      && |a.lists| > 0 && Passed(a.heap, b.heap, a.home, |a.lists| - 1, -1)
  }

  ghost predicate AllHappened(trace: seq<Moment>, steps: seq<Step>) {
    0 < |trace| <= |steps| + 1 && forall i :: 0 <= i < |trace| - 1 ==> Happened(trace[i], steps[i], trace[i + 1])
  }

  /** One step, unless it would add a page to a list that a live data page shares. */
  method Do(s: State, step: Step) returns (done: bool)
    requires s.Valid()
    modifies s
    ensures s.Valid() && (if done then Happened(old(s.Now()), step, s.Now()) else step.Add? && s.InUse() && s.Now() == old(s.Now()))
  {
    hide Law, Linked, Associated, Current, Passed;
    match step {
      case Add(data, bos) =>
        if s.InUse() {
          return false;
        }
        s.Attach(data, bos);
      case Use(d) =>
        if d !in s.associated {
          s.Complete(d);
        }
      case Forget(d) =>
        s.Drop(d);
      case Restart =>
        s.FreeHeaders();
    }
    return true;
  }

  /**
   Every run keeps what `Valid` says, in whatever order data pages come and go and lists are given up, as long as no page is
   added to a list that a live data page shares: there the run ends. `trace` has the states it went through.
   */
  method Run(s: State, steps: seq<Step>) returns (completed: bool, ghost trace: seq<Moment>)
    requires s.Valid()
    modifies s
    ensures s.Valid() && AllHappened(trace, steps) && trace[0] == old(s.Now()) && trace[|trace| - 1] == s.Now()
    ensures if completed then |trace| == |steps| + 1 else |trace| <= |steps| && steps[|trace| - 1].Add? && s.InUse()
  {
    hide State.Valid, Happened;
    trace := [s.Now()];
    for i := 0 to |steps|
      invariant s.Valid() && AllHappened(trace, steps) && |trace| == i + 1 && trace[0] == old(s.Now()) && trace[i] == s.Now()
    {
      var done := Do(s, steps[i]);
      if !done {
        return false, trace;
      }
      trace := trace + [s.Now()];
    }
    completed := true;
  }

  lemma SharedNow(lists: seq<seq<nat>>, home: seq<nat>, belongs: map<nat, nat>, associated: map<nat, nat>, h: Heap, headerPages: Option<nat>)
    requires Linked(h, lists, home, belongs) && Associated(lists, belongs, associated) && headerPages == First(lists[|lists| - 1])
    ensures Users(belongs, |lists| - 1) != {} <==> headerPages.Some? && exists d :: d in associated && associated[d] == headerPages.value
  {
    hide Chain;
    var cur := |lists| - 1;
    if d :| d in associated && headerPages == Some(associated[d]) {
      assert lists[belongs[d]][0] == associated[d] == lists[cur][0];
      assert Members(home, lists[belongs[d]], belongs[d]) && Members(home, lists[cur], cur);
      assert d in Users(belongs, cur);
    }
    if Users(belongs, cur) != {} {
      var d :| d in Users(belongs, cur);
      assert d in associated && headerPages == Some(associated[d]);
    }
  }

  lemma ListAt(h: Heap, lists: seq<seq<nat>>, home: seq<nat>, belongs: map<nat, nat>, l: nat)
    requires Linked(h, lists, home, belongs) && l < |lists| && Owners(belongs, l, |lists| - 1) > 0
    ensures |home| == |h| && Members(home, lists[l], l) && Chain(h, lists[l])
  {
  }

  lemma OwnList(h: Heap, lists: seq<seq<nat>>, home: seq<nat>, belongs: map<nat, nat>, arrived: seq<nat>,
                headerPages: Option<nat>, tail: Option<nat>, bosEnd: Option<nat>)
    requires Linked(h, lists, home, belongs) && Current(h, lists[|lists| - 1], arrived, headerPages, tail, bosEnd)
    ensures |home| == |h| && Members(home, lists[|lists| - 1], |lists| - 1) && Chain(h, lists[|lists| - 1])
    ensures headerPages == First(lists[|lists| - 1]) && forall a :: 0 <= a < |home| ==> home[a] <= |lists| - 1
  {
    hide Members, Chain;
    CurrentOwned(belongs, |lists| - 1);
  }

  lemma NothingPassed(h: Heap, home: seq<nat>, l: nat)
    requires |home| == |h|
    ensures Passed(h, h, home, l, 0)
  {
  }

  /** What follows the last BOS page. */
  lemma BosEnd(h: Heap, lists: seq<seq<nat>>, home: seq<nat>, belongs: map<nat, nat>, left: seq<nat>, right: seq<nat>)
    requires Linked(h, lists, home, belongs) && lists[|lists| - 1] == left + right
    ensures left != [] ==> left[|left| - 1] < |h| && h[left[|left| - 1]].next == First(right)
    ensures left == [] ==> First(lists[|lists| - 1]) == First(right)
  {
    hide Users;
    var order := lists[|lists| - 1];
    assert Chain(h, order);
    if left != [] {
      assert order[|left| - 1] == left[|left| - 1];
    }
  }

  lemma Attached(h: Heap, lists: seq<seq<nat>>, home: seq<nat>, belongs: map<nat, nat>, associated: map<nat, nat>,
                 left: seq<nat>, right: seq<nat>, p: Page)
    requires |lists| > 0 && Linked(h, lists, home, belongs) && Law(h, home, belongs, |lists| - 1)
    requires Associated(lists, belongs, associated)
    requires Within(h, left) && lists[|lists| - 1] == left + right && p.next == First(right) && p.count == 1 && p.freed == 0
    ensures var cur := |lists| - 1;
            var h', lists', home' := Inserted(h, left, p), lists[cur := left + [|h|] + right], home + [cur];
            && Linked(h', lists', home', belongs)
            && (Law(h', home', belongs, cur) <==> Users(belongs, cur) == {})
            && (Users(belongs, cur) == {} ==> Associated(lists', belongs, associated))
  {
    hide Linked, Law, Inserted;
    LinkedAttach(h, lists, home, belongs, left, right, p);
    InsertedLength(h, left, p);
    LawAttach(h, Inserted(h, left, p), home, belongs, |lists| - 1);
    if Users(belongs, |lists| - 1) == {} {
      forall d | d in belongs ensures belongs[d] != |lists| - 1 {
        assert d in Users(belongs, belongs[d]);
      }
    }
  }

  /** One header page, shared by data page 0. */
  method SharedPage() returns (s: State)
    ensures fresh(s) && s.Valid() && |s.heap| == 1 && Chain(s.heap, [0]) && s.heap[0].data == [1]
    ensures s.associated == map[0 := 0] && s.headerPages == Some(0)
  {
    hide Law, Linked, Associated;
    s := new State();
    s.Attach([1], true);
    FirstPage(s.heap, s.lists[|s.lists| - 1], s.arrived);
    s.Complete(0);
    OwnList(s.heap, s.lists, s.home, s.belongs, s.arrived, s.headerPages, s.tail, s.bosEnd);
  }

  /** A page attached to a list that a data page shares: the counts are wrong. */
  method AttachShared() returns (s: State)
    ensures !s.Valid() && |s.heap| == 2 && s.associated == map[0 := 0]
  {
    hide State.Valid, Linked, Current, Chain;
    s := SharedPage();
    assert 0 in s.associated && s.associated[0] == 0;
    assert s.InUse();
    s.Attach([2], false);
  }

  /** The list of a single page. */
  lemma FirstPage(h: Heap, list: seq<nat>, arrived: seq<nat>)
    requires arrived == [0] && Within(h, arrived) && list == Ordered(h, arrived)
    ensures list == [0]
  {
    var none: seq<nat> := [];
    assert arrived == none + [0] && Within(h, none);
    PickMore(h, none, 0, true);
    PickMore(h, none, 0, false);
  }
}
