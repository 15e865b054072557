/**
 The two queues of src/connection.c: clients whose request headers are still being read, and those whose headers are
 complete. Both are linked lists with a pointer to their last link, edited in place.
 */
module RequestQueue {
  import opened Octets
  import opened Links

  /** What reading from a client has come to: more is needed, the headers are complete, or the client is lost. */
  datatype Verdict = Wait | Pass | Fail

  type Heap = map<nat, Option<nat>>

  /** `order` is linked from `head`; `tail` owns the last link, none meaning the head itself. */
  ghost predicate Queue(next: Heap, head: Option<nat>, tail: Option<nat>, order: seq<nat>) {
    head == First(order) && tail == Last(order) && Linked(next, order) && NoRepeat(order)
  }

  ghost predicate Linked(next: Heap, order: seq<nat>) {
    forall i :: 0 <= i < |order| ==> order[i] in next && next[order[i]] == At(order, i + 1)
  }

  ghost predicate NoRepeat(order: seq<nat>) {
    forall i, j :: 0 <= i < j < |order| ==> order[i] != order[j]
  }

  /** What remains of a list without its element at `k`. */
  function Without(order: seq<nat>, k: nat): (rest: seq<nat>)
    requires k < |order|
  {
    order[..k] + order[k + 1..]
  }

  /** The link that `ref` owns is set to `to`. */
  function Relinked(next: Heap, ref: Option<nat>, to: Option<nat>): (next': Heap) {
    if ref.Some? then next[ref.value := to] else next
  }

  lemma QueueWithout(next: Heap, head: Option<nat>, tail: Option<nat>, order: seq<nat>, k: nat)
    requires Queue(next, head, tail, order) && k < |order|
    ensures var ref, to := Last(order[..k]), At(order, k + 1);
            Queue(Relinked(next, ref, to), if ref.None? then to else head, if tail == Some(order[k]) then ref else tail, Without(order, k))
  {
    hide Relinked, Without, Linked, NoRepeat;
    WithoutLinked(next, order, k);
    WithoutEnds(order, k);
  }

  lemma WithoutLinked(next: Heap, order: seq<nat>, k: nat)
    requires Linked(next, order) && NoRepeat(order) && k < |order|
    ensures Linked(Relinked(next, Last(order[..k]), At(order, k + 1)), Without(order, k)) && NoRepeat(Without(order, k))
  {
    hide Relinked, Without, NoRepeat;
    var rest := Without(order, k);
    WithoutAt(order, k);
    WithoutNoRepeat(order, k);
    RelinkedAt(next, order, k, At(order, k + 1));
    var next' := Relinked(next, Last(order[..k]), At(order, k + 1));
    forall i | 0 <= i < |rest| ensures rest[i] in next' && next'[rest[i]] == At(rest, i + 1) {
      LinkWithout(order, rest, k, i);
      assert rest[i] == order[Skip(i, k)];
    }
  }

  lemma WithoutNoRepeat(order: seq<nat>, k: nat)
    requires NoRepeat(order) && k < |order|
    ensures NoRepeat(Without(order, k))
  {
    hide Without;
    WithoutAt(order, k);
    var rest := Without(order, k);
    forall i, j | 0 <= i < j < |rest| ensures rest[i] != rest[j] {
      assert rest[i] == order[Skip(i, k)] && rest[j] == order[Skip(j, k)];
    }
  }

  /** What follows an element when the one at `k` is gone. */
  lemma LinkWithout(order: seq<nat>, rest: seq<nat>, k: nat, i: nat)
    requires k < |order| && |rest| == |order| - 1 && i < |rest|
    requires forall m :: 0 <= m < |rest| ==> rest[m] == order[Skip(m, k)]
    ensures At(rest, i + 1) == if i == k - 1 then At(order, k + 1) else At(order, Skip(i, k) + 1)
  {
    assert i + 1 < |rest| ==> rest[i + 1] == order[Skip(i + 1, k)];
  }

  lemma WithoutEnds(order: seq<nat>, k: nat)
    requires k < |order| && NoRepeat(order)
    ensures First(Without(order, k)) == if k == 0 then At(order, 1) else First(order)
    ensures Last(Without(order, k)) == if Last(order) == Some(order[k]) then Last(order[..k]) else Last(order)
    ensures Last(order[..k]).None? <==> k == 0
  {
    hide Without;
    WithoutAt(order, k);
    var rest := Without(order, k);
    assert k + 1 < |order| ==> order[k] != order[|order| - 1];
    assert |rest| > 0 ==> rest[|rest| - 1] == order[Skip(|rest| - 1, k)] && rest[0] == order[Skip(0, k)];
  }

  function Skip(i: int, k: nat): (i': int) {
    if i < k then i else i + 1
  }

  lemma WithoutAt(order: seq<nat>, k: nat)
    requires k < |order|
    ensures |Without(order, k)| == |order| - 1
    ensures forall i :: 0 <= i < |order| - 1 ==> Without(order, k)[i] == order[Skip(i, k)]
  {
  }

  lemma RelinkedAt(next: Heap, order: seq<nat>, k: nat, to: Option<nat>)
    requires k <= |order| && NoRepeat(order) && forall i :: 0 <= i < |order| ==> order[i] in next
    ensures var next' := Relinked(next, Last(order[..k]), to);
            forall i :: 0 <= i < |order| ==> order[i] in next' && next'[order[i]] == if i == k - 1 then to else next[order[i]]
  {
    assert k > 0 ==> order[..k][k - 1] == order[k - 1];
  }

  lemma QueueAppended(next: Heap, head: Option<nat>, tail: Option<nat>, order: seq<nat>, node: nat)
    requires Queue(next, head, tail, order) && node !in order && node in next && next[node] == None
    ensures Queue(Relinked(next, tail, Some(node)), if tail.None? then Some(node) else head, Some(node), order + [node])
  {
  }

  /** Links of other nodes do not matter. */
  lemma QueueElsewhere(next: Heap, next': Heap, head: Option<nat>, tail: Option<nat>, order: seq<nat>)
    requires Queue(next, head, tail, order) && forall a :: a in order && a in next ==> a in next' && next'[a] == next[a]
    ensures Queue(next', head, tail, order)
  {
  }

  /** The nodes of a list with a given verdict, in order. */
  function Those(nodes: seq<nat>, verdict: nat -> Verdict, v: Verdict): (some: seq<nat>)
    ensures forall a :: a in some ==> a in nodes
  {
    if nodes == [] then []
    else Those(nodes[..|nodes| - 1], verdict, v) + if verdict(nodes[|nodes| - 1]) == v then [nodes[|nodes| - 1]] else []
  }

  lemma ThoseNext(nodes: seq<nat>, i: nat, verdict: nat -> Verdict, v: Verdict)
    requires i < |nodes|
    ensures Those(nodes[..i + 1], verdict, v) == Those(nodes[..i], verdict, v) + if verdict(nodes[i]) == v then [nodes[i]] else []
  {
    assert nodes[..i + 1][..i] == nodes[..i];
  }

  ghost predicate Apart(a: seq<nat>, b: seq<nat>) {
    forall x :: x in a ==> x !in b
  }

  /**
   Halfway through a pass over `all`: `i` nodes have been looked at, those that wait are the first of `req`, the rest is
   still to come.
   */
  ghost predicate Halfway(all: seq<nat>, i: nat, req: seq<nat>, verdict: nat -> Verdict) {
    i <= |all| && req == Those(all[..i], verdict, Wait) + all[i..]
  }

  lemma HalfwayNext(all: seq<nat>, i: nat, req: seq<nat>, verdict: nat -> Verdict)
    requires Halfway(all, i, req, verdict) && i < |all|
    ensures var k := |Those(all[..i], verdict, Wait)|;
            && k < |req| && req[k] == all[i] && req[..k] == Those(all[..i], verdict, Wait)
            && Halfway(all, i + 1, if verdict(all[i]) == Wait then req else Without(req, k), verdict)
            && Those(all[..i + 1], verdict, Wait) == if verdict(all[i]) == Wait then req[..k + 1] else req[..k]
  {
    hide Those;
    ThoseNext(all, i, verdict, Wait);
    var k := |Those(all[..i], verdict, Wait)|;
    assert req[..k] == Those(all[..i], verdict, Wait) && req[k] == all[i];
    assert all[i..] == [all[i]] + all[i + 1..];
    assert req[k + 1..] == all[i + 1..];
  }

  class Queues {
    /** The links of all nodes. */
    var next: Heap
    var reqHead: Option<nat>
    var reqTail: Option<nat>
    var conHead: Option<nat>
    var conTail: Option<nat>
    /** Clients that were destroyed. */
    ghost var lost: seq<nat>
    ghost var req: seq<nat>
    ghost var con: seq<nat>

    /** Both queues are well linked and have no node in common. */
    ghost predicate Valid()
      reads this
    {
      Queue(next, reqHead, reqTail, req) && Queue(next, conHead, conTail, con) && Apart(req, con)
    }

    constructor ()
      ensures Valid() && req == [] && con == [] && lost == [] && next == map[]
    {
      next, reqHead, reqTail, conHead, conTail := map[], None, None, None, None;
      lost, req, con := [], [], [];
    }

    /** _add_request_queue: a new node at the end. */
    method AddRequest(node: nat)
      requires Valid() && node !in next
      modifies this
      ensures Valid() && req == old(req) + [node] && con == old(con) && lost == old(lost)
    {
      hide Queue, Relinked;
      InHeap(next, reqHead, reqTail, req);
      InHeap(next, conHead, conTail, con);
      var created := next[node := None];
      QueueElsewhere(next, created, reqHead, reqTail, req);
      QueueElsewhere(next, created, conHead, conTail, con);
      QueueAppended(created, reqHead, reqTail, req, node);
      OwnsLast(next, reqHead, reqTail, req);
      RelinkedElsewhere(created, reqTail, Some(node), con);
      QueueElsewhere(created, Relinked(created, reqTail, Some(node)), conHead, conTail, con);
      next := Relinked(created, reqTail, Some(node));
      if reqTail.None? {
        reqHead := Some(node);
      }
      reqTail := Some(node);
      req := req + [node];
    }

    /** _add_connection: a node that is in no queue goes to the end of the connection queue. */
    method AddConnection(node: nat)
      requires Valid() && node in next && next[node] == None && node !in req && node !in con
      modifies `next, `conHead, `conTail, `con
      ensures Valid() && con == old(con) + [node] && next.Keys == old(next.Keys)
    {
      hide Queue, Relinked;
      QueueAppended(next, conHead, conTail, con, node);
      OwnsLast(next, conHead, conTail, con);
      RelinkedElsewhere(next, conTail, Some(node), req);
      QueueElsewhere(next, Relinked(next, conTail, Some(node)), reqHead, reqTail, req);
      RelinkedKeys(next, conHead, conTail, con, Some(node));
      next := Relinked(next, conTail, Some(node));
      if conTail.None? {
        conHead := Some(node);
      }
      conTail := Some(node);
      con := con + [node];
    }

    /** _get_connection: the first node of the connection queue. */
    method GetConnection() returns (node: Option<nat>)
      requires Valid()
      modifies `next, `conHead, `conTail, `con
      ensures Valid() && node == First(old(con)) && next.Keys == old(next.Keys)
      ensures con == if node.Some? then old(con)[1..] else []
    {
      hide Queue, Apart;
      node := conHead;
      HeadOf(next, conHead, conTail, con);
      if conHead.None? {
        return;
      }
      conHead := next[node.value];
      if conHead.None? {
        conTail := None;
      }
      con := con[1..];
      ApartRest(req, old(con));
      next := next[node.value := None];
      QueueElsewhere(old(next), next, reqHead, reqTail, req);
      QueueElsewhere(old(next), next, conHead, conTail, con);
    }

    /** What the link that `ref` owns points to. */
    function Deref(ref: Option<nat>): (node: Option<nat>)
      reads this
    {
      if ref.None? then reqHead else if ref.value in next then next[ref.value] else None
    }

    lemma DerefAt(ref: Option<nat>, k: nat)
      requires Valid() && k <= |req| && ref == Last(req[..k])
      ensures Deref(ref) == At(req, k)
    {
      if k > 0 {
        assert req[..k][k - 1] == req[k - 1];
      }
    }

    /** Take the node at place `k` out of the request queue; `ref` owns the link to it. */
    method Unlink(node: nat, ref: Option<nat>, ghost k: nat)
      requires Valid() && k < |req| && req[k] == node && ref == Last(req[..k])
      modifies `next, `reqHead, `reqTail, `req
      ensures Valid() && req == Without(old(req), k) && node in next && next.Keys == old(next.Keys)
      ensures node !in req && node !in con
    {
      hide Queue, Relinked;
      NodeAt(next, reqHead, reqTail, req, k);
      QueueWithout(next, reqHead, reqTail, req, k);
      RefOf(req, ref, k);
      RelinkedElsewhere(next, ref, next[node], con);
      QueueElsewhere(next, Relinked(next, ref, next[node]), conHead, conTail, con);
      RefKeys(next, reqHead, reqTail, req, k, next[node]);
      if reqTail == Some(node) {
        reqTail := ref;
      }
      if ref.None? {
        reqHead := next[node];
      }
      next := Relinked(next, ref, next[node]);
      req := Without(req, k);
      assert forall x :: x in req ==> x in old(req);
    }

    /** node->next = NULL, or the node is freed. */
    method Detach(node: nat, freed: bool)
      requires Valid() && node in next && node !in req && node !in con
      modifies `next
      ensures Valid() && next == if freed then old(next) - {node} else old(next)[node := None]
    {
      hide Queue;
      var next' := if freed then next - {node} else next[node := None];
      QueueElsewhere(next, next', reqHead, reqTail, req);
      QueueElsewhere(next, next', conHead, conTail, con);
      next := next';
    }

    /** What is done with the node at place `k`; the result owns the link to the next one. */
    method Dispatch(node: nat, v: Verdict, ref: Option<nat>, ghost k: nat) returns (ref': Option<nat>)
      requires Valid() && k < |req| && req[k] == node && ref == Last(req[..k])
      modifies this
      ensures Valid() && req == (if v == Wait then old(req) else Without(old(req), k))
      ensures con == old(con) + (if v == Pass then [node] else []) && lost == old(lost) + if v == Fail then [node] else []
      ensures ref' == if v == Wait then Some(node) else ref
    {
      hide Queue, Apart, Without;
      match v {
        case Pass =>
          Unlink(node, ref, k);
          Detach(node, false);
          AddConnection(node);
          return ref;
        case Fail =>
          Unlink(node, ref, k);
          Detach(node, true);
          lost := lost + [node];
          return ref;
        case Wait =>
          return Some(node);
      }
    }

    /**
     One pass of process_request_queue. The clients that wait stay, in order; those whose headers are complete join the
     connection queue, in order; only the others are destroyed.
     */
    method Process(verdict: nat -> Verdict)
      requires Valid()
      modifies this
      ensures Valid() && req == Those(old(req), verdict, Wait)
      ensures con == old(con) + Those(old(req), verdict, Pass) && lost == old(lost) + Those(old(req), verdict, Fail)
    {
      hide Queue, Apart, Without, Swept;
      var ref: Option<nat> := None;
      ghost var all, i, k := req, 0, 0;
      SweptStart(all, con, lost, verdict);
      DerefAt(ref, 0);
      while Deref(ref).Some?
        invariant Valid() && i <= |all| && k <= |req| && Swept(all, i, k, req, old(con), con, old(lost), lost, verdict)
        invariant ref == Last(req[..k]) && Deref(ref) == At(all, i)
        decreases |all| - i
      {
        ghost var before, con0, lost0 := req, con, lost;
        var node := Deref(ref).value;
        SweptAt(all, i, k, req, old(con), con, old(lost), lost, verdict);
        ref := Dispatch(node, verdict(node), ref, k);
        SweptNext(all, i, k, before, req, old(con), con0, con, old(lost), lost0, lost, verdict);
        i, k := i + 1, if verdict(node) == Wait then k + 1 else k;
        SweptAt(all, i, k, req, old(con), con, old(lost), lost, verdict);
        DerefAt(ref, k);
      }
      SweptEnd(all, k, req, old(con), con, old(lost), lost, verdict);
    }
  }

  /** `i` nodes of `all` have been dealt with; `k` of them stay. */
  ghost predicate Swept(all: seq<nat>, i: nat, k: nat, req: seq<nat>, con0: seq<nat>, con: seq<nat>, lost0: seq<nat>, lost: seq<nat>,
                        verdict: nat -> Verdict)
  {
    && Halfway(all, i, req, verdict) && k == |Those(all[..i], verdict, Wait)|
    && con == con0 + Those(all[..i], verdict, Pass) && lost == lost0 + Those(all[..i], verdict, Fail)
  }

  lemma SweptStart(all: seq<nat>, con: seq<nat>, lost: seq<nat>, verdict: nat -> Verdict)
    ensures Swept(all, 0, 0, all, con, con, lost, lost, verdict) && all[..0] == []
  {
    Begin(all, con, lost, verdict);
  }

  lemma SweptAt(all: seq<nat>, i: nat, k: nat, req: seq<nat>, con0: seq<nat>, con: seq<nat>, lost0: seq<nat>, lost: seq<nat>,
                verdict: nat -> Verdict)
    requires Swept(all, i, k, req, con0, con, lost0, lost, verdict)
    ensures k <= |req| && At(req, k) == At(all, i) && i <= |all|
  {
    hide Those;
    HalfwayAt(all, i, req, verdict);
  }

  lemma SweptNext(all: seq<nat>, i: nat, k: nat, req: seq<nat>, req': seq<nat>, con0: seq<nat>, con: seq<nat>, con': seq<nat>,
                  lost0: seq<nat>, lost: seq<nat>, lost': seq<nat>, verdict: nat -> Verdict)
    requires Swept(all, i, k, req, con0, con, lost0, lost, verdict) && i < |all| && k < |req|
    requires req' == (if verdict(all[i]) == Wait then req else Without(req, k))
    requires con' == con + (if verdict(all[i]) == Pass then [all[i]] else [])
    requires lost' == lost + (if verdict(all[i]) == Fail then [all[i]] else [])
    ensures Swept(all, i + 1, if verdict(all[i]) == Wait then k + 1 else k, req', con0, con', lost0, lost', verdict)
    ensures req'[..k] == req[..k]
  {
    hide Those, Halfway;
    HalfwayNext(all, i, req, verdict);
    ThoseNext(all, i, verdict, Pass);
    ThoseNext(all, i, verdict, Fail);
  }

  lemma SweptEnd(all: seq<nat>, k: nat, req: seq<nat>, con0: seq<nat>, con: seq<nat>, lost0: seq<nat>, lost: seq<nat>,
                 verdict: nat -> Verdict)
    requires Swept(all, |all|, k, req, con0, con, lost0, lost, verdict)
    ensures req == Those(all, verdict, Wait) && con == con0 + Those(all, verdict, Pass) && lost == lost0 + Those(all, verdict, Fail)
  {
    hide Those;
    Finish(all, req, verdict);
  }

  lemma Begin(all: seq<nat>, con: seq<nat>, lost: seq<nat>, verdict: nat -> Verdict)
    ensures Halfway(all, 0, all, verdict) && forall v :: Those(all[..0], verdict, v) == []
    ensures con + [] == con && lost + [] == lost
  {
    assert all[..0] == [] && [] + all[0..] == all;
  }

  lemma Finish(all: seq<nat>, req: seq<nat>, verdict: nat -> Verdict)
    requires Halfway(all, |all|, req, verdict)
    ensures req == Those(all, verdict, Wait) && all[..|all|] == all
  {
    assert all[..|all|] == all;
  }

  lemma HalfwayAt(all: seq<nat>, i: nat, req: seq<nat>, verdict: nat -> Verdict)
    requires Halfway(all, i, req, verdict)
    ensures var k := |Those(all[..i], verdict, Wait)|;
            k <= |req| && req[..k] == Those(all[..i], verdict, Wait) && At(req, k) == At(all, i)
  {
    hide Those;
    var k := |Those(all[..i], verdict, Wait)|;
    assert req[..k] == Those(all[..i], verdict, Wait);
  }

  /** Taking the head of a queue. */
  lemma HeadOf(next: Heap, head: Option<nat>, tail: Option<nat>, order: seq<nat>)
    requires Queue(next, head, tail, order)
    ensures head == First(order)
    ensures order != [] ==> order[0] in next && order[0] !in order[1..]
    ensures order != [] ==> Queue(next, next[order[0]], if next[order[0]].None? then None else tail, order[1..])
  {
  }

  lemma ApartRest(a: seq<nat>, b: seq<nat>)
    requires Apart(a, b) && b != []
    ensures Apart(a, b[1..]) && b[0] !in a
  {
  }

  lemma InHeap(next: Heap, head: Option<nat>, tail: Option<nat>, order: seq<nat>)
    requires Queue(next, head, tail, order)
    ensures forall x :: x in order ==> x in next
  {
  }

  lemma NodeAt(next: Heap, head: Option<nat>, tail: Option<nat>, order: seq<nat>, k: nat)
    requires Queue(next, head, tail, order) && k < |order|
    ensures order[k] in next && next[order[k]] == At(order, k + 1) && order[k] !in Without(order, k)
  {
  }

  lemma RefOf(order: seq<nat>, ref: Option<nat>, k: nat)
    requires k <= |order| && ref == Last(order[..k])
    ensures ref.Some? ==> ref.value in order
  {
  }

  lemma OwnsLast(next: Heap, head: Option<nat>, tail: Option<nat>, order: seq<nat>)
    requires Queue(next, head, tail, order)
    ensures tail.Some? ==> tail.value in order
  {
  }

  lemma RelinkedElsewhere(next: Heap, ref: Option<nat>, to: Option<nat>, other: seq<nat>)
    requires ref.Some? ==> ref.value !in other
    ensures forall a :: a in other && a in next ==> a in Relinked(next, ref, to) && Relinked(next, ref, to)[a] == next[a]
  {
  }

  lemma RelinkedKeys(next: Heap, head: Option<nat>, tail: Option<nat>, order: seq<nat>, to: Option<nat>)
    requires Queue(next, head, tail, order)
    ensures Relinked(next, tail, to).Keys == next.Keys
  {
  }

  lemma RefKeys(next: Heap, head: Option<nat>, tail: Option<nat>, order: seq<nat>, k: nat, to: Option<nat>)
    requires Queue(next, head, tail, order) && k <= |order|
    ensures Relinked(next, Last(order[..k]), to).Keys == next.Keys
  {
    assert k > 0 ==> order[..k][k - 1] == order[k - 1];
  }
}
