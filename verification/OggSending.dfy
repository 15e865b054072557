/** Sending Ogg data to a listener (src/format_ogg.c): the header pages of a data page first, all of them, in order. */
module OggSending {
  import opened Octets
  import opened Links
  import opened OggPages

  /** One attempt to send a header page: `n` bytes of it were taken; `full` means all. Every attempt starts at its first byte. */
  datatype Attempt = Attempt(page: nat, n: nat, full: bool)

  /** The attempts that got a page across. */
  function Fulls(log: seq<Attempt>): (pages: seq<nat>) {
    if log == [] then []
    else Fulls(log[..|log| - 1]) + if log[|log| - 1].full then [log[|log| - 1].page] else []
  }

  /** How many bytes the attempts got across. */
  function Taken(log: seq<Attempt>): (n: nat) {
    if log == [] then 0 else Taken(log[..|log| - 1]) + log[|log| - 1].n
  }

  predicate Plausible(h: Heap, a: Attempt) {
    a.page < |h| && a.n <= |h[a.page].data| && (a.full ==> a.n == |h[a.page].data|)
  }

  ghost predicate Attempts(h: Heap, log: seq<Attempt>) {
    forall i :: 0 <= i < |log| ==> Plausible(h, log[i])
  }

  /** What the attempts put on the wire. */
  function Wire(h: Heap, log: seq<Attempt>): (bytes: seq<byte>)
    requires Attempts(h, log)
  {
    if log == [] then []
    else
      var a := log[|log| - 1];
      Wire(h, log[..|log| - 1]) + h[a.page].data[..a.n]
  }

  function PageBytes(h: Heap, order: seq<nat>): (bytes: seq<byte>)
    requires Within(h, order)
  {
    if order == [] then [] else PageBytes(h, order[..|order| - 1]) + h[order[|order| - 1]].data
  }

  /** No attempt stopped in the middle of a page. */
  predicate NoneCut(log: seq<Attempt>) {
    forall i :: 0 <= i < |log| && !log[i].full ==> log[i].n == 0
  }

  /** A page that was cut short is sent again from its start: the wire is exact if and only if that never happened. */
  lemma {:induction false} WireExact(h: Heap, log: seq<Attempt>)
    requires Attempts(h, log)
    ensures Within(h, Fulls(log)) && |Wire(h, log)| >= |PageBytes(h, Fulls(log))|
    ensures Wire(h, log) == PageBytes(h, Fulls(log)) <==> NoneCut(log)
    ensures |Wire(h, log)| == |PageBytes(h, Fulls(log))| <==> NoneCut(log)
  {
    hide Wire, PageBytes, Fulls;
    if log == [] {
      WireNone(h);
    } else {
      var front, a := log[..|log| - 1], log[|log| - 1];
      assert log == front + [a] && Plausible(h, a);
      WireExact(h, front);
      FullsMore(front, a);
      WireMore(h, front, a);
      if a.full {
        PageBytesMore(h, Fulls(front), a.page);
      } else {
        assert Fulls(log) == Fulls(front);
      }
      NoneCutMore(front, a);
      if a.n == 0 {
        assert h[a.page].data[..0] == [];
      }
    }
  }

  lemma WireNone(h: Heap)
    ensures Fulls([]) == [] && Wire(h, []) == [] == PageBytes(h, [])
  {
  }

  lemma WireMore(h: Heap, log: seq<Attempt>, a: Attempt)
    requires Attempts(h, log) && Plausible(h, a)
    ensures Attempts(h, log + [a]) && Wire(h, log + [a]) == Wire(h, log) + h[a.page].data[..a.n]
    ensures a.full ==> h[a.page].data[..a.n] == h[a.page].data
  {
    assert (log + [a])[..|log|] == log;
  }

  lemma PageBytesMore(h: Heap, order: seq<nat>, a: nat)
    requires Within(h, order) && a < |h|
    ensures Within(h, order + [a]) && PageBytes(h, order + [a]) == PageBytes(h, order) + h[a].data
  {
    assert (order + [a])[..|order|] == order;
  }

  lemma NoneCutMore(log: seq<Attempt>, a: Attempt)
    ensures NoneCut(log + [a]) <==> NoneCut(log) && (!a.full ==> a.n == 0)
  {
    var all := log + [a];
    assert all[|log|] == a && forall i :: 0 <= i < |log| ==> all[i] == log[i];
  }

  lemma FullsMore(log: seq<Attempt>, a: Attempt)
    ensures Fulls(log + [a]) == Fulls(log) + (if a.full then [a.page] else []) && Taken(log + [a]) == Taken(log) + a.n
  {
    assert (log + [a])[..|log|] == log;
  }

  /** Links determine the list. */
  lemma ChainUnique(h: Heap, a: seq<nat>, b: seq<nat>)
    requires Chain(h, a) && Chain(h, b) && First(a) == First(b)
    ensures a == b
  {
    SamePrefix(h, a, b, |a|);
    SamePrefix(h, b, a, |b|);
  }

  lemma {:induction false} SamePrefix(h: Heap, a: seq<nat>, b: seq<nat>, i: nat)
    requires Chain(h, a) && Chain(h, b) && First(a) == First(b) && i <= |a|
    ensures i <= |b| && a[..i] == b[..i] && At(a, i) == At(b, i)
  {
    hide Chain;
    if i > 0 {
      SamePrefix(h, a, b, i - 1);
      LinkAt(h, a, i - 1);
      LinkAt(h, b, i - 1);
      assert a[..i] == a[..i - 1] + [a[i - 1]] && b[..i] == b[..i - 1] + [b[i - 1]];
    }
  }

  lemma LinkAt(h: Heap, list: seq<nat>, i: nat)
    requires Chain(h, list) && i < |list|
    ensures list[i] < |h| && h[list[i]].next == At(list, i + 1)
  {
  }

  lemma ChainTail(h: Heap, a: seq<nat>, k: nat)
    requires Chain(h, a) && k <= |a|
    ensures Chain(h, a[k..]) && First(a[k..]) == At(a, k)
  {
  }

  lemma NothingTried(h: Heap)
    ensures Fulls([]) == [] && Attempts(h, []) && Taken([]) == 0
  {
  }

  /** The socket takes every page whole; it does not take the first one whole. */
  predicate Takes(h: Heap, net: nat -> int, todo: seq<nat>) {
    forall k :: 0 <= k < |todo| ==> todo[k] < |h| && net(k) >= |h[todo[k]].data|
  }

  predicate Refuses(h: Heap, net: nat -> int, todo: seq<nat>) {
    todo != [] && todo[0] < |h| && net(0) < |h[todo[0]].data|
  }

  class Listener {
    /** The list sent last, the page that is due in the one being sent, and the place in it. */
    var headers: Option<nat>
    var headersSent: bool
    var headerPage: Option<nat>
    var headerPos: nat
    /** How much of the current data page has been sent. */
    var pos: nat

    /** The list that counts as sent, and the attempts that were made before it did. */
    ghost var claimed: seq<nat>
    ghost var log: seq<Attempt>
    /** The list that was begun, and the attempts so far. */
    ghost var due: seq<nat>
    ghost var tries: seq<Attempt>

    ghost predicate Valid()
      reads this
    {
      First(claimed) == headers && (!headersSent ==> headerPos == 0)
    }

    /** The list that counts as sent has got across, all of it and in order. */
    ghost predicate Honest()
      reads this
    {
      Fulls(log) == claimed
    }

    /** Of the list that was begun, the pages before the one that is due have got across. */
    ghost predicate OnTrack()
      reads this
    {
      !headersSent ==> Fulls(tries) <= due && headerPage == At(due, |Fulls(tries)|)
    }

    constructor ()
      ensures Valid() && Honest() && OnTrack() && headers.None? && headersSent && pos == 0
    {
      headers, headersSent, headerPage, headerPos, pos := None, true, None, 0, 0;
      claimed, log, due, tries := [], [], [], [];
    }

    /** What `rest` has to be: the pages that can be reached from the one that is due. */
    ghost predicate Reachable(h: Heap, rest: seq<nat>)
      reads this
    {
      !headersSent ==> Chain(h, rest) && headerPage == First(rest)
    }

    /** The pages that will have got across when sending headers for `list` is done. */
    ghost function Coming(list: seq<nat>, rest: seq<nat>): (pages: seq<nat>)
      reads this
    {
      if headersSent then list else Fulls(tries) + rest
    }

    /** The pages of the list being sent that have got across. */
    ghost function Across(): (pages: seq<nat>)
      reads this
    {
      if headersSent then [] else Fulls(tries)
    }

    ghost function ToSend(list: seq<nat>, rest: seq<nat>): (pages: seq<nat>)
      reads this
    {
      if headersSent then list else rest
    }

    /** If the list that was begun is as it was, what is left of it. */
    ghost method Remaining(h: Heap) returns (rest: seq<nat>)
      requires OnTrack() && (!headersSent ==> Chain(h, due))
      ensures Reachable(h, rest) && (headersSent || rest == due[|Fulls(tries)|..])
    {
      hide Chain, Fulls;
      rest := [];
      if !headersSent {
        rest := due[|Fulls(tries)|..];
        ChainTail(h, due, |Fulls(tries)|);
      }
    }

    /** If the list that was begun is as it was, that is this list. */
    lemma ComingIsDue(h: Heap, list: seq<nat>, rest: seq<nat>)
      requires !headersSent && OnTrack() && Chain(h, due) && Reachable(h, rest)
      ensures Coming(list, rest) == due
    {
      hide Chain, Fulls;
      var k := |Fulls(tries)|;
      ChainTail(h, due, k);
      ChainUnique(h, due[k..], rest);
      assert due == due[..k] + due[k..];
    }

    /** One page: it is taken whole, or the attempt has to be repeated. */
    method SendPage(h: Heap, a: nat, wanted: int) returns (ret: int, whole: bool)
      requires a < |h| && headerPos == 0
      modifies `tries
      ensures ret == SendResult(wanted, |h[a].data|) && (whole <==> wanted >= |h[a].data|)
      ensures Fulls(tries) == Fulls(old(tries)) + if whole then [a] else []
      ensures Attempts(h, old(tries)) ==> Attempts(h, tries)
      ensures Taken(tries) == Taken(old(tries)) + if ret > 0 then ret else 0
    {
      hide Fulls, Taken;
      var len := |h[a].data| - headerPos;
      ret := SendResult(wanted, len);
      whole := ret >= len;
      ghost var attempt := Attempt(a, if ret > 0 then ret else 0, whole);
      FullsMore(tries, attempt);
      tries := tries + [attempt];
    }

    /** What had got across of the list being sent, nothing if none was. */
    ghost function SoFar(): (n: nat)
      reads this
    {
      if headersSent then 0 else Taken(tries)
    }

    /** The attempts for the list being sent fit the pages. */
    ghost predicate Fitting(h: Heap)
      reads this
    {
      !headersSent ==> Attempts(h, tries)
    }

    /** The first lines of send_ogg_headers: unless one is being sent, `first` is begun. */
    method Begin(first: Option<nat>, ghost h: Heap, ghost list: seq<nat>, ghost rest: seq<nat>)
      requires Valid() && Chain(h, list) && first == First(list) && Reachable(h, rest)
      modifies `headersSent, `headerPage, `headerPos, `due, `tries
      ensures Valid() && !headersSent && old(Fitting(h)) == Attempts(h, tries) && Taken(tries) == old(SoFar())
      ensures old(headersSent) ==> due == list && tries == [] && headerPage == first && Fulls(tries) == []
      ensures !old(headersSent) ==> due == old(due) && tries == old(tries) && headerPage == old(headerPage)
    {
      hide Fulls, Taken, Attempts, Chain;
      if headersSent {
        headerPage, headerPos, headersSent := first, 0, false;
        due, tries := list, [];
        NothingTried(h);
      }
    }

    /**
     send_ogg_headers; `net` answers the sends. What is left of the list that was begun is sent, whichever list is asked
     for; then the list asked for counts as sent. The result is the number of bytes sent by this call, or -1 instead of 0 if not done.
     */
    method SendHeaders(h: Heap, first: Option<nat>, net: nat -> int, ghost list: seq<nat>, ghost rest: seq<nat>) returns (result: int)
      requires Valid() && Chain(h, list) && first == First(list) && Reachable(h, rest)
      modifies `headers, `headersSent, `headerPage, `headerPos, `claimed, `log, `due, `tries
      ensures Valid() && due == if old(headersSent) then list else old(due)
      ensures headersSent ==> headers == first && claimed == list && Fulls(log) == old(Coming(list, rest))
      ensures !headersSent ==> headers == old(headers) && claimed == old(claimed) && log == old(log)
      ensures !headersSent ==> Fulls(tries) <= old(Coming(list, rest)) && headerPage == At(old(Coming(list, rest)), |Fulls(tries)|)
      ensures old(Fitting(h)) ==> Attempts(h, if headersSent then log else tries)
      ensures Takes(h, net, old(ToSend(list, rest))) ==> headersSent
      ensures Refuses(h, net, old(ToSend(list, rest))) ==> !headersSent && Fulls(tries) == old(Across())
      ensures headersSent ==> result == Taken(log) - old(SoFar())
      ensures !headersSent ==> (result == -1 || result > 0) && Taken(tries) - old(SoFar()) == if result == -1 then 0 else result
    {
      hide Fulls, Taken, Attempts, Chain;
      Begin(first, h, list, rest);
      ghost var todo, start := if old(headersSent) then list else rest, tries;
      result := SendRest(h, net, todo);
      if headerPage.None? {
        assert Fulls(start) + todo == old(Coming(list, rest));
        headersSent, headers := true, first;
        claimed, log := list, tries;
      }
    }

    /** The loop of send_ogg_headers: the pages that are left, one after the other, until one is not taken whole. */
    method SendRest(h: Heap, net: nat -> int, ghost todo: seq<nat>) returns (result: int)
      requires !headersSent && headerPos == 0 && Chain(h, todo) && headerPage == First(todo)
      modifies `headerPage, `headerPos, `tries
      ensures headerPos == 0 && Fulls(tries) <= Fulls(old(tries)) + todo
      ensures headerPage == At(Fulls(old(tries)) + todo, |Fulls(tries)|)
      ensures headerPage.None? ==> Fulls(tries) == Fulls(old(tries)) + todo && result == Taken(tries) - Taken(old(tries))
      ensures headerPage.Some? ==> (result == -1 || result > 0) && Taken(tries) - Taken(old(tries)) == if result == -1 then 0 else result
      ensures Attempts(h, old(tries)) ==> Attempts(h, tries)
      ensures Takes(h, net, todo) ==> headerPage.None?
      ensures Refuses(h, net, todo) ==> headerPage.Some? && Fulls(tries) == Fulls(old(tries))
    {
      hide Fulls, Taken, Attempts, Chain;
      var written: int, k: nat := 0, 0;
      ghost var i, all := 0, Fulls(tries) + todo;
      while headerPage.Some?
        invariant headerPos == 0 && i == k <= |todo| && headerPage == At(todo, i) && Fulls(tries) + todo[i..] == all
        invariant i == 0 ==> Fulls(tries) == Fulls(old(tries))
        invariant Refuses(h, net, todo) ==> i == 0
        invariant 0 <= written == Taken(tries) - Taken(old(tries)) && (Attempts(h, old(tries)) ==> Attempts(h, tries))
        decreases |todo| - i
      {
        var refbuf := headerPage.value;
        LinkAt(h, todo, i);
        var ret, whole := SendPage(h, refbuf, net(k));
        if ret > 0 {
          written := written + ret;
        }
        if !whole {
          return if written != 0 then written else -1;
        }
        assert todo[i..] == [refbuf] + todo[i + 1..];
        headerPage, headerPos := h[refbuf].next, 0;
        i, k := i + 1, k + 1;
      }
      return written;
    }

    /** Nothing has happened to the lists: the one begun is the one asked for, the one that counts as sent has not grown. */
    ghost predicate Undisturbed(h: Heap, first: Option<nat>, list: seq<nat>)
      reads this
    {
      (headersSent || (Chain(h, due) && list == due)) && (headers == first ==> Chain(h, claimed))
    }

    /**
     write_buf_to_client for a data page with the given header list. When data goes out, the pages of the list have got
     across, all of them and in order, if and only if no other list was half sent, or, if the list counted as
     sent already, if it has not grown since. The result is the number of bytes sent.
     */
    method Write(h: Heap, first: Option<nat>, data: seq<byte>, net: nat -> int, wanted: int, ghost list: seq<nat>, ghost rest: seq<nat>)
      returns (written: int)
      requires Valid() && pos <= |data| && Chain(h, list) && first == First(list) && Reachable(h, rest)
      modifies this
      ensures Valid() && old(pos) <= pos <= |data|
      ensures headers == first ==> Fulls(log) == if old(headers) == first then Fulls(old(log)) else old(Coming(list, rest))
      ensures pos > old(pos) && old(headers) != first ==>
                (Fulls(log) == list <==> old(headersSent) || Fulls(old(tries)) + rest == list)
      ensures pos > old(pos) && old(headers) != first && !old(headersSent) && old(OnTrack() && Chain(h, due)) ==>
                (Fulls(log) == list <==> list == old(due))
      ensures pos > old(pos) && old(headers) == first && old(Honest()) ==> (Fulls(log) == list <==> old(Chain(h, claimed)))
      ensures old(Honest() && OnTrack() && Undisturbed(h, first, list)) ==> Honest() && OnTrack() && (pos > old(pos) ==> Fulls(log) == list)
      ensures pos > old(pos) ==> headers == first
      ensures headers == first || (!headersSent && pos == old(pos) && (old(headersSent) ==> due == list) && (!old(headersSent) ==> due == old(due)))
      ensures headers == first ==> headersSent == (if old(headers) == first then old(headersSent) else true) && (old(headers) == first ==> due == old(due))
      ensures headers == first ==> claimed == if old(headers) == first then old(claimed) else list
      ensures headers != first ==> claimed == old(claimed) && headers == old(headers)
      ensures old(headers) != first && Refuses(h, net, old(ToSend(list, rest))) ==> headers == old(headers) && Across() == old(Across())
      ensures old(headers) == first || Takes(h, net, old(ToSend(list, rest))) ==>
                headers == first && pos == old(pos) + var n := SendResult(wanted, |data| - old(pos)); if n > 0 then n else 0
      ensures written == pos - old(pos) + if old(headers) == first then 0 else (if headersSent then Taken(log) else Taken(tries)) - old(SoFar())
    {
      hide Fulls, Taken, Attempts, Chain;
      written := 0;
      if !headersSent && OnTrack() && Chain(h, due) {
        ComingIsDue(h, list, rest);
      }
      if headers == first && Chain(h, claimed) {
        ChainUnique(h, claimed, list);
      }
      if headers != first {
        var ret := SendHeaders(h, first, net, list, rest);
        if !headersSent {
          return if ret > 0 then ret else 0;
        }
        written := ret;
      }
      var ret := SendResult(wanted, |data| - pos);
      if ret > 0 {
        pos := pos + ret;
        written := written + ret;
      }
    }
  }

  /** A data page: its bytes and the first page of its header list. */
  datatype DataPage = DataPage(first: Option<nat>, data: seq<byte>)

  /** What the socket answers to one call: to the header pages, and to the data. */
  datatype Answers = Answers(net: nat -> int, wanted: int)

  /** One call: which data page, its position before and after, and the header pages that had got across by then. */
  datatype Sending = Sending(page: nat, before: nat, after: nat, got: seq<nat>)

  /** Where the next call is after those of `trace`: on the next page when the last one was finished. */
  function Place(pages: seq<DataPage>, trace: seq<Sending>): (at: (nat, nat)) {
    if trace == [] then (0, 0)
    else
      var s := trace[|trace| - 1];
      if s.page < |pages| && s.after == |pages[s.page].data| then (s.page + 1, 0) else (s.page, s.after)
  }

  /**
   What one call does with answers `a` of the socket: if data goes out, exactly the pages of its list had got across, in
   order; and if everything that is offered is taken, the page is finished.
   */
  ghost predicate Good(h: Heap, pages: seq<DataPage>, lists: seq<seq<nat>>, a: Answers, s: Sending)
    requires |lists| == |pages|
  {
    && s.page < |pages| && s.before <= s.after <= |pages[s.page].data|
    && (s.after > s.before ==> s.got == lists[s.page])
    && (Willing(h, a, |pages[s.page].data|) ==> s.after == |pages[s.page].data|)
  }

  /** One call for every answer, each going on where the last one left off. */
  ghost predicate Calls(h: Heap, pages: seq<DataPage>, lists: seq<seq<nat>>, turns: seq<Answers>, trace: seq<Sending>)
    requires |lists| == |pages|
  {
    trace == [] ||
    (var front, s := trace[..|trace| - 1], trace[|trace| - 1];
     && |trace| <= |turns| && Calls(h, pages, lists, turns, front)
     && (s.page, s.before) == Place(pages, front) && Good(h, pages, lists, turns[|trace| - 1], s))
  }

  /** The socket takes whole pages, and all of the data. */
  ghost predicate Willing(h: Heap, a: Answers, len: nat) {
    (forall k: nat, p :: 0 <= p < |h| ==> a.net(k) >= |h[p].data|) && a.wanted >= len
  }

  lemma WillingTakes(h: Heap, a: Answers, len: nat, todo: seq<nat>)
    requires Chain(h, todo)
    ensures Willing(h, a, len) ==> Takes(h, a.net, todo) && a.wanted >= len
  {
  }

  /** A data page with its list. */
  predicate PageOk(p: DataPage, list: seq<nat>) {
    p.data != [] && p.first == First(list)
  }

  /** Between two calls: what has been begun is for the page at hand. */
  ghost predicate Staying(l: Listener, h: Heap, pages: seq<DataPage>, lists: seq<seq<nat>>, at: nat)
    requires |lists| == |pages|
    reads l
  {
    && l.Valid() && l.Honest() && l.OnTrack() && Chain(h, l.claimed) && at <= |pages|
    && (if at == |pages| then l.headersSent && l.pos == 0
        else
          && l.pos < |pages[at].data| && (l.pos > 0 ==> l.headers == pages[at].first)
          && (!l.headersSent ==> l.due == lists[at] && l.headers != pages[at].first))
  }

  /** One call on the page at hand, and on to the next page if it is done. */
  method StayTurn(l: Listener, h: Heap, pages: seq<DataPage>, ghost lists: seq<seq<nat>>, at: nat, a: Answers)
    returns (ghost s: Sending, at': nat)
    requires |lists| == |pages| && at < |pages| && Staying(l, h, pages, lists, at)
    requires forall i :: 0 <= i < |pages| ==> PageOk(pages[i], lists[i]) && Chain(h, lists[i])
    modifies l
    ensures s.page == at && s.before == old(l.pos) && Good(h, pages, lists, a, s)
    ensures Staying(l, h, pages, lists, at')
    ensures (at', l.pos) == if s.after == |pages[at].data| then (at + 1, 0) else (at, s.after)
  {
    hide Fulls, Chain, Taken, Takes, Refuses, Willing;
    ghost var rest := l.Remaining(h);
    ghost var before := l.pos;
    WillingTakes(h, a, |pages[at].data|, if l.headersSent then lists[at] else rest);
    var _ := l.Write(h, pages[at].first, pages[at].data, a.net, a.wanted, lists[at], rest);
    s := Sending(at, before, l.pos, Fulls(l.log));
    at' := at;
    if l.pos == |pages[at].data| {
      l.pos := 0;
      at' := at + 1;
    }
  }

  /** In particular, whenever data goes out, the pages of its list have got across. */
  lemma {:induction false} OwnHeaders(h: Heap, pages: seq<DataPage>, lists: seq<seq<nat>>, turns: seq<Answers>, trace: seq<Sending>, t: nat)
    requires |lists| == |pages| && Calls(h, pages, lists, turns, trace) && t < |trace|
    ensures trace[t].page < |pages| && (trace[t].after > trace[t].before ==> trace[t].got == lists[trace[t].page])
  {
    if t < |trace| - 1 {
      OwnHeaders(h, pages, lists, turns, trace[..|trace| - 1], t);
    }
  }

  lemma PagesHaveData(pages: seq<DataPage>, lists: seq<seq<nat>>)
    requires |lists| == |pages| && forall i :: 0 <= i < |pages| ==> PageOk(pages[i], lists[i])
    ensures forall i :: 0 <= i < |pages| ==> pages[i].data != []
  {
  }

  /**
   A listener that stays on one mount goes from page to page in order, to the next one only when it has been sent all of one.
   Then no other list can be half sent, and as long as no list grows that a data page has, every data page goes out after
   exactly its own. There is a call for every answer of the socket until all pages are done.
   */
  method Stay(h: Heap, pages: seq<DataPage>, ghost lists: seq<seq<nat>>, turns: seq<Answers>) returns (l: Listener, ghost trace: seq<Sending>)
    requires |lists| == |pages| && forall i :: 0 <= i < |pages| ==> PageOk(pages[i], lists[i]) && Chain(h, lists[i])
    ensures l.Valid() && Calls(h, pages, lists, turns, trace)
    ensures |trace| == |turns| || (|trace| < |turns| && Place(pages, trace) == (|pages|, 0))
  {
    hide Fulls, Chain, Good, PageOk;
    l := new Listener();
    trace := [];
    var at: nat := 0;
    EmptyChain(h);
    assert at < |pages| ==> pages[at].data != [] by { PagesHaveData(pages, lists); }
    for t := 0 to |turns|
      invariant Staying(l, h, pages, lists, at) && fresh(l) && |trace| == t
      invariant Calls(h, pages, lists, turns, trace) && Place(pages, trace) == (at, l.pos)
    {
      if at == |pages| {
        return;
      }
      ghost var s;
      s, at := StayTurn(l, h, pages, lists, at, turns[t]);
      assert (trace + [s])[..|trace|] == trace;
      trace := trace + [s];
    }
  }

  /**
   A listener that is moved to another mount in the middle of a list: what is left of the old list is sent, the new
   one counts as sent, and the data page goes out without a page of its own list.
   */
  method MovedMidway(h: Heap) returns (l: Listener, ghost first: seq<nat>, ghost second: seq<nat>)
    requires h == [Page([1], true, None, 2, 0), Page([2], true, None, 2, 0)]
    ensures Chain(h, first) && Chain(h, second) && first == [0] && second == [1]
    ensures l.Valid() && l.pos == 1 && l.headers == First(second) && l.claimed == second && Fulls(l.log) == first
  {
    hide Taken, Attempts;
    first, second := [0], [1];
    l := new Listener();
    assert Refuses(h, (k: nat) => 0, first) && Takes(h, (k: nat) => 1, first);
    var _ := l.Write(h, Some(0), [3], (k: nat) => 0, 0, first, []);
    assert !l.headersSent && l.headers == None && l.due == first;
    var _ := l.Write(h, Some(1), [4], (k: nat) => 1, 1, second, first);
  }

  /** A list that has grown since it was sent: the data page goes out without the new page. */
  method GrownSince(h: Heap, h': Heap) returns (l: Listener, ghost first: seq<nat>, ghost second: seq<nat>)
    requires h == [Page([1], true, None, 2, 0)] && h' == [Page([1], true, Some(1), 2, 0), Page([2], false, None, 1, 0)]
    ensures Chain(h, first) && Chain(h', second) && first == [0] && second == [0, 1]
    ensures l.Valid() && l.pos == 1 && l.headers == First(second) && Fulls(l.log) == first
  {
    hide Fulls, Taken, Attempts, Takes;
    first, second := [0], [0, 1];
    l := SentOne(h);
    l.pos := 0;
    var _ := l.Write(h', Some(0), [4], (k: nat) => 1, 1, second, []);
  }

  /** A listener that has been sent the only header page and its data page. */
  method SentOne(h: Heap) returns (l: Listener)
    requires h == [Page([1], true, None, 2, 0)]
    ensures fresh(l) && l.Valid() && l.headersSent && l.headers == Some(0) && Fulls(l.log) == [0] && l.pos == 1
  {
    hide Fulls, Taken, Attempts;
    l := new Listener();
    assert Takes(h, (k: nat) => 1, [0]);
    var _ := l.Write(h, Some(0), [3], (k: nat) => 1, 1, [0], []);
  }
}
