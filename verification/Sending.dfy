/** What a listener is offered next, what it has been sent so far, and how far one turn or ten bring it, on values. */
module Sending {
  import opened Octets
  import opened RefCounts
  import opened StreamSlices
  import opened MountState

  /** The most of a header that one send offers. */
  const EBML_SLICE_SIZE: nat := 4096

  /** What the outside world does to one turn of a listener's send loop. */
  datatype Answer = Answer(timeUp: bool, ret: int, died: bool)

  /**
   What a mount has for its listeners: all buffers of its stream so far, the format's header, the intro file, whether a
   source is connected, and whether the newest buffer is in the queue and marked as a starting point.
   */
  datatype Stock = Stock(all: seq<seq<byte>>, header: Option<seq<byte>>, introFile: Option<seq<byte>>, connected: bool, marked: bool)

  /** Everything a listener has been sent, in order: the response, the format's header, the intro file, the stream. */
  function Wire(c: Client, s: seq<byte>): (bytes: seq<byte>) {
    var k := if |c.response| <= |c.got| then |c.response| else |c.got|;
    c.got[..k] + c.headerSent + c.got[k..] + (if c.phase == Stream then s else [])
  }

  lemma SameWire(c: Client, c': Client, s: seq<byte>, s': seq<byte>)
    requires c'.got == c.got && c'.headerSent == c.headerSent && c'.response == c.response
    requires (if c'.phase == Stream then s' else []) == if c.phase == Stream then s else []
    ensures Wire(c', s') == Wire(c, s)
  {
  }

  // ---------- one send ----------

  function BufferOf(all: seq<seq<byte>>, c: Client): (data: seq<byte>)
    requires c.refbuf != Null && (c.refbuf.Queued? ==> c.refbuf.number < |all|)
  {
    if c.refbuf.Own? then c.refbuf.data else all[c.refbuf.number]
  }

  /** There is a buffer, and the position is in it. */
  predicate Sendable(all: seq<seq<byte>>, c: Client) {
    && c.refbuf != Null && (c.refbuf.Queued? ==> c.refbuf.number < |all|)
    && c.pos <= |BufferOf(all, c)| && c.headerPos <= |c.header|
  }

  /** The format's header comes before anything but the response. */
  predicate InHeader(c: Client) {
    c.phase != Http && c.headerPos != |c.header|
  }

  /** The bytes the next send offers: of the header a slice at most, of the buffer what is left. */
  function Offer(all: seq<seq<byte>>, c: Client): (bytes: seq<byte>)
    requires Sendable(all, c)
  {
    if !InHeader(c) then BufferOf(all, c)[c.pos..]
    else if |c.header| - c.headerPos < EBML_SLICE_SIZE then c.header[c.headerPos..]
    else c.header[c.headerPos..c.headerPos + EBML_SLICE_SIZE]
  }

  /** The record of a listener after the socket has taken the bytes `taken`. */
  function AfterSend(c: Client, taken: seq<byte>, died: bool): (c': Client) {
    var c' := c.(error := c.error || died);
    if InHeader(c) then c'.(headerPos := c.headerPos + |taken|, headerSent := c.headerSent + taken)
    else if c.refbuf.Own? then c'.(pos := c.pos + |taken|, got := c.got + taken)
    else c'.(pos := c.pos + |taken|)
  }

  /** The stream bytes sent to it. */
  function SentAfter(c: Client, s: seq<byte>, taken: seq<byte>): (s': seq<byte>) {
    if c.refbuf.Queued? && !InHeader(c) then s + taken else s
  }

  /** The counters agree with what the socket has taken, and everything sent is what was offered, in order. */
  lemma SendGrows(all: seq<seq<byte>>, syncs: set<nat>, c: Client, j: nat, s: seq<byte>, taken: seq<byte>, died: bool)
    requires ClientOk(c) && c.respcode != 0 && Sendable(all, c) && Delivered(c, all, syncs, j, s) && taken <= Offer(all, c)
    ensures ClientOk(AfterSend(c, taken, died)) && Delivered(AfterSend(c, taken, died), all, syncs, j, SentAfter(c, s, taken))
    ensures Wire(AfterSend(c, taken, died), SentAfter(c, s, taken)) == Wire(c, s) + taken
  {
    hide Slice, Wire;
    SendOk(all, c, taken, died);
    if InHeader(c) {
      HeaderWire(c, s, taken, died);
    } else if c.refbuf.Own? {
      OwnWire(c, s, taken, died);
    } else {
      SliceGrows(all, j, c.refbuf.number, c.pos, |taken|);
      assert all[c.refbuf.number][c.pos..c.pos + |taken|] == taken;
      StreamWire(c, s, taken, died);
    }
  }

  /** The beginning of what is left, after the part before it. */
  lemma Goes(data: seq<byte>, at: nat, taken: seq<byte>)
    requires at <= |data| && taken <= data[at..]
    ensures at + |taken| <= |data| && taken == data[at..at + |taken|] && data[..at] + taken == data[..at + |taken|]
  {
    assert taken == data[at..][..|taken|];
  }

  /** The same at the end of something longer. */
  lemma GoesLast(got: seq<byte>, data: seq<byte>, at: nat, taken: seq<byte>)
    requires at + |taken| <= |data| && at <= |got| && got[|got| - at..] == data[..at] && data[..at] + taken == data[..at + |taken|]
    ensures (got + taken)[|got + taken| - (at + |taken|)..] == data[..at + |taken|]
  {
    assert (got + taken)[|got + taken| - (at + |taken|)..] == got[|got| - at..] + taken;
  }

  lemma OfferIn(all: seq<seq<byte>>, c: Client, taken: seq<byte>)
    requires Sendable(all, c) && taken <= Offer(all, c)
    ensures taken <= if InHeader(c) then c.header[c.headerPos..] else BufferOf(all, c)[c.pos..]
  {
  }

  lemma SendOk(all: seq<seq<byte>>, c: Client, taken: seq<byte>, died: bool)
    requires ClientOk(c) && c.respcode != 0 && Sendable(all, c) && taken <= Offer(all, c)
    ensures ClientOk(AfterSend(c, taken, died))
    ensures c.refbuf.Queued? && !InHeader(c) ==> taken == all[c.refbuf.number][c.pos..c.pos + |taken|]
  {
    hide Offer, ClientOk;
    OfferIn(all, c, taken);
    if InHeader(c) {
      HeaderTaken(c, taken, died);
    } else {
      Goes(BufferOf(all, c), c.pos, taken);
      if c.refbuf.Own? {
        OwnTaken(c, taken, died);
      } else {
        QueuedTaken(c, taken, died);
      }
    }
  }

  lemma HeaderTaken(c: Client, taken: seq<byte>, died: bool)
    requires ClientOk(c) && InHeader(c) && taken <= c.header[c.headerPos..]
    ensures ClientOk(AfterSend(c, taken, died))
  {
    Goes(c.header, c.headerPos, taken);
  }

  lemma QueuedTaken(c: Client, taken: seq<byte>, died: bool)
    requires ClientOk(c) && !InHeader(c) && c.refbuf.Queued?
    ensures ClientOk(AfterSend(c, taken, died))
  {
  }

  lemma OwnTaken(c: Client, taken: seq<byte>, died: bool)
    requires ClientOk(c) && c.respcode != 0 && !InHeader(c) && c.refbuf.Own? && taken <= c.refbuf.data[c.pos..]
    ensures ClientOk(AfterSend(c, taken, died))
  {
    Goes(c.refbuf.data, c.pos, taken);
    if c.phase == Http {
      assert c.refbuf.data == c.response;
    } else if c.introOffset > 0 {
      GoesLast(c.got, c.refbuf.data, c.pos, taken);
    } else {
      assert taken == [] && c.got + taken == c.got;
    }
  }

  lemma HeaderWire(c: Client, s: seq<byte>, taken: seq<byte>, died: bool)
    requires ClientOk(c) && InHeader(c) && (c.phase == Stream ==> s == [])
    ensures Wire(AfterSend(c, taken, died), s) == Wire(c, s) + taken
  {
    assert c.got[|c.response|..] == [];
  }

  lemma OwnWire(c: Client, s: seq<byte>, taken: seq<byte>, died: bool)
    requires ClientOk(c) && !InHeader(c) && c.refbuf.Own? && (c.phase == Http ==> |c.got| + |taken| <= |c.response|)
    ensures Wire(AfterSend(c, taken, died), s) == Wire(c, s) + taken
  {
    var got := c.got + taken;
    if c.phase == Http {
      assert got[..|got|] == got && got[|got|..] == [] && c.got[..|c.got|] == c.got && c.got[|c.got|..] == [];
    } else {
      assert got[..|c.response|] == c.got[..|c.response|] && got[|c.response|..] == c.got[|c.response|..] + taken;
    }
  }

  lemma StreamWire(c: Client, s: seq<byte>, taken: seq<byte>, died: bool)
    requires ClientOk(c) && !InHeader(c) && c.refbuf.Queued?
    ensures Wire(AfterSend(c, taken, died), s + taken) == Wire(c, s) + taken
  {
  }

  // ---------- what comes next ----------

  /** There is something left to send on the queue. */
  predicate MoreIn(all: seq<seq<byte>>, c: Client) {
    c.refbuf.Queued? && c.refbuf.number < |all| && (c.refbuf.number + 1 < |all| || c.pos != |all[c.refbuf.number]|)
  }

  /** The same listener at the next buffer if it has been sent this one and there is a next one. */
  function NextIn(all: seq<seq<byte>>, c: Client): (c': Client)
    requires MoreIn(all, c)
  {
    if c.pos == |all[c.refbuf.number]| then c.(refbuf := Queued(c.refbuf.number + 1), pos := 0) else c
  }

  /** get_file_data: the next 4096 bytes of the intro file at most, from the offset on. */
  function FileData(introFile: Option<seq<byte>>, offset: int): (bytes: seq<byte>)
    ensures bytes != [] <==> introFile.Some? && 0 <= offset < |introFile.value|
    ensures bytes != [] ==> offset + |bytes| <= |introFile.value| && bytes == introFile.value[offset..offset + |bytes|]
    ensures bytes != [] ==> |bytes| == 4096 || (|bytes| < 4096 && offset + |bytes| == |introFile.value|)
  {
    if introFile == None || offset < 0 || offset >= |introFile.value| then []
    else if offset + 4096 <= |introFile.value| then introFile.value[offset..offset + 4096]
    else introFile.value[offset..]
  }

  /**
   A listener with intro data to be sent: what it has until that is sent, then the next piece of the file, the first
   piece for one without a buffer.
   */
  function IntroNext(introFile: Option<seq<byte>>, c: Client): (c': Option<Client>) {
    var offset := if c.refbuf == Null then 0 else c.introOffset;
    var bytes := FileData(introFile, offset);
    if c.refbuf.Own? && c.pos != |c.refbuf.data| then Some(c)
    else if bytes == [] then None
    else Some(c.(refbuf := Own(bytes), pos := 0, introOffset := offset + |bytes|))
  }

  /** The intro file goes out in order: each piece begins where the one before ended, and there is a next one up to the end of the file. */
  lemma NextPiece(introFile: Option<seq<byte>>, c: Client)
    requires c.refbuf.Own? && c.pos == |c.refbuf.data|
    ensures IntroNext(introFile, c).None? <==> introFile.None? || c.introOffset < 0 || |introFile.value| <= c.introOffset
    ensures IntroNext(introFile, c).Some? ==>
              var c', f := IntroNext(introFile, c).value, introFile.value;
              && 0 <= c.introOffset < c'.introOffset <= |f| && c'.refbuf == Own(f[c.introOffset..c'.introOffset])
              && c' == c.(refbuf := c'.refbuf, pos := 0, introOffset := c'.introOffset)
  {
  }

  /** The record with which a listener is offered something; None when a turn does not come to that. */
  function Ready(x: Stock, c: Client): (r: Option<Client>) {
    match c.phase
    case Http =>
      if c.respcode == 0 then
        if x.header == None || c.response == [] then None
        else Some(c.(refbuf := Own(c.response), respcode := 200, header := x.header.value, headerPos := 0))
      else if c.pos == |c.response| then None else Some(c)
    case File => if c.refbuf == Null && x.connected then None else IntroNext(x.introFile, c)
    case Stream => if MoreIn(x.all, c) then Some(NextIn(x.all, c)) else None
  }

  /** The bytes a listener is offered in its next turn. */
  function Due(x: Stock, c: Client): (bytes: seq<byte>) {
    var r := Ready(x, c);
    if r.Some? && Sendable(x.all, r.value) then Offer(x.all, r.value) else []
  }

  /** A listener's place in the stream is one that there is. */
  predicate Placed(all: seq<seq<byte>>, c: Client) {
    c.refbuf.Queued? ==> c.refbuf.number < |all| && c.pos <= |all[c.refbuf.number]|
  }

  /** What that is: first the response, then the header, then what is left of the buffer or else the next one. */
  lemma DueNow(x: Stock, c: Client)
    requires ClientOk(c) && Placed(x.all, c)
    ensures c.phase == Http && (c.respcode != 0 || x.header.Some?) ==> Due(x, c) == c.response[c.pos..]
    ensures c.phase == Http && c.respcode == 0 && x.header.None? ==> Due(x, c) == []
    ensures c.phase == Stream && c.headerPos == |c.header| ==>
              var n := c.refbuf.number;
              Due(x, c) == if c.pos < |x.all[n]| then x.all[n][c.pos..] else if n + 1 < |x.all| then x.all[n + 1] else []
    ensures c.phase == Stream && c.headerPos < |c.header| ==>
              (Due(x, c) != [] <==> c.pos < |x.all[c.refbuf.number]| || c.refbuf.number + 1 < |x.all|)
    ensures c.phase == File && c.refbuf.Own? && c.headerPos == |c.header| ==>
              Due(x, c) == if c.pos < |c.refbuf.data| then c.refbuf.data[c.pos..] else FileData(x.introFile, c.introOffset)
    ensures c.phase == File && c.refbuf == Null && !x.connected && c.headerPos == |c.header| ==> Due(x, c) == FileData(x.introFile, 0)
    ensures c.phase == File && c.refbuf == Null && x.connected ==> Due(x, c) == []
    ensures c.phase != Http && c.headerPos < |c.header| && Due(x, c) != [] ==>
              |Due(x, c)| <= EBML_SLICE_SIZE && c.headerPos + |Due(x, c)| <= |c.header|
              && Due(x, c) == c.header[c.headerPos..c.headerPos + |Due(x, c)|]
              && (|Due(x, c)| < EBML_SLICE_SIZE ==> c.headerPos + |Due(x, c)| == |c.header|)
  {
  }

  // ---------- one turn ----------

  /** With nothing to be offered, a listener at the end of its response goes on to the intro file, one at the end of that to the queue. */
  ghost predicate MovesOn(x: Stock, c: Client, c': Client) {
    && (c.phase == Http && (c.respcode != 0 || x.header.Some?) ==> c'.phase == File)
    && (c.phase == File && x.marked ==> c'.phase == Stream)
    && (c.phase == Stream ==> c' == c)
  }

  /** What checking a listener's buffer comes to: it is ready to be offered what is due, or there is nothing due. */
  ghost predicate Checked(x: Stock, c: Client, s: seq<byte>, rc: int, c': Client, s': seq<byte>) {
    && (rc >= 0 <==> Ready(x, c).Some?) && Wire(c', s') == Wire(c, s)
    && if rc >= 0 then c' == Ready(x, c).value && s' == s else MovesOn(x, c, c')
  }

  /** What a turn comes to: exactly the bytes that were due and that the socket took have been sent. */
  ghost predicate Turned(x: Stock, c: Client, s: seq<byte>, a: Answer, bytes: int, c': Client, s': seq<byte>) {
    && Wire(c', s') == Wire(c, s) + Accepted(a.ret, Due(x, c))
    && |Accepted(a.ret, Due(x, c))| == (if bytes > 0 then bytes else 0)
    && if Ready(x, c).Some? then c' == AfterSend(Ready(x, c).value, Accepted(a.ret, Due(x, c)), a.died) else MovesOn(x, c, c')
  }

  /** Checking the buffer and then writing is a turn. */
  lemma TurnOf(x: Stock, c: Client, s: seq<byte>, rc: int, c1: Client, s1: seq<byte>, a: Answer, bytes: int, c2: Client, s2: seq<byte>)
    requires Checked(x, c, s, rc, c1, s1)
    requires if rc < 0 then bytes == rc && c2 == c1 && s2 == s1
             else Sendable(x.all, c1) && bytes == SendResult(a.ret, |Offer(x.all, c1)|)
                  && c2 == AfterSend(c1, Accepted(a.ret, Offer(x.all, c1)), a.died)
                  && Wire(c2, s2) == Wire(c1, s1) + Accepted(a.ret, Offer(x.all, c1))
    ensures Turned(x, c, s, a, bytes, c2, s2)
  {
    hide Wire, Offer, AfterSend, Ready, MovesOn, Sendable;
    if rc < 0 {
      assert Wire(c, s) + [] == Wire(c, s);
    }
  }

  // ---------- ten turns ----------

  function HeaderSlices(c: Client): (n: int) {
    (|c.header| - c.headerPos + EBML_SLICE_SIZE - 1) / EBML_SLICE_SIZE
  }

  /** In how many pieces what a listener on the queue has not been sent yet can be sent: slices of the header, and buffers. */
  function Pieces(all: seq<seq<byte>>, c: Client): (n: int)
    requires c.refbuf.Queued? && c.refbuf.number < |all|
  {
    HeaderSlices(c) + |all| - c.refbuf.number - if c.pos == |all[c.refbuf.number]| then 1 else 0
  }

  /** A socket that takes everything a listener at buffer `from` can be offered in ten turns. */
  ghost predicate TakesAll(id: nat, net: (nat, nat) -> Answer, all: seq<seq<byte>>, from: nat) {
    forall k: nat :: k < 10 ==>
      && !net(id, k).timeUp && !net(id, k).died && net(id, k).ret >= EBML_SLICE_SIZE
      && forall i :: from <= i < |all| ==> net(id, k).ret >= |all[i]|
  }

  /** The first turn of serving a listener has been a turn for it: what was due and taken is among what it has been sent since. */
  ghost predicate Begun(id: nat, x: Stock, c: Client, s: seq<byte>, c': Client, s': seq<byte>, net: (nat, nat) -> Answer) {
    !c.error && !net(id, 0).timeUp ==>
      && |Wire(c, s)| + |Accepted(net(id, 0).ret, Due(x, c))| <= |Wire(c', s')|
      && (Ready(x, c).None? && c.phase == Http && (c.respcode != 0 || x.header.Some?) ==> c'.phase != Http)
      && (Ready(x, c).None? && c.phase == File && x.marked ==> c'.phase == Stream)
  }

  /** A listener on the queue, and nothing has gone wrong with it. */
  predicate Waits(x: Stock, c: Client) {
    c.phase == Stream && !c.error && c.refbuf.Queued? && c.headerPos <= |c.header| && Placed(x.all, c)
  }

  /** A listener on the queue whose socket takes everything gets all there is, ten pieces, or more than 20000 bytes. */
  ghost predicate Filled(id: nat, x: Stock, c: Client, s: seq<byte>, c': Client, s': seq<byte>, net: (nat, nat) -> Answer) {
    Waits(x, c) && TakesAll(id, net, x.all, c.refbuf.number) ==>
      && c'.phase == Stream && c'.refbuf.Queued? && Placed(x.all, c')
      && (Due(x, c') == [] || x.all[c'.refbuf.number] == [] || |Wire(c', s')| > |Wire(c, s)| + 20000
          || Pieces(x.all, c') + 10 <= Pieces(x.all, c))
  }

  /** What serving a listener comes to. */
  ghost predicate Progress(id: nat, x: Stock, c: Client, s: seq<byte>, c': Client, s': seq<byte>, net: (nat, nat) -> Answer) {
    Begun(id, x, c, s, c', s', net) && Filled(id, x, c, s, c', s', net)
  }

  /** The send loop has made `k` turns and sent `total` bytes. */
  ghost predicate Looping(id: nat, x: Stock, c: Client, s: seq<byte>, c': Client, s': seq<byte>, net: (nat, nat) -> Answer, k: nat, total: nat) {
    && |Wire(c', s')| == |Wire(c, s)| + total
    && (k == 0 ==> c'.(error := c.error) == c && s' == s && (c'.error ==> c.error || net(id, 0).timeUp))
    && (k > 0 ==> Begun(id, x, c, s, c', s', net))
    && (Waits(x, c) && TakesAll(id, net, x.all, c.refbuf.number) ==>
          && c'.phase == Stream && c'.refbuf.Queued? && c.refbuf.number <= c'.refbuf.number && Placed(x.all, c')
          && c'.headerPos <= |c'.header| && (k < 10 ==> !c'.error) && Pieces(x.all, c') + k <= Pieces(x.all, c))
  }

  lemma LoopStart(id: nat, x: Stock, c: Client, s: seq<byte>, net: (nat, nat) -> Answer)
    requires ClientOk(c)
    ensures Looping(id, x, c, s, c, s, net, 0, 0)
  {
    hide Wire, Due, Ready;
  }

  /** The time is up. */
  lemma LoopTime(id: nat, x: Stock, c: Client, s: seq<byte>, c': Client, s': seq<byte>, net: (nat, nat) -> Answer, k: nat, total: nat)
    requires Looping(id, x, c, s, c', s', net, k, total) && k <= 10 && net(id, k).timeUp
    ensures Looping(id, x, c, s, c'.(error := true), s', net, k, total)
  {
    hide Due, Ready;
  }

  /** A piece has been sent. */
  lemma OnePiece(x: Stock, c: Client, c': Client)
    requires c.phase == Stream && c.refbuf.Queued? && Placed(x.all, c) && c.headerPos <= |c.header| && MoreIn(x.all, c)
    requires Sendable(x.all, NextIn(x.all, c)) && c' == AfterSend(NextIn(x.all, c), Offer(x.all, NextIn(x.all, c)), false)
    ensures c'.phase == Stream && c'.refbuf.Queued? && c.refbuf.number <= c'.refbuf.number && Placed(x.all, c') && c'.headerPos <= |c'.header|
    ensures c'.error == c.error
    ensures Offer(x.all, NextIn(x.all, c)) != [] ==> Pieces(x.all, c') + 1 <= Pieces(x.all, c)
    ensures Offer(x.all, NextIn(x.all, c)) == [] ==> x.all[c'.refbuf.number] == []
  {
    var d := NextIn(x.all, c);
    assert Placed(x.all, d);
    assert HeaderSlices(d) == HeaderSlices(c) && Pieces(x.all, d) <= Pieces(x.all, c);
    if InHeader(d) {
      assert HeaderSlices(c') == HeaderSlices(d) - 1;
    }
  }

  /** It is offered no more than such a socket takes. */
  lemma TakesOffer(id: nat, net: (nat, nat) -> Answer, x: Stock, c: Client, from: nat, k: nat)
    requires Waits(x, c) && MoreIn(x.all, c) && TakesAll(id, net, x.all, from) && from <= c.refbuf.number && k < 10
    ensures Sendable(x.all, NextIn(x.all, c)) && !net(id, k).died && !net(id, k).timeUp
    ensures Accepted(net(id, k).ret, Offer(x.all, NextIn(x.all, c))) == Offer(x.all, NextIn(x.all, c))
  {
    var d := NextIn(x.all, c);
    assert d.refbuf.number >= from && net(id, k).ret >= |x.all[d.refbuf.number]|;
    assert |Offer(x.all, d)| <= net(id, k).ret;
  }

  /** A turn with such a socket: a piece goes out, or there is none or an empty one. */
  lemma FullTurn(id: nat, net: (nat, nat) -> Answer, x: Stock, c: Client, s: seq<byte>, from: nat, k: nat, bytes: int, c': Client, s': seq<byte>)
    requires Waits(x, c) && TakesAll(id, net, x.all, from) && from <= c.refbuf.number && k < 10
    requires Turned(x, c, s, net(id, k), bytes, c', s')
    ensures Waits(x, c') && c.refbuf.number <= c'.refbuf.number
    ensures bytes > 0 ==> Pieces(x.all, c') + 1 <= Pieces(x.all, c)
    ensures bytes <= 0 ==> Due(x, c') == [] || x.all[c'.refbuf.number] == []
  {
    hide Wire, Pieces, AfterSend, Offer, NextIn, Sendable;
    if MoreIn(x.all, c) {
      TakesOffer(id, net, x, c, from, k);
      OnePiece(x, c, c');
    }
  }

  /** One more turn. */
  lemma LoopTurn(id: nat, x: Stock, c: Client, s: seq<byte>, c1: Client, s1: seq<byte>, net: (nat, nat) -> Answer, k: nat, total: nat,
                 bytes: int, c2: Client, s2: seq<byte>)
    requires Looping(id, x, c, s, c1, s1, net, k, total) && k < 10 && !c1.error && !net(id, k).timeUp
    requires Turned(x, c1, s1, net(id, k), bytes, c2, s2)
    requires (c1.phase == Stream ==> c2.phase == Stream) && (c1.phase != Http ==> c2.phase != Http)
    ensures bytes > 0 ==> Looping(id, x, c, s, c2, s2, net, k + 1, total + bytes)
    ensures bytes <= 0 ==> Progress(id, x, c, s, c2, s2, net)
  {
    hide Wire, Pieces, AfterSend, Offer, Ready, Due, TakesAll;
    BegunOn(id, x, c, s, c1, s1, net, k, total, bytes, c2, s2);
    if Waits(x, c) && TakesAll(id, net, x.all, c.refbuf.number) {
      FullTurn(id, net, x, c1, s1, c.refbuf.number, k, bytes, c2, s2);
    }
  }

  lemma BegunOn(id: nat, x: Stock, c: Client, s: seq<byte>, c1: Client, s1: seq<byte>, net: (nat, nat) -> Answer, k: nat, total: nat,
                bytes: int, c2: Client, s2: seq<byte>)
    requires Looping(id, x, c, s, c1, s1, net, k, total) && !c1.error
    requires Turned(x, c1, s1, net(id, k), bytes, c2, s2)
    requires (c1.phase == Stream ==> c2.phase == Stream) && (c1.phase != Http ==> c2.phase != Http)
    ensures Begun(id, x, c, s, c2, s2, net) && |Wire(c2, s2)| == |Wire(c1, s1)| + if bytes > 0 then bytes else 0
  {
    hide Wire, Pieces, Offer, AfterSend, Ready, Due, Filled;
  }

  /** The loop ends at an error, after ten turns, or with more than 20000 bytes sent. */
  lemma LoopEnd(id: nat, x: Stock, c: Client, s: seq<byte>, c': Client, s': seq<byte>, net: (nat, nat) -> Answer, k: nat, total: nat)
    requires Looping(id, x, c, s, c', s', net, k, total) && k <= 10
    requires c'.error || total > 20000 || k == 10
    requires k == 0 ==> c'.error
    ensures Progress(id, x, c, s, c', s', net)
  {
    hide Wire, Pieces, Ready, TakesAll;
    if k == 0 && Waits(x, c) && TakesAll(id, net, x.all, c.refbuf.number) {
      assert false;
    }
  }

  /** Marking a listener for removal afterwards does not change what it has been sent. */
  lemma ProgressMarked(id: nat, x: Stock, c: Client, s: seq<byte>, c': Client, s': seq<byte>, net: (nat, nat) -> Answer)
    requires Progress(id, x, c, s, c', s', net)
    ensures Progress(id, x, c, s, c'.(error := true), s', net)
  {
    hide TakesAll;
  }

  /**
   In plain terms: a listener on the queue with its header complete and unsent bytes in its buffer, or else in the next,
   has been sent more of the stream once its socket took anything.
   */
  ghost predicate Grew(id: nat, all: seq<seq<byte>>, c: Client, s: seq<byte>, s': seq<byte>, net: (nat, nat) -> Answer) {
    c.refbuf.Queued? && c.refbuf.number < |all| && !c.error && c.headerPos == |c.header| && !net(id, 0).timeUp && net(id, 0).ret > 0
    && (c.pos < |all[c.refbuf.number]| ||
        (c.pos == |all[c.refbuf.number]| && c.refbuf.number + 1 < |all| && 0 < |all[c.refbuf.number + 1]|)) ==>
      |s| < |s'|
  }

  lemma ProgressGrew(id: nat, x: Stock, c: Client, s: seq<byte>, c': Client, s': seq<byte>, net: (nat, nat) -> Answer)
    requires ClientOk(c) && Placed(x.all, c) && Progress(id, x, c, s, c', s', net)
    requires c.phase == Stream ==> c'.phase == Stream && c'.got == c.got && |c'.response| == |c.response|
    requires c.headerPos == |c.header| ==> |c'.headerSent| <= |c.headerSent|
    ensures Grew(id, x.all, c, s, s', net)
  {
    hide Due, Ready, Filled;
    DueNow(x, c);
  }
}
