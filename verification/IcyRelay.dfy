/** One server relaying another: what the writer of one server produces, the filter of the next one reads. */
module IcyRelay {
  import opened Octets
  import opened IcyFraming
  import opened IcyMux
  import opened IcyFilter

  /** The text of a block as C code compares it. */
  function Text(block: seq<byte>): (text: seq<byte>)
    requires block != []
  {
    CString(block[1..])
  }

  lemma TitleAccepted(current: seq<byte>, block: seq<byte>)
    requires IsTitle(current) && IsTitle(block)
    ensures Accept(current, block).Some? && Text(Accept(current, block).value) == Text(Kept(block))
  {
    assert Kept(block)[1..][..12] == block[1..][..12];
  }

  /** A series of titles and "no change" blocks is accepted, and leaves the text of the last title in force. */
  lemma {:induction false} TitlesAccepted(current: seq<byte>, blocks: seq<seq<byte>>)
    requires IsTitle(current) && AreTitles(blocks)
    ensures AreBlocks(blocks) && AcceptAll(current, blocks).Some?
    ensures var now := AcceptAll(current, blocks).value; var shown := Shown(blocks);
            if shown == [] then now == current else Text(now) == Text(Kept(shown))
    decreases |blocks|
  {
    if blocks != [] {
      var first, last := blocks[..|blocks| - 1], blocks[|blocks| - 1];
      assert blocks == first + [last];
      assert last in blocks;
      TitlesAccepted(current, first);
      AcceptOne(current, first, AcceptAll(current, first).value, last);
      if last != [0] {
        TitleAccepted(AcceptAll(current, first).value, last);
      }
    }
  }

  /** What the filter makes of any part of a wire of titles: all of its blocks are accepted, and the title is the last of them. */
  ghost predicate Relayed(n: nat, input: seq<byte>, metadata: seq<byte>) {
    && AreTitles(Blocks(n, input)) && AreBlocks(Blocks(n, input)) && AcceptAll(BLANK, Blocks(n, input)) == Some(metadata)
  }

  lemma BlankIsTitle()
    ensures IsTitle(BLANK)
  {
    assert BLANK[1..][..12] == TITLE_TAG;
  }

  lemma RelayedStart(n: nat)
    ensures Relayed(n, [], BLANK)
  {
    BlankIsTitle();
    assert Blocks(n, []) == [];
  }

  /** One more buffer of the wire is filtered: its blocks are accepted. */
  lemma RelayedNext(n: nat, wire: seq<byte>, input: seq<byte>, input': seq<byte>, metadata: seq<byte>, blocks: seq<seq<byte>>)
    requires AreTitles(Blocks(n, wire)) && Relayed(n, input, metadata) && input' <= wire
    requires IsTitle(metadata) && AreBlocks(blocks) && Blocks(n, input') == Blocks(n, input) + blocks
    ensures AcceptAll(metadata, blocks).Some? && Relayed(n, input', AcceptAll(metadata, blocks).value)
  {
    hide Blocks;
    BlankIsTitle();
    ReadStays(n, input', wire[|input'|..]);
    assert input' + wire[|input'|..] == wire;
    var all := Blocks(n, wire);
    forall b | b in Blocks(n, input') ensures b == [0] || IsTitle(b) {
      assert b in all;
    }
    TitlesAccepted(BLANK, Blocks(n, input'));
    AcceptMore(BLANK, Blocks(n, input), blocks);
  }

  lemma RelayedTitle(n: nat, input: seq<byte>, metadata: seq<byte>)
    requires Relayed(n, input, metadata)
    ensures var shown := Shown(Blocks(n, input)); if shown == [] then metadata == BLANK else Text(metadata) == Text(Kept(shown))
  {
    hide Blocks;
    BlankIsTitle();
    TitlesAccepted(BLANK, Blocks(n, input));
  }

  /** One read: the next `take` bytes of the wire. */
  method Read(f: Filter, wire: seq<byte>, next: nat, take: nat) returns (audio: seq<byte>)
    requires f.Reading() && next + take <= |wire| && f.received == wire[..next] && take + |f.Pending()| <= REFBUF_SIZE
    requires AreTitles(Blocks(f.interval, wire)) && Relayed(f.interval, f.input, f.metadata)
    modifies f, f.build, f.readData
    ensures f.Reading() && f.received == wire[..next + take] && Relayed(f.interval, f.input, f.metadata)
    ensures f.delivered == old(f.delivered) + audio && (f.readData != null ==> f.readData == old(f.readData) || fresh(f.readData))
  {
    hide Strip, Blocks, Residue, Relayed, Filter.Reading, AcceptAll, AreTitles;
    ghost var input, metadata := f.input, f.metadata;
    var refbuf, running, from, blocks := f.GetBuffer(Some(wire[next..next + take]), false, None);
    assert wire[..next] + wire[next..next + take] == wire[..next + take];
    RelayedNext(f.interval, wire, input, f.input, metadata, blocks);
    audio := if refbuf.Some? then refbuf.value else [];
  }

  /** A connection that has something at every read, and enough reads for the whole wire. */
  predicate Enough(sizes: seq<nat>, total: nat) {
    |sizes| >= total && forall k :: 0 <= k < |sizes| ==> sizes[k] > 0
  }

  /**
   Relay: the wire of any run of the writer goes to the next server's filter, in reads of any size (`sizes`) up to the
   room there is in its buffer. The filter never gives up the stream, the audio it hands on is what was sent, as far as it
   has come, and it always has the title that a listener would show at that point. If cut blocks were resumed with their own
   bytes, that is in the end the title in force.
   */
  method RelayHop(n: nat, ghost calls: seq<Call>, ghost s: Session, wire: seq<byte>, sizes: seq<nat>)
    returns (f: Filter, audio: seq<byte>, next: nat)
    requires n > 0 && Reaches(Fresh(n), calls, s, false) && wire == s.wire
    ensures f.Reading() && f.interval == n && next <= |wire| && (Enough(sizes, |wire|) ==> next == |wire|)
    ensures f.received == wire[..next] && f.input <= f.received && |f.received| - |f.input| < REFBUF_SIZE
    ensures audio == f.delivered == Strip(n, f.input) <= s.audio
    ensures var shown := Shown(Blocks(n, f.input)); if shown == [] then f.metadata == BLANK else Text(f.metadata) == Text(Kept(shown))
    ensures f.input == wire ==> audio == s.audio
    ensures f.input == wire && Blocks(n, wire) != [] && Good(Fresh(n), true) && Reaches(Fresh(n), calls, s, true) ==>
              IsTitle(Title(s.st.associated)) && Text(f.metadata) == Text(Kept(Title(s.st.associated)))
  {
    hide Reaches, Strip, Blocks, Residue, Relayed, Filter.Reading, AcceptAll, Shown, Enough;
    BlocksLookRight(n, calls, s);
    RoundTrip(n, calls, s);
    f, audio, next := ReadAll(n, wire, sizes);
    f.Lag();
    RelayedTitle(n, f.input, f.metadata);
    ReadStays(n, f.input, wire[|f.input|..]);
    assert f.input + wire[|f.input|..] == wire;
    if Good(Fresh(n), true) && Reaches(Fresh(n), calls, s, true) {
      TitlesArrive(n, calls, s);
    }
  }

  method ReadAll(n: nat, wire: seq<byte>, sizes: seq<nat>) returns (f: Filter, audio: seq<byte>, next: nat)
    requires n > 0 && AreTitles(Blocks(n, wire))
    ensures f.Reading() && f.interval == n && next <= |wire| && f.received == wire[..next] && audio == f.delivered
    ensures Relayed(n, f.input, f.metadata) && (Enough(sizes, |wire|) ==> next == |wire|)
  {
    hide Blocks, Relayed, Filter.Reading, AreTitles, Filter.Pending;
    RelayedStart(n);
    f := new Filter(n);
    audio, next := [], 0;
    for i := 0 to |sizes|
      invariant f.Reading() && f.interval == n && next <= |wire| && f.received == wire[..next] && audio == f.delivered
      invariant Relayed(n, f.input, f.metadata) && fresh(f) && fresh(f.build) && (f.readData != null ==> fresh(f.readData))
      invariant Enough(sizes, |wire|) ==> next >= i || next == |wire|
    {
      var take := Least(sizes[i], Least(f.Room(), |wire| - next));
      var more := Read(f, wire, next, take);
      next := next + take;
      audio := audio + more;
    }
  }

  function Least(a: nat, b: nat): (c: nat) {
    if a < b then a else b
  }
}
