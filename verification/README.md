# Icecast in Dafny

A model of the parts of the Icecast streaming server in which something can go wrong over a whole run, with proofs that it
does not, or of exactly when it does.

Each part follows the form of the C code: objects whose fields the C functions update are classes with `modifies` clauses,
loops are loops, buffers that are filled in place are arrays. Invariants and the effect of single steps are stated on values,
so that they can be reasoned about apart from the objects. What comes from outside (what a socket accepts, what a
connection delivers, when time is up) is a parameter and may be anything.

- `RefCounts`, `StreamSlices`, `MountState`, `Sending`, `MountChanges`, `Broadcast`, `Mounts`: one mount's broadcast queue of reference
  counted buffers, its listeners and its source thread, and two mounts that hand listeners to each other.
- `IcyFraming`, `IcyMux`, `IcyListener`, `IcyFilter`, `IcyTitle`, `IcyRelay`: ICY inline metadata: what a listener
  reads from its wire, the writer, the filter for incoming streams, the title block, and one server feeding the next.
- `Ebml`, `EbmlMount`: the WebM slicer, and a mount that it feeds.
- `Words`, `Md5Transform`, `Md5`: the incremental MD5 against RFC 1321.
- `Links`, `OggPages`, `OggHeaders`, `OggSending`, `OggMount`: the shared list of Ogg header pages and how listeners are sent it.
- `StatsEvents`, `Stats`: the statistics and the listeners that follow their changes.
- `TextCodecs`: base64, percent-encoding and the path check.
- `Relays`: bringing the running relays in line with a new configuration.
- `RequestQueue`: the two client queues of the accepting thread.

## What holds, and where the code does not keep a promise

The count of every queued buffer is always 1, plus 1 from the burst point on, plus one for every listener at it, plus one for
every codec that may still mark it. So the branch of the source thread that logs "queue state is unexpected" is never taken.

Places where a property fails, each with an input and the exact condition under which it holds:

- A half-sent ICY metadata block is looked up again in the buffer the listener has meanwhile reached
  (src/format_mp3.c:384). The listener keeps reading the audio correctly if and only if the block found there is as long as the one
  that was started (`IcyMux.ResumeCondition`); `IcyMux.ResumeFails` is a run where it is longer. If it is shorter than what has
  been sent already, the C code computes a negative length and hands the socket bytes that belong to no block:
  `IcyMux.OverreadHappens` is a run that comes to this, `IcyMux.OffsetInside` says exactly when.
- With a block of the same length the audio is right and the title may not be: in `IcyMux.TitlesSpliced` the listener reads one
  that is made of two. It reads the block that was begun if and only if the one found goes on in the same way
  (`IcyMux.TitleResumed`).
- A listener that is moved to another mount in the middle of a list of Ogg header pages is sent the rest of the old list, and
  then data without its own headers (src/format_ogg.c:515-521): `OggSending.MovedMidway`. The page it is due may even have been
  freed by then (`OggMount.DuePageFreed`), which cannot happen while it holds its data page (`OggMount.DuePageAlive`). A page
  that a list has gained since it was sent is not sent either: `OggSending.GrownSince`. `OggSending.Listener.Write` has the
  conditions. A listener that stays on one mount always meets the first one, so that every data page goes out after its own
  list as long as that does not grow (`OggSending.Stay`).
- A short write of an Ogg header page does not advance the position (src/format_ogg.c:529-533), so the page is sent again
  from its start. The bytes are exact if and only if no page was cut (`OggSending.WireExact`).
- A header page attached while a live data page shares the list breaks the reference counts, and only then
  (`OggHeaders.State.Attach`; `OggHeaders.AttachShared` is such a run).
- A title that contains the two characters `';` is cut there by the next server; all others are recovered
  (`IcyTitle.CaptionRecovered`, `IcyTitle.CaptionCut`).
- A WebM stream that starts with a Cluster has it taken for a part of the header (src/format_ebml.c:450): `Ebml.StartsWithCluster`.
  The header ends at the first Cluster that was seen if and only if the first read does not start with one (`Ebml.Slicer.HeaderEnd`).
- Statistics followers are sent the amount, not the total, when something is added to or subtracted from a statistic
  (src/stats.c:472). They stay in step if and only if the statistic was 0, or twice the amount subtracted, and the amount is
  written as the server writes numbers; for totals that do not fit 15 characters, if cutting makes it so
  (`StatsEvents.FollowerKeepsUp`, `StatsEvents.ExactShort`; `StatsEvents.FollowerMisled` adds 3 to 5).
- Counting a global statistic that does not exist makes the C code copy a missing string (src/stats.c:509). That happens if
  something is counted before the server has set its statistics (`StatsEvents.CrashBeforeStart`), and never afterwards
  (`StatsEvents.StartedStays`, `Stats.Server.Run`).
- A comment says that MD5Final clears the context; `memset(ctx, 0, sizeof(ctx))` clears the size of an address, eight bytes here
  (src/md5.c:176). `Md5.Context.Final` says what stays: half of the digest, and the bit count.
- A relay that is kept does not take over a changed user name or password (src/slave.c:489-506): it is configured as asked if and
  only if these have not changed (`Relays.KeptLogin`, `Relays.OldLoginKept`).
- The path check is documented to keep requests inside the web root. It accepts `/..`, and no other path that leaves it
  (`TextCodecs.ClimbsAtMost`, `TextCodecs.ParentAccepted`).

## Model

| member | source | states |
|---|---|---|
| `Broadcast.Source.CountLaw` | src/refbuf.c:74-107 | in every state that satisfies the invariant, the count of a queued buffer is 1 + 1 if at or after the burst point + the number of listeners at it + the number of codecs keeping it |
| `Broadcast.Source.GapFree` | src/format.c:252-289 | what a listener on the queue has been sent of the stream is exactly one contiguous slice of it, from the first byte of a starting point to its position; the format's header was complete before |
| `Broadcast.Source.SentInOrder` | src/format_ebml.c:119-158 | the bytes the socket has taken from a listener's record on: its response up to where it is in it, then the header up to header_pos, intro file data only after the whole header, then the stream; the recorded header bytes are exactly the header up to header_pos |
| `Broadcast.Source.Accounting` | src/source.c:735-752 | queue_size is the total length of the queued buffers, burst_offset that of the buffers from the burst point on |
| `Broadcast.Source.OnePlace` | src/source.c:776-830 | everybody known to a mount is in exactly one of the client tree, the pending tree and those who left; `listeners` is the size of the client tree |
| `Broadcast.Source.Append` | src/source.c:725-757 | the buffer is the new tail, and either burst_offset is within burst_size or the burst point is the tail |
| `Broadcast.Source.ShrinkBurst` | src/source.c:744-757 | the burst point moves on only while the burst part is too large, by no buffer more than needed, and ends within the limit or at the tail |
| `Broadcast.Source.ReleasePossibleStart` | src/format_kate.c:155-171 | a codec marks a queued buffer or not and gives back its reference; the invariant holds |
| `Broadcast.Source.Put` | src/client.c:280-290 | changing a listener's buffer moves one reference from the old buffer to the new one and nothing else |
| `Broadcast.Source.AdvanceQueue` | src/format.c:272-289 | a listener goes to the next buffer exactly when it has been sent all of this one and there is a next one; -1 exactly when there is nothing to send |
| `Broadcast.Source.FindClientStart` | src/format.c:116-149 | a listener is put at a marked buffer at or after the burst point; it stays without one only if the tail is not marked; with offset 0 it is the first marked one from the burst point on, with -1 and a marked tail the tail |
| `Broadcast.Source.SearchFrom` | src/format.c:116-136 | the search starts at or after the burst point, at the tail if that is marked and no burst is wanted, at the burst point for offset 0, whatever the unsigned countdown does |
| `Broadcast.Source.CheckFileBuffer` | src/format.c:172-211 | a listener with intro data left or a next piece is ready to be sent that; one without looks for a place in the queue, and is on it afterwards if the tail is marked; without a stream the intro file starts again |
| `Broadcast.Source.CheckHttpBuffer` | src/format.c:217-249 | the response is sent to its end before anything else, the listener gets the format's header with it, or an error if there is none yet; then on to the intro file |
| `Broadcast.Source.WriteToClient` | src/format_ebml.c:119-158 | the header is offered in slices before the buffer; what the listener has been sent altogether grows by exactly the bytes the socket took of that offer, whatever it answers, and its positions move by as much |
| `Broadcast.Source.Turn` | src/source.c:570-579 | exactly the bytes that were due and that the socket took have been sent; with nothing due a listener goes on from the response to the intro file, from there to the queue if the tail is marked, and on the queue stays as it is |
| `Broadcast.Source.SendToListener` | src/source.c:541-594 | what is due and the socket takes is sent in the first turn, so a listener with unsent stream bytes and a complete header is sent more of the stream; a socket that takes everything gets all there is, up to an empty buffer, or at least ten pieces, or more than 20000 bytes; only this listener's record and the counts change; it is marked for removal only if its connection failed, its time was up, there was no header for it, or removal is expected and it is at the head of the queue; if removal is expected and it is not marked, it is not at the head |
| `Sending.DueNow` | src/format.c:172-289 | what is due to a listener: the rest of the response; the next slice of the header; then the rest of its buffer, or else the next buffer or piece of the intro file |
| `Sending.SendGrows` | src/format.c:252-264 | after the socket has taken any part of an offer, the positions agree with what has been sent, and everything sent has grown by that part at its end |
| `Sending.NextPiece` | src/format.c:152-166 | the intro file goes out in pieces of 4096 bytes or what is left of it, each where the one before ended, up to the end of the file |
| `Sending.FullTurn` | src/source.c:567-579 | a turn with a socket that takes everything leaves a listener on the queue at least one piece less to be sent, unless nothing was due or its buffer is empty |
| `Broadcast.Source.FreeClient` | src/source.c:782-790 | the listener's reference is given back, the others stay, it is recorded as gone |
| `Broadcast.Source.AddListener` | src/auth.c:440-442 | a new connection waits in the pending tree with a buffer of its own |
| `Broadcast.Source.AdmitPending` | src/source.c:795-830 | the pending tree ends empty, everybody is let in with the record they had or refused, somebody is refused only if there is a limit and the listeners end at it or above, and the limit is never exceeded by letting somebody in |
| `Broadcast.Source.Trim` | src/source.c:850-874 | only buffers with a single reference go; the queue is not emptied, the "unexpected" branch is unreachable, and the head that stays is still needed by somebody |
| `Broadcast.Source.ServeAll` | src/source.c:776-793 | everybody has been served, those dropped as well: what was due and taken in the first turn has been sent; everybody who stays has only gone on and has no error; everybody dropped had to go: connection failed, time up, no header, or at the head of a queue over its limit; after a pass over the limit nobody is at the head |
| `Broadcast.Source.ClientPhase` | src/source.c:771-877 | serving, admitting and trimming together keep the invariant; a head that only listeners could need is removed when the queue was too long |
| `Broadcast.Source.Pass` | src/source.c:719-878 | one pass: the stream grows by the new buffer; everybody who was there is served with it: sent what was due and taken, and by a socket that takes everything all there is, ten pieces, or more than 20000 bytes; everybody who stays keeps the place where they joined and is only sent more, nobody is dropped without a reason, newcomers join at or after the burst point, the limit on listeners and the burst size are kept, and if the queue with the new buffer is over its limit and its head is before the burst point and kept by no codec, the queue does not get longer |
| `Broadcast.Source.MoveClients` | src/source.c:353-461 | everybody arrives at the destination exactly once, or nothing changes at all: one still being sent the response with that, everybody else without a buffer of the old queue, with what was sent to them on record, and with their offset if a source is connected to the mount they left; an on-demand destination is asked to start exactly when somebody came and it was not running |
| `Broadcast.Source.FreeQueue` | src/source.c:263-277 | with nobody left the queue can be released completely |
| `Broadcast.Source.ClearSource` | src/source.c:206-303 | everybody still there is freed once, all codecs let go, the queue and the settings are cleared, a pending on-demand request with them |
| `Mounts.Run` | src/source.c:711-880 | any run of two mounts goes through one state per step, each made from the one before as that step says (a connection, a pass, a codec's decision, a move, clearing, restarting); the invariants of both mounts hold and no listener is on both |
| `RefCounts.LawSwitch` | src/client.c:280-290 | one listener changing its buffer keeps the count law of the whole queue |
| `RefCounts.LawBurst` | src/source.c:744-753 | moving the burst point keeps the count law, and the buffer it leaves still has a reference |
| `RefCounts.LawTrim` | src/source.c:858-873 | a head with count 1 has no holder, is before the burst point and is not the last; without it the count law holds for the rest |
| `StreamSlices.SliceIsContiguous` | src/format.c:272-289 | buffers sent one after the other are one slice of the concatenated stream |
| `IcyFraming.ResumeExact` | src/format_mp3.c:321-365 | for a listener inside a block, any bytes continue its reading correctly if and only if they complete the block to the size it announced |
| `IcyFraming.AppendBlock` | src/format_mp3.c:345-353 | completing a block starts a new run and leaves the audio as it was |
| `IcyFraming.StripSplit` | src/format_mp3.c:571-640 | stripping loses nothing: audio is the audio of the complete frames and of the run in progress |
| `IcyMux.WriteKeeps` | src/format_mp3.c:371-444 | one call, whatever the socket takes: the counters still describe the wire, the audio on the wire is exactly what the position moved over, the result is the number of bytes sent |
| `IcyMux.RoundTrip` | src/format_mp3.c:371-444 | for every interval, sequence of buffers and pattern of partial writes, stripping the wire gives the audio consumed, and the run counter is at most the interval |
| `IcyMux.TitlesArrive` | src/format_mp3.c:321-365 | if cut blocks are resumed with their own bytes, all blocks are valid and the listener shows the title in force at the last metadata point |
| `IcyMux.ResumeCondition` | src/format_mp3.c:381-390 | for every block found on resuming, a shorter one included: the listener reads the audio that follows correctly if and only if that block has the length that was announced |
| `IcyMux.ResumeFails` | src/format_mp3.c:381-390 | a run in which it does not: the audio the listener reads is wrong |
| `IcyMux.TitleResumed` | src/format_mp3.c:331-365 | the listener then also reads the block that was begun if and only if the block found has its length and goes on as it does from the place where it was cut |
| `IcyMux.TitlesSpliced` | src/format_mp3.c:331-365 | a run with right audio and a title made of two |
| `IcyMux.BlocksLookRight` | src/format_mp3.c:321-365 | whatever titles cut blocks were resumed with, every block the listener reads is "no change" or looks like a title |
| `IcyMux.OffsetInside` | src/format_mp3.c:331-348 | the length handed to the socket is negative if and only if more has been sent than the block found has; never if that is at least as long as announced |
| `IcyMux.OverreadHappens` | src/format_mp3.c:331-348 | a run that comes to this: 20 bytes of a long block are sent, then a buffer with the empty title is reached |
| `IcyMux.StaysCallable` | src/format_mp3.c:371-444 | whatever block is found on resuming, the counters stay in range unless the call overreads |
| `IcyMux.WriteSends` | src/format_mp3.c:371-444 | for all answers of the socket: the rest of a begun block, the audio up to the metadata point, the block and at most one interval of audio after it go out in this order until one is taken only in part, and of that exactly what was taken; without metadata all audio is offered |
| `IcyMux.FullCall` | src/format_mp3.c:371-444 | a call whose answers take everything uses all audio if there is no metadata point in it, and otherwise all up to that point and one interval more at most; the listener reads one block more for the one begun and for the point reached |
| `IcyListener.Listener.SendStreamMetadata` | src/format_mp3.c:321-365 | the client record and the wire change as the writer specification says, and the call reads past the block exactly when the specification says so |
| `IcyListener.Listener.WriteBufToClient` | src/format_mp3.c:371-444 | the imperative writer does what the specification of the whole call says, for all blocks found and all socket answers; what it sends, and how much of that is audio, is as `IcyMux.WriteSends` says |
| `IcyFilter.Filter.Collect` | src/format_mp3.c:578-640 | metadata bytes are gathered over any number of reads within 4081 bytes; a complete block is appended to the blocks read, and the stream is given up exactly if the block is refused |
| `IcyFilter.Filter.FilterBuffer` | src/format_mp3.c:560-645 | in-place filtering keeps exactly the audio these bytes add to the stream, wherever the cuts are |
| `IcyFilter.Filter.CompleteRead` | src/format_mp3.c:467-509 | nothing read from the connection is lost or read twice; a buffer is handed on exactly when it is full |
| `IcyFilter.Filter.GetBuffer` | src/format_mp3.c:540-656 | over any number of reads the audio handed on is the stripped prefix of the input, and the metadata is what the blocks in it make of the old one, or of the title set from outside if there is one when a buffer is full; nothing is filtered before that, and all of a full buffer is |
| `IcyFilter.AcceptMore` | src/format_mp3.c:592-632 | accepting blocks one after the other or all together is the same |
| `IcyTitle.TitleBlock` | src/format_mp3.c:240-313 | every block built has length 1 + 16 * its first byte, between 1 and 255, starts with the title tag, and none is built when the text is too long |
| `IcyTitle.BlockBytes` | src/format_mp3.c:266-305 | the bytes of the block: the length byte, "StreamTitle='", the artist, a dash and the title, or the title alone, the closing characters, the URL that comes with the stream or else the one set, and NULs; unless the URL came with the stream, nothing is cut |
| `IcyTitle.CaptionRecovered` | src/format_mp3.c:171-199 | out of its own copy of the block, with the last byte cleared, the next server reads the same title if and only if the title does not contain the closing quote and semicolon |
| `IcyTitle.CaptionCut` | src/format_mp3.c:171-199 | a title with these characters that is not recovered |
| `IcyRelay.TitlesAccepted` | src/format_mp3.c:589-632 | blocks as one server sends them always pass the inline check of the next |
| `IcyRelay.RelayHop` | src/format_mp3.c:371-656 | the wire of any run of one server whose audio is right, read by the filter of the next in pieces of any size: the stream is never given up, with enough reads all of it is read, the audio handed on is what was sent as far as it was filtered, and the title is the one a listener would show there; at the end it is the title in force if cut blocks were resumed with their own bytes |
| `Ebml.Slicer.Scan` | src/format_ebml.c:442-458 | the first Cluster among the places looked at, or none |
| `Ebml.Slicer.FindLast` | src/format_ebml.c:442-463 | the last Cluster among the places looked at |
| `Ebml.Slicer.Wrote` | src/format_ebml.c:414-469 | input is only appended, only an oversized header is refused, and the stream buffer never holds more than 4 + 4096 bytes |
| `Ebml.Slicer.ReadStream` | src/format_ebml.c:329-385 | bytes leave the buffer from its front, at most up to the Cluster known |
| `Ebml.Slicer.LastWasSync` | src/format_ebml.c:387-404 | true exactly at -1, and the countdown through 0, -1 and -2 |
| `Ebml.Slicer.Emit` | src/format_ebml.c:173-188 | a buffer is marked as a starting point exactly when it begins where one is due; no such place is inside it; a marked one begins where the Cluster ID is in the input |
| `Ebml.Slicer.GetBuffer` | src/format_ebml.c:160-210 | header, emitted buffers and held-back bytes are the input, for every cutting into reads; the first buffer after the header is marked, and then exactly those that begin at the last Cluster found in a read; none of these places is inside a buffer; a marked buffer starts at a Cluster; there is no buffer only when everything there was has been read or the header is too large, and only then the source ends |
| `Ebml.Slicer.HeaderEnd` | src/format_ebml.c:442-458 | the header ends at a Cluster, before which none was seen if and only if the first read does not start with one |
| `Ebml.StartsWithCluster` | src/format_ebml.c:448-454 | a first read that does: the slicer goes on collecting the header |
| `EbmlMount.Mount.Run` | src/format_ebml.c:160-242 | any run of a WebM mount goes through one state per event: a connection adds a listener, a pass reads from the input, adds one buffer to the queue unless the input did not bring one, and serves everybody; the starting points of the queue are exactly the marked buffers, which are at Clusters, and every listener has the header |
| `EbmlMount.Mount.StartsAtCluster` | src/format_ebml.c:119-158 | the header bytes a listener on the mount has been sent are the input up to its place in it, and all of the input up to the Cluster that ended the header once it has been sent anything of the stream; that is one contiguous slice of the input that starts at a Cluster; no Cluster was seen before the end of the header if and only if the first read does not start with one |
| `EbmlMount.Mount.StartingPoints` | src/format_ebml.c:173-188 | a starting point of the queue begins at a place of the input if and only if that is the end of the header or the last Cluster found in a later read, as far as the stream has got |
| `Md5Transform.F1` | src/md5.c:182-186 | the optimized form is the function F of section 3.4 of RFC 1321, for all words |
| `Md5Transform.F2` | src/md5.c:182-186 | the same for G |
| `Md5Transform.Transform` | src/md5.c:196-277 | the 64 steps written out are the 64 indexed operations of section 3.4 of RFC 1321 |
| `Md5.CountMore` | src/md5.c:87-95 | the carry logic counts bits modulo 2^64 |
| `Md5.Context.ByteReverse` | src/md5.c:51-62 | the words of the buffer, low-order byte first |
| `Md5.Context.Update` | src/md5.c:83-129 | the context has processed all whole blocks of everything it was given and holds the rest, for every cutting |
| `Md5.Context.Pad` | src/md5.c:140-164 | the padding of section 3.1 of RFC 1321, in one block or two |
| `Md5.Context.Final` | src/md5.c:135-178 | the digest of everything the context was given, as RFC 1321 defines it in one go; afterwards two words are cleared, the others are the second half of the digest, and the bit count is not zero for a message that is not empty |
| `Md5.DigestOf` | src/md5.c:68-178 | for every message and every cutting into pieces the digest is that of the whole message |
| `OggHeaders.State.Attach` | src/format_ogg.c:103-124 | the list is all BOS pages in order of arrival, then all others in order of arrival, with bos_end and tail at their places; the counts are right if and only if no live data page shares the list |
| `OggHeaders.State.Complete` | src/format_ogg.c:364-374 | one more reference on every page of the current list, which the data page shares |
| `OggHeaders.State.Drop` | src/refbuf.c:79-107 | the last release of a data page gives back one reference on every page of its list, whichever list that is |
| `OggHeaders.State.FreeHeaders` | src/format_ogg.c:127-143 | the Ogg state gives back its reference on every page and starts an empty list |
| `OggHeaders.State.PageLife` | src/refbuf.c:79-107 | a header page is freed at most once, and exactly when the Ogg state and all data pages that shared its list have let go; until then its count is their number |
| `OggHeaders.Run` | src/format_ogg.c:103-143 | any run goes through one state per step, each made from the one before as that step says, and ends early exactly before a page is added to a shared list; all of the above holds throughout |
| `OggHeaders.AttachShared` | src/format_ogg.c:103-124 | a page attached to a shared list: the counts are wrong |
| `OggSending.Listener.SendHeaders` | src/format_ogg.c:509-544 | what is left of a list that was begun gets across in order, each page before the next is started, whichever list is asked for; then that one counts as sent; the result is the number of bytes sent |
| `OggSending.Listener.Write` | src/format_ogg.c:550-582 | when data goes out, exactly the pages of its list have got across, in order, if and only if no other list was half sent, or, for a list sent before, if it has not grown; the result is the number of bytes sent |
| `OggSending.Stay` | src/format_ogg.c:509-582 | a listener that stays on one mount, going on only when a page has been sent: one call for every answer of the socket, each going on where the last left off, until all pages are done; as long as no list grows, every data page goes out after exactly its own list, whatever the socket takes, and a call whose answers take everything finishes its page |
| `OggSending.OwnHeaders` | src/format_ogg.c:509-582 | in such a series of calls, whenever data went out its own header pages had got across, all of them and in order |
| `OggSending.MovedMidway` | src/format_ogg.c:515-543 | a listener moved in the middle of a list: the data page goes out without a page of its own list |
| `OggSending.GrownSince` | src/format_ogg.c:561-567 | a list that has grown since it was sent: the data page goes out without the new page |
| `OggMount.DuePageAlive` | src/refbuf.c:79-107 | the header page that a listener is due has not been freed while it holds the data page of that list |
| `OggMount.DuePageFreed` | src/client.c:280-290 | a listener that lets go of its data page in the middle of the list is due a page that has been freed |
| `OggSending.WireExact` | src/format_ogg.c:526-540 | the header bytes on the wire are exactly the pages if and only if no attempt stopped inside a page |
| `OggSending.ChainUnique` | src/format_ogg.c:525-540 | the links determine the list, so comparing first pages compares lists |
| `StatsEvents.FollowerKeepsUp` | src/stats.c:415-483 | a follower that has the right statistics before an event has them afterwards if and only if the event does not add or subtract, or its amount, cut and written as the server does, is the total |
| `StatsEvents.ExactShort` | src/stats.c:460-472 | for totals of fewer than 16 characters: if and only if the statistic was 0, or twice the amount subtracted, and the amount is written as the server writes numbers |
| `StatsEvents.Printed` | src/stats.c:469-470 | a text is what is printed for a number if and only if it is a printed number and reading it gives that number, cut to 15 characters |
| `StatsEvents.EventCounts` | src/stats.c:447-475 | what an event makes of the statistic it names, read as a number: exactly that if the total has fewer than 16 characters, otherwise that total without its last digits |
| `StatsEvents.StartedStays` | src/stats.c:486-513 | once the statistics set at the start are there, no event of the server counts one that is missing, and they stay |
| `StatsEvents.CrashBeforeStart` | src/stats.c:504-509 | counting a listener before that does |
| `StatsEvents.FollowerMisled` | src/stats.c:460-472 | adding 3 to 5: the server has 8, the follower is told 3 |
| `Stats.Server.ProcessGlobal` | src/stats.c:486-513 | exactly the statistic named changes, as the event says; the code crashes exactly when it counts a global statistic that is not there |
| `Stats.Server.ProcessSource` | src/stats.c:516-586 | exactly the statistics concerned change; removing a source removes all of them |
| `Stats.Server.Process` | src/stats.c:697-724 | unless that happens, the number in the statistic is one more for INC, one less for DEC, more or less by the amount for ADD and SUB, and for SET its text is the event's; every listener gets the same copy, and all stay in step if and only if the event is exact |
| `Stats.Server.Start` | src/stats.c:674-686 | after the initial events, and the one of src/fserve.c:114, every statistic that is counted is there |
| `Stats.Server.MakeSnapshot` | src/stats.c:865-899 | replaying the snapshot gives the current statistics, in whatever order the trees are walked |
| `Stats.Server.Register` | src/stats.c:865-905 | a new listener is in step from the start |
| `Stats.Server.Take` | src/stats.c:781-794 | events leave a listener's queue in order, none is lost |
| `Stats.Server.Run` | src/stats.c:664-735 | any interleaving of registrations, reads and events goes through one state per step, each made from the one before as that step says, up to a crash or an event that is not exact; until then every listener's replay is the current statistics; SET, INC, DEC and REMOVE are always exact; a server that has started does not crash on its own events |
| `TextCodecs.Base64RoundTrip` | src/util.c:429-507 | decoding what was encoded gives every NUL-free string back, as a C string |
| `TextCodecs.DecodeOfEncode` | src/util.c:462-507 | as bytes, filled up with zeros where there was padding |
| `TextCodecs.QuadBits` | src/util.c:429-460 | four characters stand for the bits of three bytes in order, and padding for the missing ones |
| `TextCodecs.Alphabet` | src/util.c:387-392 | the alphabet of section 4 of RFC 4648 |
| `TextCodecs.Base64Encode` | src/util.c:429-460 | the loop computes the encoding of RFC 4648, section 4, and stays within the n * 4 / 3 + 4 bytes allocated |
| `TextCodecs.EncodedFits` | src/util.c:429-433 | the encoded text and its NUL fit the n * 4 / 3 + 4 bytes allocated, with none to spare when n mod 3 is 1 |
| `TextCodecs.Base64Decode` | src/util.c:462-507 | the loop computes the decoding within its buffer; it fails exactly when the length is no multiple of 4 |
| `TextCodecs.UrlRoundTrip` | src/util.c:274-348 | unescaping what was escaped gives every string back |
| `TextCodecs.EscapedPlain` | src/util.c:251-300 | escaped text consists of letters, digits and `%`; exactly the text of letters and digits stays as it is |
| `TextCodecs.HexDigits` | src/util.c:183-193 | the sixteen digits of either case have the values 0 to 15 in order, and no other character has one |
| `TextCodecs.UrlEscape` | src/util.c:274-300 | the loop computes the escaped text within 3 bytes per character and the NUL |
| `TextCodecs.UrlUnescape` | src/util.c:302-348 | the loop decodes up to a `#`, and fails exactly at a `%` without two hexadecimal digits |
| `TextCodecs.VerifyPath` | src/util.c:195-221 | a path is accepted if and only if no two of its slashes have nothing, or only dots, between them |
| `TextCodecs.ClimbsAtMost` | src/util.c:195-221 | an accepted path that starts with a slash never leaves its directory before its last component, and with that one if and only if it is a slash followed by two dots |
| `TextCodecs.ParentAccepted` | src/util.c:195-221 | that path is accepted |
| `TextCodecs.NormaliseUri` | src/util.c:355-385 | a URI is accepted if and only if it starts with a slash, can be decoded, and its decoded path is allowed; the only accepted path that leaves the web root is `/..` |
| `Relays.RelayList.UpdateRelays` | src/slave.c:514-567 | one relay per configuration in reverse order, kept or new; no running relay is lost or used twice; what is returned for cleanup is, key by key, what the old list had more than the configuration; new relays differ from all nodes there ever were |
| `Relays.SecondUpdate` | src/slave.c:514-567 | the same configuration again keeps every relay and returns none |
| `Relays.KeptLogin` | src/slave.c:489-506 | a relay is configured as asked if and only if it is new or its user name and password have not changed |
| `Relays.OldLoginKept` | src/slave.c:489-506 | a relay whose password was changed goes on with the old one |
| `RequestQueue.Queues.AddRequest` | src/connection.c:740-744 | a new client is the last of the request queue |
| `RequestQueue.Queues.AddConnection` | src/connection.c:607-613 | a client with complete headers is the last of the connection queue |
| `RequestQueue.Queues.GetConnection` | src/connection.c:619-636 | the first of the connection queue is taken out, and the tail is the head again when it was the only one |
| `RequestQueue.Queues.Process` | src/connection.c:640-734 | one pass keeps exactly the waiting clients in order, appends the completed ones to the connection queue in order, destroys only the failed ones, and both tails own the last link |

## Left out

- Broadcast: buffers are named by their number in the stream and the queue is a sequence; the `next` pointers of queued buffers are not modelled. Sizes are unbounded where the C code has 32 bits.
- Broadcast: the AVL trees are maps keyed by connection id, served in any order. One flag stands for `source->client` and `source->con`, which the source code sets and clears together but for a failing relay connection.
- Broadcast.Source.CheckHttpBuffer: the text of the response is a parameter; the paths on which it cannot be built, where the C code destroys the client and goes on using it, are not modelled.
- Broadcast.Source.SearchFrom: says where the search starts, not how many bytes are skipped, because the countdown is unsigned and can wrap.
- Broadcast.Source.GapFree: is about the bytes of queued buffers; the response, the header and the intro file, which go to the listener before them, are in `Broadcast.Source.SentInOrder`. That the record of own buffers is the response and then whole pieces of the intro file is said piece by piece (`Sending.NextPiece`), not of all pieces since the response, because a mount's intro file can change.
- Broadcast.Source.SendToListener: what ten turns come to is said of listeners on the queue; of the others what the first turn does.
- EbmlMount.Mount.StartsAtCluster: listeners that came from another mount keep the header of that mount, so it is stated for a mount whose listeners connected to it.
- IcyMux.RoundTrip: holds for runs in which cut blocks are resumed under the condition of `IcyMux.ResumeCondition`; after an overread nothing is claimed. Metadata buffers are compared by identity, and an address that is used again for another buffer is not modelled.
- IcyTitle.TitleBlock: a missing title next to a missing artist, which C prints as "(null)", counts as empty.
- Ebml: a Cluster ID that is cut by two reads, or is in the last four bytes of a read, is not found by the code, and of several in one read only the last starts a buffer; the claims are about the Clusters found.
- Md5.Context.ByteReverse: gives the words by value; that the C code stores them in the same memory, and the machine's byte order, are not modelled. The sine table is written out, not derived.
- OggSending.Listener.Write: addresses are not used again, so that a list is not taken for another one that was at the same place; pages that were freed keep what they had.
- Stats.Server.Process: hidden statistics, `stats_clear_virtual_mounts`, 32-bit overflow of atoi and the text form in which followers receive events are not modelled.
- Relays.RelayList.UpdateRelays: starting and stopping the relays.
- RequestQueue.Queues.Process: what reading from a client comes to (timeouts, header ends, stream_offset) is a parameter.
- Sockets, threads, locks, logging, configuration, the web interface, authentication, YP listing, XSLT, file serving and SSL.
- The codecs that only analyse packets through libogg, libvorbis, libtheora and libkate; dump files; the client's own read buffer (`client_read_bytes`), which is a plain shift.
