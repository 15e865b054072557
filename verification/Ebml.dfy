/**
 The WebM/EBML slicer of src/format_ebml.c. Bytes read from the source go to a header buffer until the first
 Cluster is seen; from then on they pass through a small buffer of which the last four bytes are held back,
 and are cut so that a Cluster found starts a new buffer.
 */
module Ebml {
  import opened Octets

  const HEADER_MAX_SIZE := 131072
  const SLICE_SIZE := 4096
  /** How many bytes stay in the buffer when everything readable has been read. */
  const HOLD_BACK := 4

  /** The EBML ID of a Cluster element, section 5.1.3 of RFC 9559. */
  const CLUSTER_ID: seq<byte> := [0x1F, 0x43, 0xB6, 0x75]

  predicate ClusterAt(s: seq<byte>, k: int) {
    0 <= k <= |s| - 4 && s[k] == 0x1F && s[k + 1] == 0x43 && s[k + 2] == 0xB6 && s[k + 3] == 0x75
  }

  /** The places of a chunk that are looked at for a Cluster. */
  predicate Found(chunk: seq<byte>, b: int) {
    0 <= b < |chunk| - 4 && ClusterAt(chunk, b)
  }

  lemma ClusterShift(front: seq<byte>, s: seq<byte>, back: seq<byte>, k: int)
    requires ClusterAt(s, k)
    ensures ClusterAt(front + s + back, |front| + k)
  {
  }

  lemma ClusterStays(s: seq<byte>, back: seq<byte>, k: int)
    requires ClusterAt(s, k)
    ensures ClusterAt(s + back, k)
  {
  }

  lemma ClusterId(s: seq<byte>, k: nat)
    requires k + 4 <= |s|
    ensures ClusterAt(s, k) <==> s[k..k + 4] == CLUSTER_ID
  {
    var id := s[k..k + 4];
    assert id[0] == s[k] && id[1] == s[k + 1] && id[2] == s[k + 2] && id[3] == s[k + 3];
  }

  /** A Cluster of the last chunk, seen in the whole stream. */
  lemma ClusterInTail(s: seq<byte>, chunk: seq<byte>, b: int)
    requires |chunk| <= |s| && chunk == s[|s| - |chunk|..] && Found(chunk, b)
    ensures ClusterAt(s, |s| - |chunk| + b)
  {
    var front := s[..|s| - |chunk|];
    assert s == front + chunk + [];
    ClusterShift(s[..|s| - |chunk|], chunk, [], b);
  }

  lemma CutTail(s: seq<byte>, chunk: seq<byte>, b: nat)
    requires b <= |chunk| <= |s| && chunk == s[|s| - |chunk|..]
    ensures s == s[..|s| - |chunk| + b] + [] + chunk[b..]
  {
  }

  /** A Cluster is found at offset `p` of the stream, in one of the reads that made it up. */
  ghost predicate Seen(taken: seq<seq<byte>>, p: int) {
    taken != [] &&
    var front := taken[..|taken| - 1];
    Seen(front, p) || Found(taken[|taken| - 1], p - |Bytes(front)|)
  }

  lemma SeenMore(taken: seq<seq<byte>>, chunk: seq<byte>, p: int)
    ensures Seen(taken + [chunk], p) <==> Seen(taken, p) || Found(chunk, p - |Bytes(taken)|)
    ensures Bytes(taken + [chunk]) == Bytes(taken) + chunk
  {
    assert (taken + [chunk])[..|taken|] == taken;
  }

  lemma {:induction false} SeenInside(taken: seq<seq<byte>>, p: int)
    requires Seen(taken, p)
    ensures 0 <= p < |Bytes(taken)|
  {
    var front := taken[..|taken| - 1];
    if Seen(front, p) {
      SeenInside(front, p);
    }
  }

  /** The only read that can start the stream is the first: it does, with a Cluster, if and only if one is seen at 0. */
  lemma {:induction false} SeenAtStart(taken: seq<seq<byte>>)
    requires [] !in taken
    ensures Seen(taken, 0) <==> taken != [] && Found(taken[0], 0)
  {
    if taken != [] {
      var front := taken[..|taken| - 1];
      SeenAtStart(front);
      if front != [] {
        assert front[0] == taken[0] && |Bytes(front)| > 0 by {
          assert Bytes(front) == Bytes(front[..|front| - 1]) + front[|front| - 1];
          assert front[|front| - 1] in taken;
        }
      }
    }
  }

  /** Before `limit` no Cluster has been seen, but for a stream that starts with one. */
  ghost predicate NoneBefore(taken: seq<seq<byte>>, limit: nat) {
    forall p :: Seen(taken, p) && p < limit ==> Seen(taken, 0)
  }

  /** One more read of the header phase, which goes on (`end` is 0) or ends at the first Cluster of this read. */
  lemma NoneBeforeHeader(taken: seq<seq<byte>>, chunk: seq<byte>, end: nat)
    requires NoneBefore(taken, |Bytes(taken)|)
    requires if end > 0 then IsFirst(chunk, end - |Bytes(taken)|) && end >= |Bytes(taken)|
             else IsFirst(chunk, -1) || (|Bytes(taken)| == 0 && IsFirst(chunk, 0))
    ensures NoneBefore(taken + [chunk], if end > 0 then end else |Bytes(taken)| + |chunk|)
  {
    hide Found;
    var start := |Bytes(taken)|;
    forall p | Seen(taken + [chunk], p) && p < (if end > 0 then end else start + |chunk|) ensures Seen(taken + [chunk], 0) {
      SeenMore(taken, chunk, p);
      SeenMore(taken, chunk, 0);
      if Seen(taken, p) {
        SeenInside(taken, p);
      }
    }
  }

  /** Reads after the header are no concern of its end. */
  lemma NoneBeforeStream(taken: seq<seq<byte>>, chunk: seq<byte>, end: nat)
    requires NoneBefore(taken, end) && end <= |Bytes(taken)|
    ensures NoneBefore(taken + [chunk], end)
  {
    forall p | Seen(taken + [chunk], p) && p < end ensures Seen(taken + [chunk], 0) {
      SeenMore(taken, chunk, p);
      SeenMore(taken, chunk, 0);
    }
  }

  /** `at` is the first Cluster found in `chunk`, -1 when there is none. */
  ghost predicate IsFirst(chunk: seq<byte>, at: int) {
    if at < 0 then forall b :: !Found(chunk, b) else Found(chunk, at) && forall b :: Found(chunk, b) ==> at <= b
  }

  /** A read of the header phase after which that goes on: it brings no Cluster, or it starts the stream with one. */
  ghost predicate Collects(chunk: seq<byte>, start: nat) {
    (forall b :: !Found(chunk, b)) || (start == 0 && Found(chunk, 0))
  }

  lemma CollectsAt(chunk: seq<byte>, end: nat, start: nat)
    requires if end > 0 then end >= start && IsFirst(chunk, end - start) else IsFirst(chunk, -1) || (start == 0 && IsFirst(chunk, 0))
    ensures end == 0 <==> Collects(chunk, start)
    ensures chunk == [] ==> end == 0
  {
    hide ClusterAt;
  }

  /** The last Cluster found in a read. */
  ghost predicate LastIn(chunk: seq<byte>, b: int) {
    Found(chunk, b) && forall i :: Found(chunk, i) ==> i <= b
  }

  /** Offset `p` is that of the last Cluster found in a read that began after the header. */
  ghost predicate LastSeen(taken: seq<seq<byte>>, headerSize: nat, p: int) {
    taken != [] &&
    var front := taken[..|taken| - 1];
    LastSeen(front, headerSize, p) || (headerSize < |Bytes(front)| && LastIn(taken[|taken| - 1], p - |Bytes(front)|))
  }

  /** Where a listener is to start: at the end of the header, and at the last Cluster found in each later read. */
  ghost predicate StartDue(taken: seq<seq<byte>>, headerSize: nat, p: int) {
    p == headerSize || LastSeen(taken, headerSize, p)
  }

  lemma LastSeenMore(taken: seq<seq<byte>>, chunk: seq<byte>, headerSize: nat, p: int)
    ensures LastSeen(taken + [chunk], headerSize, p) <==>
            LastSeen(taken, headerSize, p) || (headerSize < |Bytes(taken)| && LastIn(chunk, p - |Bytes(taken)|))
  {
    assert (taken + [chunk])[..|taken|] == taken;
  }

  /** As long as no read began after the header, that is the only such place. */
  lemma {:induction false} NoneLater(taken: seq<seq<byte>>, headerSize: nat, p: int)
    requires |Bytes(taken)| <= headerSize
    ensures !LastSeen(taken, headerSize, p)
  {
    if taken != [] {
      NoneLater(taken[..|taken| - 1], headerSize, p);
    }
  }

  lemma NothingRead(chunks: seq<seq<byte>>)
    ensures Bytes(chunks[..0]) == []
  {
  }

  lemma NoChunk(taken: seq<seq<byte>>, chunk: seq<byte>)
    ensures taken + [] == taken && (chunk == [] ==> forall b :: !Found(chunk, b))
  {
  }

  lemma LastFound(chunk: seq<byte>, b: int, last: int)
    requires b >= |chunk| - 4 && forall i :: 0 <= i < b && Found(chunk, i) ==> i <= last
    ensures forall i :: Found(chunk, i) ==> i <= last
  {
    hide ClusterAt;
  }

  class Slicer {
    /** > 0: a Cluster starts that far into the buffer; 0 and -1: the next byte starts one; -2: none is known. */
    var clusterStart: int
    var position: nat
    const inputBuffer: array<byte>
    const buffer: array<byte>
    const header: array<byte>
    var headerRead: bool
    var headerSize: nat
    var headerPosition: nat
    var headerReadPosition: nat
    /** The header handed to every listener, once read. */
    var sourceHeader: Option<seq<byte>>

    /** Everything read from the source, and everything handed to the queue. */
    ghost var input: seq<byte>
    ghost var emitted: seq<byte>
    /** The reads that brought something. */
    ghost var taken: seq<seq<byte>>
    /** Where in the input the buffers began that were marked as starting points. */
    ghost var marks: set<int>

    ghost predicate Shape()
      reads this
    {
      && inputBuffer.Length == SLICE_SIZE && buffer.Length == SLICE_SIZE * 4 && header.Length == HEADER_MAX_SIZE
      && inputBuffer != buffer && inputBuffer != header && buffer != header
    }

    /** Before the first Cluster: all input is in the header buffer. */
    ghost predicate Collecting()
      reads this, header
    {
      && Shape() && headerSize == 0 && !headerRead && headerReadPosition == 0 && emitted == []
      && headerPosition == |input| <= HEADER_MAX_SIZE && header[..headerPosition] == input
    }

    /** Afterwards nothing is lost or reordered, and the buffer is far from full. */
    ghost predicate Conserved()
      reads this, header, buffer
    {
      && Shape() && 0 < headerSize <= HEADER_MAX_SIZE
      && HOLD_BACK <= position <= HOLD_BACK + SLICE_SIZE
      && (!headerRead ==> headerReadPosition == 0 && emitted == [] && clusterStart == -1)
      && input == header[..headerSize] + emitted + buffer[..position]
      && ClusterAt(input, headerSize)
    }

    /** Where in the stream the next byte to be emitted is. */
    ghost function Offset(): (at: nat)
      reads this
    {
      headerSize + |emitted|
    }

    /** What `clusterStart` says is true of the stream. */
    ghost predicate Marked()
      reads this
    {
      && -2 <= clusterStart && clusterStart != 0
      && (clusterStart > 0 ==> clusterStart + HOLD_BACK < position && ClusterAt(input, Offset() + clusterStart))
      && (clusterStart == -1 ==> HOLD_BACK < position && ClusterAt(input, Offset()))
    }

    ghost predicate Valid()
      reads this, header, buffer
    {
      Collecting() || (Conserved() && Marked())
    }

    /** How far no Cluster has been seen, but for a stream that starts with one: up to the end of the header. */
    ghost predicate Traced()
      reads this
    {
      Bytes(taken) == input && [] !in taken && NoneBefore(taken, if headerSize > 0 then headerSize else |input|)
    }

    /**
     The header ends at a Cluster. None was seen before it if and only if the first read does not start with one: a stream
     that starts with a Cluster has it in its header.
     */
    lemma HeaderEnd()
      requires Ready() && headerSize > 0
      ensures ClusterAt(input, headerSize)
      ensures (forall p :: Seen(taken, p) ==> headerSize <= p) <==> !(taken != [] && Found(taken[0], 0))
    {
      hide ClusterAt, Found, Bytes;
      SeenAtStart(taken);
    }

    /**
     The buffers marked so far are those that are due, no more and no fewer: each began where it had to. The one place still
     to come is the one that `clusterStart` knows.
     */
    ghost predicate Starts()
      reads this
    {
      if headerSize == 0 then marks == {} else MarkedSoFar(taken, headerSize, marks, Offset(), clusterStart)
    }

    static ghost predicate MarkedSoFar(taken: seq<seq<byte>>, headerSize: nat, marks: set<int>, at: nat, clusterStart: int) {
      && (forall p :: p in marks <==> StartDue(taken, headerSize, p) && p < at)
      && (forall p :: StartDue(taken, headerSize, p) && p >= at <==> clusterStart != -2 && p == at + if clusterStart > 0 then clusterStart else 0)
    }

    /** A buffer of `n` bytes leaves: it begins where one is due exactly when `clusterStart` is -1, and none is due inside it. */
    static lemma MarkedOn(taken: seq<seq<byte>>, headerSize: nat, marks: set<int>, at: nat, clusterStart: int, n: nat)
      requires MarkedSoFar(taken, headerSize, marks, at, clusterStart) && n > 0
      requires -2 <= clusterStart && clusterStart != 0 && (clusterStart > 0 ==> n == clusterStart)
      ensures clusterStart == -1 <==> StartDue(taken, headerSize, at)
      ensures forall p :: StartDue(taken, headerSize, p) && at < p ==> at + n <= p
      ensures MarkedSoFar(taken, headerSize, marks + (if clusterStart == -1 then {at} else {}), at + n, if clusterStart > 0 then -1 else -2)
    {
      hide StartDue;
      forall p | StartDue(taken, headerSize, p) && at < p ensures at + n <= p {
        assert StartDue(taken, headerSize, p) && p >= at;
      }
    }

    /** The header ends in the last read. */
    lemma StartsHeader(before: seq<seq<byte>>, chunk: seq<byte>)
      requires marks == {} && emitted == [] && taken == before + [chunk]
      requires headerSize > 0 ==> clusterStart == -1 && |Bytes(before)| <= headerSize
      ensures Starts()
    {
      if headerSize == 0 {
        return;
      }
      forall p ensures !LastSeen(taken, headerSize, p) {
        NoneLater(before, headerSize, p);
        LastSeenMore(before, chunk, headerSize, p);
      }
    }

    /** A later read: its last Cluster is still to come. */
    lemma StartsStream(before: seq<seq<byte>>, chunk: seq<byte>)
      requires 0 < headerSize < |Bytes(before)| == Offset() + HOLD_BACK && taken == before + [chunk]
      requires forall p :: p in marks <==> StartDue(before, headerSize, p) && p < Offset()
      requires forall p :: StartDue(before, headerSize, p) ==> p < Offset()
      requires if (forall b :: !Found(chunk, b)) then clusterStart == -2 else LastIn(chunk, clusterStart - HOLD_BACK)
      ensures Starts()
    {
      hide Found, Bytes;
      forall p ensures StartDue(taken, headerSize, p) <==> StartDue(before, headerSize, p) || LastIn(chunk, p - Offset() - HOLD_BACK) {
        LastSeenMore(before, chunk, headerSize, p);
      }
      OnlyLast(chunk);
    }

    static lemma OnlyLast(chunk: seq<byte>)
      ensures forall b :: LastIn(chunk, b) ==> 0 <= b
      ensures forall b, i :: LastIn(chunk, b) && LastIn(chunk, i) ==> b == i
    {
    }

    /** The header is kept for the listeners from the moment it has been read. */
    ghost predicate Ready()
      reads this, header, buffer
    {
      Valid() && Traced() && Starts() && sourceHeader == if headerRead then Some(header[..headerSize]) else None
    }

    constructor ()
      ensures Ready() && fresh(inputBuffer) && fresh(buffer) && fresh(header) && input == [] && emitted == []
      ensures headerSize == 0 && !headerRead && taken == [] && marks == {}
    {
      inputBuffer := new byte[SLICE_SIZE](_ => 0);
      buffer := new byte[SLICE_SIZE * 4](_ => 0);
      header := new byte[HEADER_MAX_SIZE](_ => 0);
      clusterStart, position := -2, 0;
      headerRead, headerSize, headerPosition, headerReadPosition, sourceHeader := false, 0, 0, 0, None;
      input, emitted, taken, marks := [], [], [], {};
    }

    /** How many bytes can be read. */
    function ReadSpace(): (space: int)
      reads this
    {
      if headerRead then
        if clusterStart > 0 then clusterStart else position - 4
      else
        headerSize
    }

    lemma NothingToRead()
      requires Valid() && ReadSpace() <= 0
      ensures Collecting() || (Conserved() && headerRead && position == HOLD_BACK && clusterStart == -2)
    {
    }

    /** memcpy from the input buffer. */
    method CopyIn(dst: array<byte>, at: nat, from: nat, n: nat)
      requires from + n <= inputBuffer.Length && at + n <= dst.Length && dst != inputBuffer
      modifies dst
      ensures dst[..at + n] == old(dst[..at]) + inputBuffer[from..from + n]
    {
      forall i | 0 <= i < n {
        dst[at + i] := inputBuffer[from + i];
      }
    }

    method Scan(len: nat) returns (at: int)
      requires len <= inputBuffer.Length
      ensures -1 <= at && IsFirst(inputBuffer[..len], at)
      ensures at >= 0 ==> at < len && Found(inputBuffer[..len], at)
    {
      hide ClusterAt;
      ghost var chunk := inputBuffer[..len];
      at := 0;
      while at < len - 4
        invariant 0 <= at && forall i :: 0 <= i < at ==> !Found(chunk, i)
      {
        assert inputBuffer[at..at + 4] == chunk[at..at + 4];
        ClusterId(chunk, at);
        if inputBuffer[at..at + 4] == CLUSTER_ID {
          return;
        }
        at := at + 1;
      }
      at := -1;
    }

    /** The first Cluster was found `b` bytes into the chunk just added to the header. */
    method Split(len: nat, b: nat)
      requires Collecting() && b <= len <= |input| && len <= SLICE_SIZE && inputBuffer[..len] == input[|input| - len..]
      requires Found(inputBuffer[..len], b)
      modifies `headerSize, `position, `clusterStart, buffer
      ensures Valid() && headerSize == |input| - len + b && clusterStart == -1
    {
      hide Found, Conserved, Marked;
      ghost var chunk, none := inputBuffer[..len], buffer[..0];
      headerSize := headerPosition - len + b;
      CopyIn(buffer, 0, b, len - b);
      position := len - b;
      clusterStart := -1;
      assert none + inputBuffer[b..b + (len - b)] == chunk[b..];
      assert buffer[..position] == chunk[b..];
      if headerSize > 0 {
        Divided(chunk, b);
      }
    }

    /** What a header buffer and a stream buffer cut at a Cluster of the last chunk amount to. */
    lemma Divided(chunk: seq<byte>, b: nat)
      requires Shape() && !headerRead && headerReadPosition == 0 && emitted == [] && clusterStart == -1
      requires b <= |chunk| <= |input| <= HEADER_MAX_SIZE && chunk == input[|input| - |chunk|..] && Found(chunk, b)
      requires header[..|input|] == input && 0 < headerSize == |input| - |chunk| + b
      requires |chunk| <= SLICE_SIZE && position == |chunk| - b && buffer[..position] == chunk[b..]
      ensures Conserved() && Marked()
    {
      hide ClusterAt;
      assert header[..|input|][..headerSize] == header[..headerSize];
      CutTail(input, chunk, b);
      ClusterInTail(input, chunk, b);
    }

    /** The same in the streaming phase: the last Cluster of the chunk counts. */
    method FindLast(len: nat)
      requires len <= inputBuffer.Length
      modifies `clusterStart
      ensures (forall b :: !Found(inputBuffer[..len], b)) ==> clusterStart == old(clusterStart)
      ensures forall b :: Found(inputBuffer[..len], b) ==> position + b <= clusterStart
      ensures clusterStart == old(clusterStart) || Found(inputBuffer[..len], clusterStart - position)
    {
      hide ClusterAt;
      ghost var chunk := inputBuffer[..len];
      ghost var last := -1;
      var b := 0;
      while b < len - 4
        invariant 0 <= b && -1 <= last < b
        invariant forall i :: 0 <= i < b && Found(chunk, i) ==> i <= last
        invariant if last < 0 then clusterStart == old(clusterStart) else Found(chunk, last) && clusterStart == position + last
      {
        assert inputBuffer[b..b + 4] == chunk[b..b + 4];
        ClusterId(chunk, b);
        if inputBuffer[b..b + 4] == CLUSTER_ID {
          clusterStart := position + b;
          last := b;
        }
        b := b + 1;
      }
      LastFound(chunk, b, last);
    }

    /** In the header phase: the first Cluster of the chunk, if there is one, ends the header. */
    method WroteHeader(len: nat) returns (ret: int)
      requires Collecting() && len <= SLICE_SIZE
      modifies this, buffer, header
      ensures Valid() && emitted == old(emitted) && sourceHeader == old(sourceHeader) && !headerRead
      ensures ret == if old(headerPosition) + len > HEADER_MAX_SIZE then -1 else len
      ensures input == old(input) + if ret == -1 then [] else inputBuffer[..len]
      ensures headerSize > 0 ==> ret == len && old(headerPosition) <= headerSize && IsFirst(inputBuffer[..len], headerSize - old(headerPosition))
      ensures headerSize == 0 ==>
                ret == -1 || IsFirst(inputBuffer[..len], -1) || (old(headerPosition) == 0 && IsFirst(inputBuffer[..len], 0))
      ensures taken == old(taken) && marks == old(marks) && (headerSize > 0 ==> clusterStart == -1)
    {
      hide ClusterAt, Found, IsFirst, Conserved, Marked, Collecting;
      CollectingFacts();
      if headerPosition + len > HEADER_MAX_SIZE {
        assert input + [] == input;
        return -1;
      }
      TakeHeader(len);
      CollectingFacts();
      Decide(len);
      return len;
    }

    /** The header ends at the first Cluster of the chunk just added to it, unless there is none or the stream starts with it. */
    method Decide(len: nat)
      requires Collecting() && len <= |input| && len <= SLICE_SIZE && inputBuffer[..len] == input[|input| - len..]
      modifies `headerSize, `position, `clusterStart, buffer
      ensures Valid() && inputBuffer[..len] == old(inputBuffer[..len]) && (headerSize > 0 ==> clusterStart == -1)
      ensures headerSize > 0 ==> |input| - len <= headerSize && IsFirst(inputBuffer[..len], headerSize - (|input| - len))
      ensures headerSize == 0 ==> IsFirst(inputBuffer[..len], -1) || (|input| == len && IsFirst(inputBuffer[..len], 0))
    {
      hide ClusterAt, Found, IsFirst, Conserved, Marked, Collecting;
      CollectingFacts();
      var b := Scan(len);
      if b < 0 {
        NoCluster(len);
      } else {
        Split(len, b);
      }
    }

    lemma CollectingFacts()
      requires Collecting()
      ensures headerSize == 0 && !headerRead && headerPosition == |input| && emitted == []
      ensures inputBuffer != buffer && inputBuffer != header && inputBuffer.Length == SLICE_SIZE
    {
    }

    method NoCluster(len: nat)
      requires Collecting()
      modifies `position
      ensures Collecting() && headerSize == 0
    {
      position := position + len;
    }

    /** The chunk goes to the end of the header. */
    method TakeHeader(len: nat)
      requires Collecting() && len <= SLICE_SIZE && headerPosition + len <= HEADER_MAX_SIZE
      modifies `headerPosition, `input, header
      ensures Collecting() && input == old(input) + inputBuffer[..len] && inputBuffer[..len] == input[|input| - len..]
    {
      CopyIn(header, headerPosition, 0, len);
      headerPosition := headerPosition + len;
      input := input + inputBuffer[..len];
      assert inputBuffer[0..0 + len] == inputBuffer[..len];
    }

    method WroteStream(len: nat)
      requires Conserved() && headerRead && position == HOLD_BACK && clusterStart == -2 && len <= SLICE_SIZE
      modifies `clusterStart, `position, `input, buffer
      ensures Conserved() && Marked() && position == HOLD_BACK + len && input == old(input) + inputBuffer[..len]
      ensures if (forall b :: !Found(inputBuffer[..len], b)) then clusterStart == -2
              else Found(inputBuffer[..len], clusterStart - HOLD_BACK)
      ensures forall b :: Found(inputBuffer[..len], b) ==> HOLD_BACK + b <= clusterStart
      ensures if (forall b :: !Found(inputBuffer[..len], b)) then clusterStart == -2
              else LastIn(inputBuffer[..len], clusterStart - HOLD_BACK)
    {
      hide ClusterAt;
      ghost var chunk := inputBuffer[..len];
      CopyIn(buffer, position, 0, len);
      FindLast(len);
      ClusterStays(input, chunk, headerSize);
      input := input + chunk;
      assert inputBuffer[0..0 + len] == chunk;
      if clusterStart != -2 {
        ClusterInTail(input, chunk, clusterStart - position);
      }
      position := position + len;
    }

    lemma StreamFacts()
      requires Valid()
      ensures headerRead && position == HOLD_BACK ==> Conserved() && 0 < headerSize && |input| == Offset() + HOLD_BACK
      ensures inputBuffer != buffer && inputBuffer != header && inputBuffer.Length == SLICE_SIZE
      ensures headerRead ==> headerSize > 0
    {
    }

    /**
     Take the first `len` bytes of the input buffer into account. The caller has read everything readable.
     Only an oversized header is refused; `ret` is what the C function returns.
     */
    method Wrote(len: nat) returns (ret: int)
      requires Ready() && ReadSpace() <= 0 && len <= SLICE_SIZE
      modifies this, buffer, header
      ensures Ready() && emitted == old(emitted) && headerRead == old(headerRead) && (headerRead ==> headerSize == old(headerSize))
      ensures sourceHeader == old(sourceHeader)
      ensures ret == if old(headerSize == 0 && headerPosition + len > HEADER_MAX_SIZE) then -1 else len
      ensures input == old(input) + (if ret == -1 then [] else inputBuffer[..len]) && marks == old(marks)
      ensures taken == old(taken) + if ret == -1 || len == 0 then [] else [inputBuffer[..len]]
      ensures old(headerSize) == 0 && ret != -1 ==> (headerSize == 0 <==> Collects(inputBuffer[..len], |old(input)|))
    {
      hide Found, IsFirst, ClusterAt, Seen, NoneBefore, Bytes, LastIn, StartDue;
      NothingToRead();
      StreamFacts();
      ghost var chunk, before := inputBuffer[..len], taken;
      if headerSize == 0 {
        ret := WroteHeader(len);
        if ret != -1 {
          CollectsAt(chunk, headerSize, |old(input)|);
          NoneBeforeHeader(before, chunk, headerSize);
        }
      } else {
        WroteStream(len);
        ret := len;
        NoneBeforeStream(before, chunk, headerSize);
      }
      if ret != -1 && len > 0 {
        SeenMore(before, chunk, 0);
        taken := taken + [chunk];
        if headerRead {
          StartsStream(before, chunk);
        } else {
          StartsHeader(before, chunk);
        }
      } else {
        NoChunk(before, chunk);
      }
    }

    /**
     Reading in the streaming phase: at most `len` bytes from the front of the buffer. `clusterStart` counts down
     with the bytes before the Cluster and is left for `LastWasSync` to settle.
     */
    method ReadStream(len: nat) returns (out: seq<byte>)
      requires Conserved() && headerRead && (clusterStart > 0 ==> clusterStart + HOLD_BACK < position)
      modifies `position, `clusterStart, `emitted, buffer
      ensures Conserved() && emitted == old(emitted) + out && position == old(position) - |out|
      ensures |out| == if old(ReadSpace()) < 1 then 0 else if len < old(ReadSpace()) then len else old(ReadSpace())
      ensures clusterStart == old(clusterStart) - if old(clusterStart) > 0 then |out| else 0
    {
      var readSpace := if clusterStart > 0 then clusterStart else position - 4;
      if readSpace < 1 {
        return [];
      }
      var toRead := if readSpace >= len then len else readSpace;
      out := buffer[..toRead];
      Shift(toRead);
      assert header[..headerSize] + emitted + (out + buffer[..position - toRead]) ==
             header[..headerSize] + (emitted + out) + buffer[..position - toRead];
      emitted := emitted + out;
      position := position - toRead;
      if clusterStart > 0 {
        clusterStart := clusterStart - toRead;
      }
    }

    /** Reading the header; the only caller asks for all of it. */
    method ReadHeader(len: nat) returns (out: seq<byte>)
      requires Valid() && !headerRead && headerSize > 0 && len >= headerSize
      modifies `headerRead, `headerReadPosition
      ensures Conserved() && Marked() && headerRead && out == header[..headerSize]
    {
      var readSpace := headerSize - headerReadPosition;
      var toRead := if readSpace >= len then len else readSpace;
      out := header[..toRead];
      headerReadPosition := headerReadPosition + toRead;
      if headerReadPosition == headerSize {
        headerRead := true;
      }
    }

    /** memmove of the bytes still in the buffer to its front. */
    method Shift(n: nat)
      requires Shape() && n <= position <= buffer.Length
      modifies buffer
      ensures old(buffer[..position]) == old(buffer[..n]) + buffer[..position - n]
    {
      forall i | 0 <= i < position - n {
        buffer[i] := buffer[n + i];
      }
      assert buffer[..position - n] == old(buffer[n..position]);
    }

    /** Did the buffer just read start at a Cluster? Also steps `clusterStart` down through 0, -1 and -2. */
    method LastWasSync() returns (sync: bool)
      modifies `clusterStart
      ensures sync <==> old(clusterStart) == -1
      ensures clusterStart == old(clusterStart) - if old(clusterStart) == 0 || old(clusterStart) == -1 then 1 else 0
    {
      if clusterStart == 0 {
        clusterStart := clusterStart - 1;
        return false;
      }
      if clusterStart == -1 {
        clusterStart := clusterStart - 1;
        return true;
      }
      return false;
    }

    /** A readable buffer taken out of the streaming phase, marked when it starts at a Cluster. */
    method Emit() returns (slice: Slice)
      requires Ready() && headerRead && ReadSpace() > 0
      modifies `position, `clusterStart, `emitted, `marks, buffer
      ensures Ready() && emitted == old(emitted) + slice.data && slice.data != []
      ensures slice.sync ==> ClusterAt(input, old(Offset()))
      ensures slice.sync <==> StartDue(taken, headerSize, old(Offset()))
      ensures forall p :: StartDue(taken, headerSize, p) && old(Offset()) < p ==> old(Offset()) + |slice.data| <= p
      ensures marks == old(marks) + if slice.sync then {old(Offset())} else {}
    {
      hide StartDue, Found, NoneBefore, Bytes, MarkedSoFar;
      slice := Slice([], false);
      ghost var at, before, cs := Offset(), marks, clusterStart;
      var out := ReadStream(ReadSpace());
      var sync := LastWasSync();
      slice := Slice(out, sync);
      MarkedOn(taken, headerSize, before, at, cs, |out|);
      if sync {
        marks := marks + {at};
      }
      assert marks == before + if cs == -1 then {at} else {};
    }

    /** The header becomes the one every listener is sent. */
    method KeepHeader()
      requires Ready() && !headerRead && headerSize > 0
      modifies `headerRead, `headerReadPosition, `sourceHeader
      ensures Ready() && headerRead && emitted == []
    {
      var out := ReadHeader(ReadSpace());
      sourceHeader := Some(out);
    }

    /** One read from the connection: its bytes arrive in the input buffer. */
    method Feed(chunk: seq<byte>) returns (ok: bool)
      requires Ready() && ReadSpace() <= 0 && |chunk| <= SLICE_SIZE
      modifies this, buffer, header, inputBuffer
      ensures Ready() && emitted == old(emitted) && headerRead == old(headerRead) && (headerRead ==> headerSize == old(headerSize))
      ensures sourceHeader == old(sourceHeader)
      ensures ok <==> headerRead || old(|input|) + |chunk| <= HEADER_MAX_SIZE
      ensures input == old(input) + (if ok then chunk else []) && marks == old(marks)
      ensures taken == old(taken) + if ok && chunk != [] then [chunk] else []
      ensures old(headerSize) == 0 && ok ==> (headerSize == 0 <==> Collects(chunk, |old(input)|))
    {
      MemCopy(inputBuffer, chunk);
      var ret := Wrote(|chunk|);
      ok := ret == |chunk|;
    }

    /**
     The source thread asks for a buffer; `chunks` is what the connection has to give, one item per read, an empty
     item meaning nothing yet. Over any number of calls and any cutting of the input into reads nothing is lost, added or
     reordered, and a buffer marked as a starting point starts at a Cluster. The first buffer after the header is marked, and
     in every read after that the last Cluster found starts a buffer that is marked; no others are.
     */
    method GetBuffer(chunks: seq<seq<byte>>) returns (refbuf: Option<Slice>, used: nat, running: bool)
      requires Ready() && forall r :: r in chunks ==> |r| <= SLICE_SIZE
      modifies this, buffer, header, inputBuffer
      ensures Ready() && used <= |chunks|
      ensures input == old(input) + Bytes(chunks[..used])
      ensures emitted == old(emitted) + if refbuf.Some? then refbuf.value.data else []
      ensures refbuf.Some? ==> running && headerRead && refbuf.value.data != []
      ensures old(headerRead) ==> headerRead && headerSize == old(headerSize)
      ensures old(sourceHeader).Some? ==> sourceHeader == old(sourceHeader)
      ensures refbuf.Some? && refbuf.value.sync ==> ClusterAt(input, headerSize + |old(emitted)|)
      ensures refbuf.Some? && old(emitted) == [] ==> refbuf.value.sync
      ensures refbuf.Some? ==> (refbuf.value.sync <==> StartDue(taken, headerSize, headerSize + |old(emitted)|))
      ensures refbuf.Some? ==> forall p :: StartDue(taken, headerSize, p) && headerSize + |old(emitted)| < p ==>
                                             headerSize + |emitted| <= p
      ensures marks == old(marks) + if refbuf.Some? && refbuf.value.sync then {headerSize + |old(emitted)|} else {}
      ensures refbuf.None? && running ==> used == |chunks| || chunks[used] == []
      ensures !running ==> used < |chunks| && old(!headerRead) && |input| + |chunks[used]| > HEADER_MAX_SIZE
    {
      hide Valid, Conserved, Marked, Collecting, ClusterAt, Traced, Starts, Found, Collects, Bytes, LastSeen;
      used, running, refbuf := 0, true, None;
      assert input == input + Bytes(chunks[..0]) by { NothingRead(chunks); }
      while true
        invariant Ready() && used <= |chunks| && emitted == old(emitted) && marks == old(marks) && input == old(input) + Bytes(chunks[..used])
        invariant old(headerRead) ==> headerRead && headerSize == old(headerSize) && sourceHeader == old(sourceHeader)
        decreases |chunks| - used, !headerRead
      {
        var bytes := ReadSpace();
        if bytes > 0 {
          if !headerRead {
            KeepHeader();
          } else {
            var slice := Emit();
            return Some(slice), used, true;
          }
        } else if used == |chunks| || chunks[used] == [] {
          var _ := Feed([]);
          return;
        } else {
          var chunk := chunks[used];
          var ok := Feed(chunk);
          if !ok {
            return None, used, false;
          }
          BytesMore(chunks, used);
          used := used + 1;
        }
      }
    }
  }

  datatype Slice = Slice(data: seq<byte>, sync: bool)

  method MemCopy(dst: array<byte>, bytes: seq<byte>)
    requires |bytes| <= dst.Length
    modifies dst
    ensures dst[..|bytes|] == bytes
  {
    forall i | 0 <= i < |bytes| {
      dst[i] := bytes[i];
    }
  }

  /** A stream that starts with a Cluster: the slicer takes it for part of the header and goes on collecting. */
  method StartsWithCluster() returns (s: Slicer)
    ensures s.Ready() && !s.headerRead && s.headerSize == 0 && ClusterAt(s.input, 0) && Found(s.taken[0], 0) && |s.taken| == 1
  {
    s := new Slicer();
    var ok := s.Feed([0x1F, 0x43, 0xB6, 0x75, 0]);
  }
}
