/**
 The receive buffer has room for every read that is posted, whatever bytes arrive.
 */
module ReadBuffer {
  import opened Bytes
  import opened Framing
  import opened Deframing

  /** Limits for which the count of missing bytes cannot wrap around. */
  predicate Bounded(l: Limits) {
    0 < l.initialSize && l.maxMessageSize <= UINT32_MAX - 4
  }

  /** An incomplete command always misses something. */
  lemma IncompleteMisses(w: seq<byte>, limit: nat)
    requires limit <= UINT32_MAX - 4
    ensures var p := Parse(w, limit);
            p.Incomplete? ==> p.missing > 0
  {
    var first := Scan(w, START_TAG, 0);
    ScanStops(w, START_TAG, 0);
    var start := first + 4;
    var size := AnnouncedSize(w, start);
    if size <= limit {
      var gap := start + size + HEADER_SIZE + TAG_SIZE - |w|;
      assert gap <= UINT32_MAX;
      assert Missing(w, start).Incomplete? ==> Missing(w, start).missing == gap > 0;
    }
  }

  /** What is left fits the buffer, and there is room behind it or more room is asked for. */
  predicate HasRoom(capacity: nat, rest: seq<byte>, missing: nat) {
    |rest| <= capacity && (missing > 0 || |rest| < capacity)
  }

  lemma {:induction false} DeframeLeavesRoom(l: Limits, capacity: nat, w: seq<byte>, consumed: bool, count: nat)
    requires Bounded(l) && |w| <= capacity && 0 < capacity && (consumed ==> |w| < capacity)
    ensures var o := Deframe(l, capacity, w, consumed, count);
            o.verdict == Reading ==> HasRoom(capacity, o.rest, o.missing)
    decreases |w|
  {
    if w != [] {
      var p := Parse(w, l.maxMessageSize);
      IncompleteMisses(w, l.maxMessageSize);
      if p.Found? {
        FoundInside(w, l.maxMessageSize);
        DeframeLeavesRoom(l, capacity, w[p.end + 4..], true, NextShrinkCount(l, capacity, |w|, count));
      }
    }
  }

  /** Each read returns no more than was asked for. */
  predicate Fits(l: Limits, chunks: seq<seq<byte>>) {
    forall i | 0 <= i < |chunks| :: |chunks[i]| <= ReadSize(l, Rounds(l, chunks[..i]))
  }

  predicate Ready(l: Limits, r: Reader) {
    r.verdict == Reading ==> HasRoom(r.capacity, r.buffered, r.missing) && 0 < r.capacity
  }

  lemma RoundKeepsReady(l: Limits, r: Reader, data: seq<byte>)
    requires Bounded(l) && Ready(l, r) && |data| <= ReadSize(l, r)
    ensures Ready(l, Round(l, r, data))
  {
    if r.verdict == Reading && data != [] {
      var p := Post(l, r);
      DeframeLeavesRoom(l, p.capacity, p.buffered + data, false, p.shrinkCount);
    }
  }

  lemma {:induction false} RunsStayReady(l: Limits, chunks: seq<seq<byte>>)
    requires Bounded(l) && Fits(l, chunks)
    ensures Ready(l, Rounds(l, chunks))
    decreases |chunks|
  {
    if chunks != [] {
      var before := chunks[..|chunks| - 1];
      assert forall i | 0 <= i < |before| :: before[..i] == chunks[..i];
      RunsStayReady(l, before);
      RoundKeepsReady(l, Rounds(l, before), chunks[|chunks| - 1]);
    }
  }

  /**
   Whatever bytes arrive, in whatever pieces: as long as the connection reads, the next read is not
   empty and lies within the buffer, behind the bytes that are kept.
   */
  lemma PostedReadsFit(l: Limits, chunks: seq<seq<byte>>)
    requires Bounded(l) && Fits(l, chunks)
    ensures var r := Rounds(l, chunks);
            r.verdict == Reading ==> 0 < ReadSize(l, r) && |r.buffered| + ReadSize(l, r) <= Post(l, r).capacity
  {
    RunsStayReady(l, chunks);
  }

  // ---------------------------------------------------------------------------
  // Shrinking
  // ---------------------------------------------------------------------------

  /**
   What a callback does to the count of commands that were found in a buffer less than half full: where nothing
   is to be shrunk it keeps it; a callback with less than half a buffer adds all its commands; one with
   more starts again with at most those that follow its first.
   */
  lemma {:induction false} ShrinkCountIff(l: Limits, capacity: nat, w: seq<byte>, consumed: bool, count: nat)
    ensures var o := Deframe(l, capacity, w, consumed, count);
            if l.shrinkThreshold == 0 || capacity == l.initialSize || o.delivered == [] then o.shrinkCount == count
            else if |w| < capacity / 2 then o.shrinkCount == count + |o.delivered|
            else o.shrinkCount < |o.delivered|
    decreases |w|
  {
    if w != [] && Parse(w, l.maxMessageSize).Found? {
      var rest, next := FoundStep(l, capacity, w, consumed, count);
      ShrinkCountIff(l, capacity, rest, true, next);
    }
  }

  /** A command is found, and the rest is looked at with the next count. */
  lemma FoundStep(l: Limits, capacity: nat, w: seq<byte>, consumed: bool, count: nat) returns (rest: seq<byte>, next: nat)
    requires w != [] && Parse(w, l.maxMessageSize).Found?
    ensures next == NextShrinkCount(l, capacity, |w|, count) && |rest| < |w|
    ensures var o, later := Deframe(l, capacity, w, consumed, count), Deframe(l, capacity, rest, true, next);
            |o.delivered| == 1 + |later.delivered| && o.shrinkCount == later.shrinkCount
  {
    FoundInside(w, l.maxMessageSize);
    rest := w[Parse(w, l.maxMessageSize).end + 4..];
    next := NextShrinkCount(l, capacity, |w|, count);
  }

  /**
   In every run: between two reads the buffer becomes larger exactly if bytes are missing that it has no room
   for, and then has room for exactly those; and smaller exactly if nothing is missing or kept, and the count
   of commands in a mostly empty buffer is above the threshold: then it has its initial size again.
   */
  lemma PostIff(l: Limits, r: Reader)
    ensures var c := Post(l, r).capacity;
            && (c > r.capacity ==> r.missing > 0 || l.initialSize > r.capacity)
            && (r.missing > 0 ==> c == Max(r.capacity, |r.buffered| + r.missing))
            && (r.missing == 0 && r.buffered == [] && l.shrinkThreshold > 0 && r.shrinkCount > l.shrinkThreshold
                ==> c == l.initialSize && Post(l, r).shrinkCount == 0)
            && (r.missing == 0 && !(r.buffered == [] && l.shrinkThreshold > 0 && r.shrinkCount > l.shrinkThreshold)
                ==> c == r.capacity && Post(l, r).shrinkCount == r.shrinkCount)
            && Post(l, r).buffered == r.buffered && Post(l, r).delivered == r.delivered
            && ReadSize(l, r) == if r.missing > 0 then r.missing else c - |r.buffered|
  {
  }

  // ---------------------------------------------------------------------------
  // Larger limits
  // ---------------------------------------------------------------------------

  function Zeros(n: nat): seq<byte> {
    seq(n, _ => 0)
  }

  /** A header that announces the largest payload whose frame size no longer fits 32 bits. */
  const HUGE_HEADER: seq<byte> := [0, 0, 0, 0, 0, 0xFC, 0xFF, 0xFF, 0xFF]

  lemma {:induction false} ScanZeros(w: seq<byte>, n: nat, i: nat)
    requires i <= n && n + 3 < |w| && TagAt(w, n, START_TAG) && forall j | 0 <= j < n :: w[j] == 0
    ensures Scan(w, START_TAG, i) == n
    decreases n - i
  {
    if i < n {
      ScanZeros(w, n, i + 1);
    }
  }

  /** The missing bytes are counted as none. */
  lemma HugeHeaderWraps(n: nat, limit: nat)
    requires UINT32_MAX - 4 < limit <= UINT32_MAX
    ensures Parse(Zeros(n) + START_TAG + HUGE_HEADER, limit) == Incomplete(0)
  {
    var w := Zeros(n) + START_TAG + HUGE_HEADER;
    assert TagAt(w, n, START_TAG);
    ScanZeros(w, n, 0);
    assert w[n + 9] == 0xFC && w[n + 10] == 0xFF && w[n + 11] == 0xFF && w[n + 12] == 0xFF;
    assert AnnouncedSize(w, n + 4) == UINT32_MAX - 3;
    assert n + 4 + (UINT32_MAX - 3) + HEADER_SIZE + TAG_SIZE - |w| == UINT32_MAX + 1;
  }

  /** As long as the connection reads, the next read is not empty. */
  predicate Progresses(l: Limits, chunks: seq<seq<byte>>) {
    var r := Rounds(l, chunks);
    r.verdict == Reading ==> 0 < ReadSize(l, r)
  }

  /**
   Whatever arrives, the next read is not empty, if and only if the message size is limited to less
   than 4 GiB minus four bytes: beyond, the count of missing bytes can wrap around to none while
   the buffer is full.
   */
  lemma ReadsNeverEmptyIff(l: Limits)
    requires l.initialSize >= 13 && l.maxMessageSize <= UINT32_MAX
    ensures (forall chunks :: Fits(l, chunks) ==> Progresses(l, chunks)) <==> Bounded(l)
  {
    if Bounded(l) {
      forall chunks | Fits(l, chunks)
        ensures Progresses(l, chunks)
      {
        PostedReadsFit(l, chunks);
      }
    } else {
      var data := Zeros(l.initialSize - 13) + START_TAG + HUGE_HEADER;
      HugeHeaderWraps(l.initialSize - 13, l.maxMessageSize);
      var chunks := [data];
      assert chunks[..0] == [];
      assert Fresh(l).buffered + data == data;
      assert Rounds(l, chunks) == Receive(l, Fresh(l), data);
      assert Fits(l, chunks) && !Progresses(l, chunks);
    }
  }

  lemma PieceLeavesRoom(l: Limits, capacity: nat, c: Command, n: nat, consumed: bool, count: nat)
    requires Admissible(l, [c]) && 0 < n < |Frame(c)| && n <= capacity && (consumed ==> n < capacity)
    requires Waits(Frame(c)[..n], consumed)
    ensures var o := Deframe(l, capacity, Frame(c)[..n], consumed, count); HasRoom(capacity, o.rest, o.missing)
  {
    assert c in [c];
    ParsePiece(c, n, l.maxMessageSize);
  }

  /** A callback on a prefix of a stream leaves room, whatever the limit. */
  lemma PrefixLeavesRoom(l: Limits, capacity: nat, cs: seq<Command>, n: nat, count: nat)
    requires Admissible(l, cs) && n <= |Stream(cs)| && n <= capacity && 0 < capacity
    requires Waits(Piece(cs, n), Whole(cs, n) > 0)
    ensures var o := Deframe(l, capacity, Stream(cs)[..n], false, count); HasRoom(capacity, o.rest, o.missing)
  {
    var k, piece := Whole(cs, n), Piece(cs, n);
    PrefixSplits(cs, n);
    var later := DeframeStream(l, capacity, cs[..k], piece, false, count);
    assert k > 0 ==> |Stream(cs[..k])| >= |Frame(cs[..k][0])|;
    if piece != [] {
      PieceLeavesRoom(l, capacity, cs[k], |piece|, k > 0, later);
    }
  }

  lemma StopRebased(cs: seq<Command>, n: nat, k: nat, q: nat)
    requires k == Whole(cs, n) && n < |Stream(cs[..k])| + q && GoodStop(cs, n, |Stream(cs[..k])| + q)
    ensures Waits(Piece(cs[k..], q), Whole(cs[k..], q) > 0)
  {
    assert cs == cs[..k] + cs[k..];
    WholeConcat(cs[..k], cs[k..], q);
  }

  lemma PostMakesRoom(l: Limits, r: Reader, size: nat)
    requires r.verdict == Reading && Ready(l, r) && 0 < l.initialSize && size <= ReadSize(l, r)
    ensures var p := Post(l, r);
            p.buffered == r.buffered && p.verdict == Reading && 0 < p.capacity && |p.buffered| + size <= p.capacity
  {
  }

  lemma StreamReceiveKeepsReady(l: Limits, b: seq<Command>, q: nat, p: Reader, data: seq<byte>)
    requires Admissible(l, b) && q <= |Stream(b)| && p.buffered + data == Stream(b)[..q]
    requires q <= p.capacity && 0 < p.capacity && Waits(Piece(b, q), Whole(b, q) > 0)
    ensures Ready(l, Receive(l, p, data))
  {
    PrefixLeavesRoom(l, p.capacity, b, q, p.shrinkCount);
  }

  /** What a callback finds in the buffer, and that it stops well there. */
  lemma WindowStops(cs: seq<Command>, n: nat, data: seq<byte>) returns (k: nat, q: nat)
    requires data != [] && n + |data| <= |Stream(cs)| && data == Stream(cs)[n..n + |data|] && GoodStop(cs, n, n + |data|)
    ensures k <= |cs| && q <= |Stream(cs[k..])| && Piece(cs, n) + data == Stream(cs[k..])[..q]
    ensures Waits(Piece(cs[k..], q), Whole(cs[k..], q) > 0)
  {
    k, q := BufferAt(cs, n, data);
    StopRebased(cs, n, k, q);
  }

  /** What a callback finds in the buffer: the first `q` bytes of the stream of commands not delivered yet. */
  lemma NextWindow(l: Limits, cs: seq<Command>, n: nat, m: nat, data: seq<byte>) returns (b: seq<Command>, q: nat)
    requires Admissible(l, cs) && n < m == n + |data| <= |Stream(cs)| && data == Stream(cs)[n..m] && GoodStop(cs, n, m)
    ensures Admissible(l, b) && q == |Piece(cs, n)| + |data| <= |Stream(b)|
    ensures Piece(cs, n) + data == Stream(b)[..q] && Waits(Piece(b, q), Whole(b, q) > 0)
  {
    var k;
    k, q := WindowStops(cs, n, data);
    b := cs[k..];
    AdmissibleRest(l, cs, k);
    SameLength(Piece(cs, n), data, Stream(b), q);
  }

  lemma SameLength<T>(a: seq<T>, b: seq<T>, s: seq<T>, q: nat)
    requires q <= |s| && a + b == s[..q]
    ensures |a| + |b| == q
  {
    assert |a + b| == q;
  }

  lemma StreamRoundKeepsReady(l: Limits, cs: seq<Command>, n: nat, m: nat, r: Reader, data: seq<byte>)
    requires Admissible(l, cs) && r.verdict == Reading && r.buffered == Piece(cs, n) && Ready(l, r) && 0 < l.initialSize
    requires m == n + |data| <= |Stream(cs)| && data == Stream(cs)[n..m]
    requires |data| <= ReadSize(l, r) && GoodStop(cs, n, m)
    ensures Ready(l, Round(l, r, data))
  {
    PostMakesRoom(l, r, |data|);
    if data != [] {
      var b, q := NextWindow(l, cs, n, m, data);
      StreamReceiveKeepsReady(l, b, q, Post(l, r), data);
    }
  }

  /** Reads that cut a stream well, each no larger than what was asked for. */
  predicate GoodReads(l: Limits, cs: seq<Command>, chunks: seq<seq<byte>>) {
    && Admissible(l, cs) && Joined(chunks) <= Stream(cs) && AllGoodStops(cs, chunks)
    && 0 < l.initialSize && Fits(l, chunks)
  }

  /** The `i`-th read is the part of the stream between two positions. */
  lemma ReadSlice(l: Limits, cs: seq<Command>, chunks: seq<seq<byte>>, i: nat)
    requires Joined(chunks) <= Stream(cs) && i < |chunks|
    ensures Read(chunks, i + 1) == Read(chunks, i) + |chunks[i]| <= |Stream(cs)|
    ensures chunks[i] == Stream(cs)[Read(chunks, i)..Read(chunks, i + 1)]
  {
    ReadMore(l, chunks, i);
    JoinedPrefix(l, chunks, i + 1);
    SliceBehind(Joined(chunks[..i]), chunks[i], Stream(cs));
  }

  lemma StreamStepStaysReady(l: Limits, cs: seq<Command>, chunks: seq<seq<byte>>, i: nat)
    requires GoodReads(l, cs, chunks) && i < |chunks| && Ready(l, Rounds(l, chunks[..i]))
    ensures Ready(l, Rounds(l, chunks[..i + 1]))
  {
    GoodStopsFaithful(l, cs, chunks, i);
    ReadSlice(l, cs, chunks, i);
    ReadMore(l, chunks, i);
    StreamRoundKeepsReady(l, cs, Read(chunks, i), Read(chunks, i + 1), Rounds(l, chunks[..i]), chunks[i]);
  }

  lemma {:induction false} StreamRunsStayReady(l: Limits, cs: seq<Command>, chunks: seq<seq<byte>>, i: nat)
    requires GoodReads(l, cs, chunks) && i <= |chunks|
    ensures Ready(l, Rounds(l, chunks[..i]))
    decreases i
  {
    if i == 0 {
      assert chunks[..0] == [];
    } else {
      StreamRunsStayReady(l, cs, chunks, i - 1);
      StreamStepStaysReady(l, cs, chunks, i - 1);
    }
  }

  /** On a stream of commands the next read is never empty and lies within the buffer, also without a limit. */
  lemma StreamReadsFit(l: Limits, cs: seq<Command>, chunks: seq<seq<byte>>)
    requires GoodReads(l, cs, chunks)
    ensures var r := Rounds(l, chunks);
            && r.verdict == Reading
            && 0 < ReadSize(l, r) && |r.buffered| + ReadSize(l, r) <= Post(l, r).capacity
  {
    StreamRunsStayReady(l, cs, chunks, |chunks|);
    GoodStopsFaithful(l, cs, chunks, |chunks|);
    assert chunks[..|chunks|] == chunks;
  }
}
