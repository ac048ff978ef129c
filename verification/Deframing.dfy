/**
 When the receiver recovers the commands of a stream from the pieces in which the stream arrives.
 */
module Deframing {
  import opened Bytes
  import opened Framing

  /** Commands the receiver is meant to take. */
  predicate Admissible(l: Limits, cs: seq<Command>) {
    forall c <- cs :: WellFormed(c) && (l.maxMessageSize == UINT32_MAX || |c| - HEADER_SIZE <= l.maxMessageSize)
  }

  lemma AdmissibleRest(l: Limits, cs: seq<Command>, k: nat)
    requires Admissible(l, cs) && k <= |cs|
    ensures Admissible(l, cs[k..])
  {
  }

  lemma Assoc<T>(a: seq<T>, b: seq<T>, c: seq<T>)
    ensures (a + b) + c == a + (b + c)
  {
  }

  lemma FirstAndRest<T>(s: seq<T>, t: seq<T>)
    requires s != []
    ensures [s[0]] + (s[1..] + t) == s + t
  {
  }

  // ---------------------------------------------------------------------------
  // One command
  // ---------------------------------------------------------------------------

  predicate HasEndTag(w: seq<byte>) {
    exists j: nat | j + 3 < |w| :: TagAt(w, j, END_TAG)
  }

  /** A piece of a frame that ends inside the header and already shows an end tag. */
  predicate ShowsFalseEnd(w: seq<byte>) {
    4 <= |w| <= 12 && HasEndTag(w[4..])
  }

  /** The receiver waits for more when `w` is all that is left in its buffer. */
  predicate Waits(w: seq<byte>, consumed: bool) {
    !(|w| == 3 && !consumed) && !ShowsFalseEnd(w)
  }

  /** How a command stands in the stream. */
  lemma FrameLayout(c: Command)
    ensures |Frame(c)| == |c| + 8 && Frame(c)[4..4 + |c|] == c
    ensures Frame(c)[..4] == [0x67, 0x37, 0x6D, 0x07] && Frame(c)[4 + |c|..] == [0x07, 0x6D, 0x37, 0x67]
    ensures WellFormed(c) ==>
              && 9 <= |c|
              && |c| - 9 == c[5] as int + 0x100 * c[6] as int + 0x1_0000 * c[7] as int + 0x100_0000 * c[8] as int
  {
  }

  /** A whole frame is taken for what it is, whatever its payload and whatever follows. */
  lemma ParseWhole(c: Command, tail: seq<byte>, limit: nat)
    requires WellFormed(c) && (limit == UINT32_MAX || |c| - HEADER_SIZE <= limit)
    ensures Parse(Frame(c) + tail, limit) == Found(4, 4 + |c|)
    ensures (Frame(c) + tail)[4..4 + |c|] == c
    ensures (Frame(c) + tail)[8 + |c|..] == tail
  {
    var w := Frame(c) + tail;
    assert TagAt(w, 0, START_TAG);
    assert w[9] == c[5] && w[10] == c[6] && w[11] == c[7] && w[12] == c[8];
    assert AnnouncedSize(w, 4) == |c| - 9;
    assert !TagAt(w, 3 + |c|, END_TAG);
    assert TagAt(w, 4 + |c|, END_TAG);
    assert Scan(w, END_TAG, 3 + |c|) == Scan(w, END_TAG, 4 + |c|) == 4 + |c|;
  }

  /** Fewer than four bytes: three look like garbage, one or two ask for a whole empty command. */
  lemma ParseStub(c: Command, n: nat, limit: nat)
    requires WellFormed(c) && 0 < n < 4
    ensures Parse(Frame(c)[..n], limit) == if n == 3 then NoStart else Incomplete(17 - n)
  {
  }

  /** A piece that ends inside the header. */
  lemma ParseHeaderPiece(c: Command, n: nat, limit: nat)
    requires WellFormed(c) && 4 <= n <= 12
    ensures var w := Frame(c)[..n];
            if HasEndTag(w[4..]) then Parse(w, limit).Found? else Parse(w, limit) == Incomplete(17 - n)
  {
    var w := Frame(c)[..n];
    assert TagAt(w, 0, START_TAG);
    ScanStops(w, END_TAG, 4);
    var end := Scan(w, END_TAG, 4);
    if HasEndTag(w[4..]) {
      var j: nat :| j + 3 < |w[4..]| && TagAt(w[4..], j, END_TAG);
      assert TagAt(w, 4 + j, END_TAG);
      assert end + 3 < n;
    } else {
      assert end + 3 < n ==> TagAt(w[4..], end - 4, END_TAG);
    }
  }

  /** A piece with a whole header: exactly the rest of the frame is missing. */
  lemma ParsePayloadPiece(c: Command, n: nat, limit: nat)
    requires WellFormed(c) && 13 <= n < |Frame(c)|
    requires limit == UINT32_MAX || |c| - HEADER_SIZE <= limit
    ensures Parse(Frame(c)[..n], limit) == Incomplete(|Frame(c)| - n)
  {
    var w := Frame(c)[..n];
    assert TagAt(w, 0, START_TAG);
    assert w[9] == c[5] && w[10] == c[6] && w[11] == c[7] && w[12] == c[8];
    assert AnnouncedSize(w, 4) == |c| - 9;
    var from := EndScanStart(w, 4);
    assert from == |c| + 3;
    assert from + 3 < n ==> !TagAt(w, from, END_TAG);
    assert Scan(w, END_TAG, from) + 3 >= n;
    assert Missing(w, 4) == Incomplete(|c| + 8 - n);
  }

  /** A proper piece of a frame is never taken for a whole command, unless it shows a false end. */
  lemma ParsePiece(c: Command, n: nat, limit: nat)
    requires WellFormed(c) && 0 < n < |Frame(c)|
    requires limit == UINT32_MAX || |c| - HEADER_SIZE <= limit
    ensures var w := Frame(c)[..n];
            var p := Parse(w, limit);
            if n == 3 then p == NoStart
            else if ShowsFalseEnd(w) then p.Found?
            else p == Incomplete(Max(17, if n < 13 then 17 else |Frame(c)|) - n)
  {
    if n < 4 {
      ParseStub(c, n, limit);
    } else if n <= 12 {
      ParseHeaderPiece(c, n, limit);
    } else {
      ParsePayloadPiece(c, n, limit);
    }
  }

  // ---------------------------------------------------------------------------
  // One callback
  // ---------------------------------------------------------------------------

  /** The receiver has taken exactly `cs` and keeps exactly `piece`. */
  predicate Took(o: Outcome, cs: seq<Command>, piece: seq<byte>) {
    o.delivered == cs && o.rest == piece && o.verdict == Reading
  }

  lemma DeframeWhole(l: Limits, capacity: nat, c: Command, tail: seq<byte>, consumed: bool, count: nat)
    requires Admissible(l, [c])
    ensures var w := Frame(c) + tail;
            var later := Deframe(l, capacity, tail, true, NextShrinkCount(l, capacity, |w|, count));
            Deframe(l, capacity, w, consumed, count) == later.(delivered := [c] + later.delivered)
  {
    assert c in [c];
    ParseWhole(c, tail, l.maxMessageSize);
  }

  /** Whole frames at the front of the buffer are delivered one by one, whatever follows them. */
  lemma {:induction false} DeframeStream(l: Limits, capacity: nat, cs: seq<Command>, tail: seq<byte>, consumed: bool, count: nat)
    returns (later: nat)
    requires Admissible(l, cs)
    ensures var o := Deframe(l, capacity, tail, consumed || cs != [], later);
            Deframe(l, capacity, Stream(cs) + tail, consumed, count) == o.(delivered := cs + o.delivered)
    decreases |cs|
  {
    if cs == [] {
      assert Stream(cs) + tail == tail;
      later := count;
      var o := Deframe(l, capacity, tail, consumed, later);
      assert cs + o.delivered == o.delivered;
    } else {
      var next := Stream(cs[1..]) + tail;
      Assoc(Frame(cs[0]), Stream(cs[1..]), tail);
      var k := NextShrinkCount(l, capacity, |Frame(cs[0]) + next|, count);
      DeframeWhole(l, capacity, cs[0], next, consumed, count);
      later := DeframeStream(l, capacity, cs[1..], tail, true, k);
      var o := Deframe(l, capacity, tail, true, later);
      FirstAndRest(cs, o.delivered);
    }
  }

  lemma PieceIff(l: Limits, capacity: nat, c: Command, n: nat, consumed: bool, count: nat)
    requires Admissible(l, [c]) && n < |Frame(c)|
    ensures var w := Frame(c)[..n];
            Took(Deframe(l, capacity, w, consumed, count), [], w) <==> Waits(w, consumed)
  {
    assert c in [c];
    if n > 0 {
      ParsePiece(c, n, l.maxMessageSize);
    }
  }

  // ---------------------------------------------------------------------------
  // Where a prefix of the stream ends
  // ---------------------------------------------------------------------------

  /** How many frames lie completely within the first `n` bytes. */
  function Whole(cs: seq<Command>, n: nat): (k: nat)
    ensures k <= |cs|
  {
    if cs == [] || n < |Frame(cs[0])| then 0 else 1 + Whole(cs[1..], n - |Frame(cs[0])|)
  }

  /** The bytes of the frame that the first `n` bytes cut. */
  function Piece(cs: seq<Command>, n: nat): seq<byte> {
    if cs == [] then []
    else if n < |Frame(cs[0])| then Frame(cs[0])[..n]
    else Piece(cs[1..], n - |Frame(cs[0])|)
  }

  lemma {:induction false} PrefixSplits(cs: seq<Command>, n: nat)
    requires n <= |Stream(cs)|
    ensures Stream(cs)[..n] == Stream(cs[..Whole(cs, n)]) + Piece(cs, n)
    ensures var k := Whole(cs, n);
            if k == |cs| then Piece(cs, n) == []
            else |Piece(cs, n)| < |Frame(cs[k])| && Piece(cs, n) == Frame(cs[k])[..|Piece(cs, n)|]
    decreases |cs|
  {
    if cs != [] && n >= |Frame(cs[0])| {
      var m := n - |Frame(cs[0])|;
      PrefixSplits(cs[1..], m);
      var k := Whole(cs[1..], m);
      assert cs[..k + 1][0] == cs[0] && cs[..k + 1][1..] == cs[1..][..k];
      assert Stream(cs)[..n] == Frame(cs[0]) + Stream(cs[1..])[..m];
      Assoc(Frame(cs[0]), Stream(cs[1..][..k]), Piece(cs[1..], m));
    }
  }

  /** The callback that reads up to byte `n`, from a buffer that begins with a whole number of frames. */
  lemma DeframePrefixIff(l: Limits, capacity: nat, cs: seq<Command>, n: nat, count: nat)
    requires Admissible(l, cs) && n <= |Stream(cs)|
    ensures Took(Deframe(l, capacity, Stream(cs)[..n], false, count), cs[..Whole(cs, n)], Piece(cs, n))
            <==> Waits(Piece(cs, n), Whole(cs, n) > 0)
  {
    var k, piece := Whole(cs, n), Piece(cs, n);
    PrefixSplits(cs, n);
    var later := DeframeStream(l, capacity, cs[..k], piece, false, count);
    var o := Deframe(l, capacity, piece, k > 0, later);
    assert cs[..k] + o.delivered == cs[..k] <==> o.delivered == [] by {
      assert (cs[..k] + o.delivered)[k..] == o.delivered;
    }
    if k < |cs| {
      PieceIff(l, capacity, cs[k], |piece|, k > 0, later);
    }
  }

  // ---------------------------------------------------------------------------
  // Whole runs
  // ---------------------------------------------------------------------------

  /** After `n` bytes of the stream: every whole command delivered, in order, and the cut one kept. */
  predicate Faithful(cs: seq<Command>, n: nat, r: Reader) {
    r.verdict == Reading && r.delivered == cs[..Whole(cs, n)] && r.buffered == Piece(cs, n)
  }

  /** A callback that starts after `from` bytes and ends after `to` bytes leaves something to wait for. */
  predicate GoodStop(cs: seq<Command>, from: nat, to: nat) {
    from == to || Waits(Piece(cs, to), Whole(cs, to) > Whole(cs, from))
  }

  lemma {:induction false} WholeConcat(a: seq<Command>, b: seq<Command>, n: nat)
    ensures Stream(a + b) == Stream(a) + Stream(b)
    ensures Whole(a + b, |Stream(a)| + n) == |a| + Whole(b, n)
    ensures Piece(a + b, |Stream(a)| + n) == Piece(b, n)
    decreases |a|
  {
    if a == [] {
      assert a + b == b;
    } else {
      WholeConcat(a[1..], b, n);
      assert (a + b)[1..] == a[1..] + b;
      Assoc(Frame(a[0]), Stream(a[1..]), Stream(b));
    }
  }

  /** A slice of `a + b` that starts within `b` prolongs the part of `b` before it. */
  lemma Prolong<T>(s: seq<T>, a: seq<T>, b: seq<T>, n: nat, p: nat, data: seq<T>)
    requires s == a + b && n == |a| + p && n + |data| <= |s| && data == s[n..n + |data|]
    ensures b[..p] + data == b[..p + |data|]
  {
  }

  lemma TakeMore<T>(s: seq<T>, k: nat, n: nat)
    requires k + n <= |s|
    ensures s[..k + n] == s[..k] + s[k..][..n]
  {
  }

  lemma SliceBehind<T>(a: seq<T>, b: seq<T>, s: seq<T>)
    requires a + b <= s
    ensures b == s[|a|..|a| + |b|]
  {
    assert (a + b)[|a|..] == b;
  }

  lemma SameTail<T>(a: seq<T>, s: seq<T>, t: seq<T>)
    ensures a + s == a + t <==> s == t
  {
    assert (a + s)[|a|..] == s && (a + t)[|a|..] == t;
  }

  /** A receiver that had delivered `k` commands is faithful if the callback took the right part of the others. */
  lemma TookIff(cs: seq<Command>, n: nat, k: nat, q: nat, m: nat, o: Outcome, r: Reader)
    requires n < m && k == Whole(cs, n) && m == |Stream(cs[..k])| + q
    requires r.buffered == o.rest && r.delivered == cs[..k] + o.delivered && r.verdict == o.verdict
    ensures var b := cs[k..];
            && (Faithful(cs, m, r) <==> Took(o, b[..Whole(b, q)], Piece(b, q)))
            && (GoodStop(cs, n, m) <==> Waits(Piece(b, q), Whole(b, q) > 0))
  {
    var a, b := cs[..k], cs[k..];
    assert cs == a + b;
    WholeConcat(a, b, q);
    var taken := b[..Whole(b, q)];
    TakeMore(cs, k, Whole(b, q));
    SameTail(a, o.delivered, taken);
  }

  /** Where the stream stands after `n` bytes: `k` commands and `p` bytes of the next frame. */
  lemma StreamAt(cs: seq<Command>, n: nat) returns (k: nat, p: nat)
    requires n <= |Stream(cs)|
    ensures k == Whole(cs, n) && n == |Stream(cs[..k])| + p && p <= |Stream(cs[k..])|
    ensures Stream(cs) == Stream(cs[..k]) + Stream(cs[k..])
    ensures Piece(cs, n) == Stream(cs[k..])[..p]
  {
    k := Whole(cs, n);
    var a, b := cs[..k], cs[k..];
    assert cs == a + b;
    PrefixSplits(cs, n);
    p := n - |Stream(a)|;
    WholeConcat(a, b, p);
    assert Stream(cs)[..n][|Stream(a)|..] == Piece(cs, n);
  }

  /** What a callback finds in the buffer of a faithful receiver. */
  lemma BufferAt(cs: seq<Command>, n: nat, data: seq<byte>) returns (k: nat, q: nat)
    requires n + |data| <= |Stream(cs)| && data == Stream(cs)[n..n + |data|]
    ensures k == Whole(cs, n)
    ensures n + |data| == |Stream(cs[..k])| + q && q <= |Stream(cs[k..])|
    ensures Piece(cs, n) + data == Stream(cs[k..])[..q]
  {
    var p;
    k, p := StreamAt(cs, n);
    q := p + |data|;
    Prolong(Stream(cs), Stream(cs[..k]), Stream(cs[k..]), n, p, data);
  }

  /** What one more callback does to a faithful receiver. */
  lemma CallbackFaithfulIff(l: Limits, cs: seq<Command>, n: nat, k: nat, q: nat, m: nat, r: Reader, data: seq<byte>)
    requires n < m && k == Whole(cs, n) && r.delivered == cs[..k] && Admissible(l, cs[k..])
    requires m == |Stream(cs[..k])| + q && q <= |Stream(cs[k..])| && r.buffered + data == Stream(cs[k..])[..q]
    ensures Faithful(cs, m, Receive(l, r, data)) <==> GoodStop(cs, n, m)
  {
    var b := cs[k..];
    TookIff(cs, n, k, q, m, Deframe(l, r.capacity, Stream(b)[..q], false, r.shrinkCount), Receive(l, r, data));
    DeframePrefixIff(l, r.capacity, b, q, r.shrinkCount);
  }

  lemma RoundFaithfulIff(l: Limits, cs: seq<Command>, n: nat, m: nat, r: Reader, data: seq<byte>)
    requires Admissible(l, cs) && Faithful(cs, n, r)
    requires m == n + |data| <= |Stream(cs)| && data == Stream(cs)[n..m]
    ensures Faithful(cs, m, Round(l, r, data)) <==> GoodStop(cs, n, m)
  {
    var p := Post(l, r);
    assert p.buffered == Piece(cs, n) && p.delivered == cs[..Whole(cs, n)];
    if data != [] {
      var k, q := BufferAt(cs, n, data);
      AdmissibleRest(l, cs, k);
      CallbackFaithfulIff(l, cs, n, k, q, m, p, data);
    }
  }

  /** The first `i` reads. */
  function Read(chunks: seq<seq<byte>>, i: nat): nat
    requires i <= |chunks|
  {
    |Joined(chunks[..i])|
  }

  lemma ReadMore(l: Limits, chunks: seq<seq<byte>>, i: nat)
    requires i < |chunks|
    ensures Joined(chunks[..i + 1]) == Joined(chunks[..i]) + chunks[i]
    ensures Rounds(l, chunks[..i + 1]) == Round(l, Rounds(l, chunks[..i]), chunks[i])
  {
    assert chunks[..i + 1][..i] == chunks[..i];
  }

  lemma {:induction false} JoinedPrefix(l: Limits, chunks: seq<seq<byte>>, i: nat)
    requires i <= |chunks|
    ensures Joined(chunks[..i]) <= Joined(chunks)
    decreases |chunks| - i
  {
    if i == |chunks| {
      assert chunks[..i] == chunks;
    } else {
      ReadMore(l, chunks, i);
      JoinedPrefix(l, chunks, i + 1);
    }
  }

  /** One callback of a run. */
  lemma StepFaithfulIff(l: Limits, cs: seq<Command>, chunks: seq<seq<byte>>, i: nat)
    requires Admissible(l, cs) && Joined(chunks) <= Stream(cs) && i < |chunks|
    requires Faithful(cs, Read(chunks, i), Rounds(l, chunks[..i]))
    ensures Faithful(cs, Read(chunks, i + 1), Rounds(l, chunks[..i + 1]))
            <==> GoodStop(cs, Read(chunks, i), Read(chunks, i + 1))
  {
    ReadMore(l, chunks, i);
    JoinedPrefix(l, chunks, i + 1);
    SliceBehind(Joined(chunks[..i]), chunks[i], Stream(cs));
    RoundFaithfulIff(l, cs, Read(chunks, i), Read(chunks, i + 1), Rounds(l, chunks[..i]), chunks[i]);
  }

  predicate AllGoodStops(cs: seq<Command>, chunks: seq<seq<byte>>) {
    forall i | 0 <= i < |chunks| :: GoodStop(cs, Read(chunks, i), Read(chunks, i + 1))
  }

  predicate AllFaithful(l: Limits, cs: seq<Command>, chunks: seq<seq<byte>>) {
    forall i | 0 <= i <= |chunks| :: Faithful(cs, Read(chunks, i), Rounds(l, chunks[..i]))
  }

  /**
   Round trip over every way to cut the stream into reads: the receiver has, after every read,
   delivered exactly the whole commands and kept exactly the cut one, if and only if no read stops
   after the first three bytes of a frame without having completed a command, or inside a header
   that already shows an end tag.
   */
  lemma RunFaithfulIff(l: Limits, cs: seq<Command>, chunks: seq<seq<byte>>)
    requires Admissible(l, cs) && Joined(chunks) <= Stream(cs)
    ensures AllFaithful(l, cs, chunks) <==> AllGoodStops(cs, chunks)
  {
    if AllGoodStops(cs, chunks) {
      forall i | 0 <= i <= |chunks|
        ensures Faithful(cs, Read(chunks, i), Rounds(l, chunks[..i]))
      {
        GoodStopsFaithful(l, cs, chunks, i);
      }
    }
    if AllFaithful(l, cs, chunks) {
      forall i | 0 <= i < |chunks|
        ensures GoodStop(cs, Read(chunks, i), Read(chunks, i + 1))
      {
        StepFaithfulIff(l, cs, chunks, i);
      }
    }
  }

  lemma {:induction false} GoodStopsFaithful(l: Limits, cs: seq<Command>, chunks: seq<seq<byte>>, i: nat)
    requires Admissible(l, cs) && Joined(chunks) <= Stream(cs) && i <= |chunks|
    requires AllGoodStops(cs, chunks)
    ensures Faithful(cs, Read(chunks, i), Rounds(l, chunks[..i]))
    decreases i
  {
    if i == 0 {
      assert chunks[..0] == [];
    } else {
      GoodStopsFaithful(l, cs, chunks, i - 1);
      StepFaithfulIff(l, cs, chunks, i - 1);
    }
  }

  // ---------------------------------------------------------------------------
  // Which streams and which reads are safe
  // ---------------------------------------------------------------------------

  /** No end tag within the first eight header bytes. */
  predicate ClearHeader(c: Command)
    requires WellFormed(c)
  {
    !HasEndTag(c[..8])
  }

  lemma HeaderPieceShows(c: Command, n: nat)
    requires WellFormed(c) && 4 <= n <= 12
    ensures Frame(c)[..n][4..] == c[..n - 4]
  {
  }

  lemma EndTagStays(c: Command, n: nat, m: nat)
    requires n <= m <= |c| && HasEndTag(c[..n])
    ensures HasEndTag(c[..m])
  {
    var j: nat :| j + 3 < |c[..n]| && TagAt(c[..n], j, END_TAG);
    assert TagAt(c[..m], j, END_TAG);
  }

  /** A frame can be cut anywhere, except after three bytes, exactly when its header is clear. */
  lemma ClearHeaderIff(c: Command, consumed: bool)
    requires WellFormed(c)
    ensures (forall n: nat | n < |Frame(c)| && n != 3 :: Waits(Frame(c)[..n], consumed)) <==> ClearHeader(c)
  {
    HeaderPieceShows(c, 12);
    if ClearHeader(c) {
      forall n: nat | n < |Frame(c)| && n != 3
        ensures Waits(Frame(c)[..n], consumed)
      {
        if 4 <= n <= 12 {
          HeaderPieceShows(c, n);
          if HasEndTag(c[..n - 4]) {
            EndTagStays(c, n - 4, 8);
          }
        }
      }
    } else {
      assert ShowsFalseEnd(Frame(c)[..12]);
    }
  }

  /** No read ends after exactly three bytes of a frame without having completed a command. */
  predicate NoStubs(cs: seq<Command>, chunks: seq<seq<byte>>) {
    forall i | 0 <= i < |chunks| ::
      Read(chunks, i) != Read(chunks, i + 1) && |Piece(cs, Read(chunks, i + 1))| == 3 ==> Whole(cs, Read(chunks, i + 1)) > Whole(cs, Read(chunks, i))
  }

  lemma ClearPieceWaits(cs: seq<Command>, n: nat, consumed: bool)
    requires n <= |Stream(cs)| && forall c <- cs :: WellFormed(c) && ClearHeader(c)
    requires |Piece(cs, n)| == 3 ==> consumed
    ensures Waits(Piece(cs, n), consumed)
  {
    PrefixSplits(cs, n);
    var k := Whole(cs, n);
    if k < |cs| {
      ClearHeaderIff(cs[k], consumed);
    }
  }

  lemma {:induction false} WholeAll(cs: seq<Command>)
    ensures Whole(cs, |Stream(cs)|) == |cs|
    decreases |cs|
  {
    if cs != [] {
      WholeAll(cs[1..]);
    }
  }

  /** With clear headers, every cutting of the stream without stubs delivers every command, once and in order. */
  lemma ClearStreamsArrive(l: Limits, cs: seq<Command>, chunks: seq<seq<byte>>)
    requires Admissible(l, cs) && Joined(chunks) == Stream(cs) && NoStubs(cs, chunks)
    requires forall c <- cs :: WellFormed(c) && ClearHeader(c)
    ensures Rounds(l, chunks).delivered == cs && Rounds(l, chunks).buffered == []
  {
    forall i | 0 <= i < |chunks|
      ensures GoodStop(cs, Read(chunks, i), Read(chunks, i + 1))
    {
      JoinedPrefix(l, chunks, i + 1);
      if Read(chunks, i) != Read(chunks, i + 1) {
        ClearPieceWaits(cs, Read(chunks, i + 1), Whole(cs, Read(chunks, i + 1)) > Whole(cs, Read(chunks, i)));
      }
    }
    GoodStopsFaithful(l, cs, chunks, |chunks|);
    assert chunks[..|chunks|] == chunks;
    WholeAll(cs);
    PrefixSplits(cs, |Stream(cs)|);
    assert cs[..|cs|] == cs;
  }

  /** A command of client 0x6D07 with 0x6737 bytes of payload: its header shows an end tag. */
  function Treacherous(): Command {
    [1, 0, 0, 0x07, 0x6D, 0x37, 0x67, 0, 0] + seq(0x6737, _ => 0)
  }

  /** Such a command is well formed, and a read that ends inside it delivers a command that was never sent. */
  lemma HeadersCanBeUnclear(l: Limits)
    requires l.maxMessageSize >= 0x6737
    ensures Admissible(l, [Treacherous()]) && !ClearHeader(Treacherous())
    ensures Rounds(l, [Frame(Treacherous())[..12]]).delivered != []
  {
    var c := Treacherous();
    assert TagAt(c[..8], 3, END_TAG);
    HeaderPieceShows(c, 12);
    ParseHeaderPiece(c, 12, l.maxMessageSize);
    var chunks := [Frame(c)[..12]];
    assert chunks[..0] == [];
    assert Fresh(l).buffered + chunks[0] == chunks[0];
  }
}
