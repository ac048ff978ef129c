/**
 What the receiver does with arbitrary bytes: everything it delivers was framed in the stream and
 announces a size within the limit, and a frame that announces more ends the connection.
 */
module AnyBytes {
  import opened Bytes
  import opened Framing
  import opened Deframing
  import opened ReadBuffer

  // ---------------------------------------------------------------------------
  // One window
  // ---------------------------------------------------------------------------

  predicate HasStartTag(w: seq<byte>) {
    exists j: nat | j + 3 < |w| :: TagAt(w, j, START_TAG)
  }

  /** The first start tag stands at `i`. */
  predicate StartsAt(w: seq<byte>, i: nat) {
    i + 3 < |w| && TagAt(w, i, START_TAG) && forall j | 0 <= j < i :: !TagAt(w, j, START_TAG)
  }

  /** Behind the first start tag, at `i`, a whole header announces more than the limit. */
  predicate AnnouncesTooMuch(w: seq<byte>, i: nat, limit: nat) {
    StartsAt(w, i) && i + 12 < |w| && limit != UINT32_MAX && ReadUint32LE(w, i + 9) > limit
  }

  /** A command with a whole header announces no more than its own bytes, and no more than the limit. */
  predicate Sized(c: Command, limit: nat) {
    HEADER_SIZE <= |c| ==>
      && ReadUint32LE(c, POSITION_SIZE) < |c| - 7
      && (limit == UINT32_MAX || ReadUint32LE(c, POSITION_SIZE) <= limit)
  }

  lemma StartFound(w: seq<byte>) returns (i: nat)
    ensures i == Scan(w, START_TAG, 0)
    ensures HasStartTag(w) <==> StartsAt(w, i)
    ensures !HasStartTag(w) ==> i == if |w| >= 3 then |w| - 3 else 0
  {
    i := Scan(w, START_TAG, 0);
    ScanStops(w, START_TAG, 0);
  }

  lemma SameSize(w: seq<byte>, start: nat, end: nat)
    requires start + HEADER_SIZE <= end <= |w|
    ensures ReadUint32LE(w[start..end], POSITION_SIZE) == ReadUint32LE(w, start + POSITION_SIZE)
  {
  }

  /** What is found lies between the first start tag and an end tag, and is sized. */
  lemma FoundIsFramed(w: seq<byte>, limit: nat)
    requires Parse(w, limit).Found?
    ensures var p := Parse(w, limit);
            && 4 <= p.start <= p.end && p.end + 3 < |w|
            && StartsAt(w, p.start - 4) && TagAt(w, p.end, END_TAG) && Sized(w[p.start..p.end], limit)
  {
    var p := Parse(w, limit);
    var i := StartFound(w);
    ScanStops(w, END_TAG, EndScanStart(w, p.start));
    if p.start + HEADER_SIZE <= p.end {
      SameSize(w, p.start, p.end);
    }
  }

  /** There is no start exactly in three bytes or more without a start tag; fewer always miss the rest of an empty command. */
  lemma NoStartIff(w: seq<byte>, limit: nat)
    ensures Parse(w, limit).NoStart? <==> |w| >= 3 && !HasStartTag(w)
    ensures |w| < 3 ==> Parse(w, limit) == Incomplete(17 - |w|)
  {
    var i := StartFound(w);
  }

  lemma TooLargeIff(w: seq<byte>, limit: nat)
    ensures Parse(w, limit).TooLarge? <==> exists i: nat :: AnnouncesTooMuch(w, i, limit)
  {
    var i := StartFound(w);
    if exists j: nat :: AnnouncesTooMuch(w, j, limit) {
      var j: nat :| AnnouncesTooMuch(w, j, limit);
      assert HasStartTag(w) && i == j;
    }
    assert Parse(w, limit).TooLarge? ==> AnnouncesTooMuch(w, i, limit);
  }

  /** Where the end tag is looked for: one byte before the announced end, or in the whole rest without a whole header. */
  function EndFrom(w: seq<byte>, i: nat): nat {
    if i + 12 < |w| then i + 12 + ReadUint32LE(w, i + 9) else i + 4
  }

  /** The length of the frame that stands at `i`, as far as its header tells. */
  function FrameEnd(w: seq<byte>, i: nat): nat {
    i + 17 + if i + 12 < |w| then ReadUint32LE(w, i + 9) else 0
  }

  predicate EndTagFrom(w: seq<byte>, from: nat) {
    exists j: nat | from <= j && j + 3 < |w| :: TagAt(w, j, END_TAG)
  }

  /**
   What is seen in a buffer whose first start tag stands at `i` and whose header, if it is whole, announces no more
   than the limit: the command up to the first end tag, if there is one; otherwise how many bytes are missing,
   counted in 32 bits; a malformed frame if none is.
   */
  lemma ParseIff(w: seq<byte>, limit: nat, i: nat)
    requires StartsAt(w, i) && !AnnouncesTooMuch(w, i, limit)
    ensures var p := Parse(w, limit);
            if EndTagFrom(w, EndFrom(w, i)) then
              && p.Found? && p.start == i + 4 && EndFrom(w, i) <= p.end && p.end + 3 < |w| && TagAt(w, p.end, END_TAG)
              && forall j | EndFrom(w, i) <= j < p.end :: !TagAt(w, j, END_TAG)
            else if FrameEnd(w, i) > |w| then p == Incomplete((FrameEnd(w, i) - |w|) % (UINT32_MAX + 1))
            else p == Malformed
  {
    var first := StartFound(w);
    assert HasStartTag(w) && first == i;
    ScanStops(w, END_TAG, EndFrom(w, i));
  }

  /**
   How a callback ends when no further command is found: bytes without a start are kept, and are garbage unless a
   command was found before them; a malformed frame is dropped as garbage; an incomplete one is kept, and the
   missing bytes are asked for unless a command was found before it and the buffer has room for them.
   */
  lemma CallbackEndsIff(l: Limits, capacity: nat, w: seq<byte>, consumed: bool, count: nat)
    requires w != [] && !Parse(w, l.maxMessageSize).Found?
    ensures var o, p := Deframe(l, capacity, w, consumed, count), Parse(w, l.maxMessageSize);
            && o.delivered == [] && o.shrinkCount == count
            && (|w| >= 3 && !HasStartTag(w) ==>
                  o.rest == w && o.missing == 0 && o.verdict == if consumed then Reading else Garbage)
            && (p.TooLarge? ==> o.rest == [] && o.verdict == Rejected)
            && (p.Malformed? ==> o.rest == [] && o.verdict == Garbage)
            && (p.Incomplete? ==> o.rest == w && o.verdict == Reading
                                  && o.missing == if consumed && |w| + p.missing <= capacity then 0 else p.missing)
  {
    NoStartIff(w, l.maxMessageSize);
  }

  // ---------------------------------------------------------------------------
  // Whatever arrives
  // ---------------------------------------------------------------------------

  /** The frame of the command stands between `before` and `behind`. */
  predicate FrameBetween(s: seq<byte>, before: seq<byte>, c: Command, behind: seq<byte>) {
    s == before + (Frame(c) + behind)
  }

  /** The frames of the commands stand in the stream one after the other, with anything in between. */
  ghost predicate Embeds(s: seq<byte>, cs: seq<Command>)
    decreases |cs|
  {
    cs == [] || exists before, behind :: FrameBetween(s, before, cs[0], behind) && Embeds(behind, cs[1..])
  }

  lemma EmbedsHere(s: seq<byte>, before: seq<byte>, behind: seq<byte>, cs: seq<Command>)
    requires cs != [] && FrameBetween(s, before, cs[0], behind) && Embeds(behind, cs[1..])
    ensures Embeds(s, cs)
  {
  }

  lemma EmbedsBehind(s: seq<byte>, t: seq<byte>, ds: seq<Command>)
    requires Embeds(t, ds)
    ensures Embeds(s + t, ds)
  {
    if ds != [] {
      var before, behind :| FrameBetween(t, before, ds[0], behind) && Embeds(behind, ds[1..]);
      Assoc(s, before, Frame(ds[0]) + behind);
      EmbedsHere(s + t, s + before, behind, ds);
    }
  }

  /** What one stream embeds, and then what the next one embeds, is embedded in both together. */
  lemma {:induction false} EmbedsConcat(s: seq<byte>, cs: seq<Command>, t: seq<byte>, ds: seq<Command>)
    requires Embeds(s, cs) && Embeds(t, ds)
    ensures Embeds(s + t, cs + ds)
    decreases |cs|
  {
    if cs == [] {
      assert cs + ds == ds;
      EmbedsBehind(s, t, ds);
    } else {
      var before, behind :| FrameBetween(s, before, cs[0], behind) && Embeds(behind, cs[1..]);
      EmbedsConcat(behind, cs[1..], t, ds);
      Assoc(before, Frame(cs[0]) + behind, t);
      Assoc(Frame(cs[0]), behind, t);
      var all := cs + ds;
      assert all[0] == cs[0] && all[1..] == cs[1..] + ds;
      EmbedsHere(s + t, before, behind + t, all);
    }
  }

  lemma TagSlice(w: seq<byte>, i: nat, tag: seq<byte>)
    requires |tag| == TAG_SIZE && i + 3 < |w| && TagAt(w, i, tag)
    ensures w[i..i + 4] == tag
  {
  }

  lemma PrefixSlice<T>(w: seq<T>, n: nat, i: nat, j: nat)
    requires i <= j <= n <= |w|
    ensures w[..n][i..j] == w[i..j]
  {
  }

  lemma Cut(w: seq<byte>, i: nat, j: nat, k: nat, n: nat)
    requires i <= j <= k <= n <= |w|
    ensures w == w[..i] + (w[i..j] + w[j..k] + w[k..n] + w[n..])
  {
  }

  /** The first command that is found, and the bytes up to its end. */
  lemma FirstTaken(w: seq<byte>, limit: nat) returns (c: Command, n: nat)
    requires Parse(w, limit).Found?
    ensures var p := Parse(w, limit); 4 <= p.start <= p.end && n == p.end + 4 <= |w| && c == w[p.start..p.end]
    ensures Embeds(w[..n], [c]) && Sized(c, limit)
  {
    FoundIsFramed(w, limit);
    var p := Parse(w, limit);
    c, n := w[p.start..p.end], p.end + 4;
    TagSlice(w, p.start - 4, START_TAG);
    TagSlice(w, p.end, END_TAG);
    PrefixSlice(w, n, p.start - 4, p.start);
    PrefixSlice(w, n, p.start, p.end);
    PrefixSlice(w, n, p.end, n);
    OneEmbedded(w[..n], p.start, p.end);
  }

  lemma OneEmbedded(v: seq<byte>, start: nat, end: nat)
    requires 4 <= start <= end && end + 4 == |v| && v[start - 4..start] == START_TAG && v[end..end + 4] == END_TAG
    ensures Embeds(v, [v[start..end]])
  {
    var c := v[start..end];
    Cut(v, start - 4, start, end, end + 4);
    assert v[end + 4..] == [];
    EmbedsHere(v, v[..start - 4], [], [c]);
  }

  /** Bytes taken, and from them framed and sized commands. */
  ghost predicate Framed(taken: seq<byte>, cs: seq<Command>, limit: nat) {
    Embeds(taken, cs) && forall c <- cs :: Sized(c, limit)
  }

  lemma FramedConcat(s: seq<byte>, cs: seq<Command>, t: seq<byte>, ds: seq<Command>, limit: nat)
    requires Framed(s, cs, limit) && Framed(t, ds, limit)
    ensures Framed(s + t, cs + ds, limit)
  {
    EmbedsConcat(s, cs, t, ds);
  }

  /** What a callback takes from its buffer: framed and sized commands, and what it keeps stands behind them. */
  lemma {:induction false} DeframeTakesFrames(l: Limits, capacity: nat, w: seq<byte>, consumed: bool, count: nat)
    returns (taken: seq<byte>)
    ensures var o := Deframe(l, capacity, w, consumed, count);
            w == taken + o.rest && Framed(taken, o.delivered, l.maxMessageSize)
    decreases |w|
  {
    if w != [] && Parse(w, l.maxMessageSize).Found? {
      var c, n := FirstTaken(w, l.maxMessageSize);
      var later := DeframeTakesFrames(l, capacity, w[n..], true, NextShrinkCount(l, capacity, |w|, count));
      var o := Deframe(l, capacity, w[n..], true, NextShrinkCount(l, capacity, |w|, count));
      taken := w[..n] + later;
      Assoc(w[..n], later, o.rest);
      assert w == w[..n] + w[n..];
      FramedConcat(w[..n], [c], later, o.delivered, l.maxMessageSize);
    } else {
      taken := if Deframe(l, capacity, w, consumed, count).rest == w then [] else w;
    }
  }

  /** Where a reader stands in the bytes that have arrived: it has delivered from `taken` and keeps the rest. */
  ghost predicate Reads(l: Limits, r: Reader, arrived: seq<byte>) {
    exists taken :: taken + r.buffered <= arrived && Framed(taken, r.delivered, l.maxMessageSize)
                    && (r.verdict == Reading ==> taken + r.buffered == arrived)
  }

  lemma RoundReads(l: Limits, r: Reader, arrived: seq<byte>, data: seq<byte>)
    requires Reads(l, r, arrived)
    ensures Reads(l, Round(l, r, data), arrived + data)
  {
    var taken :| taken + r.buffered <= arrived && Framed(taken, r.delivered, l.maxMessageSize)
                 && (r.verdict == Reading ==> taken + r.buffered == arrived);
    if r.verdict != Reading || data == [] {
      assert taken + r.buffered <= arrived + data;
      assert data == [] ==> arrived + data == arrived;
    } else {
      var p := Post(l, r);
      var w := p.buffered + data;
      var o := Deframe(l, p.capacity, w, false, p.shrinkCount);
      var more := DeframeTakesFrames(l, p.capacity, w, false, p.shrinkCount);
      FramedConcat(taken, r.delivered, more, o.delivered, l.maxMessageSize);
      Assoc(taken, r.buffered, data);
      Assoc(taken, more, o.rest);
    }
  }

  /**
   Whatever bytes arrive, in whatever pieces: the delivered commands stand in the stream between their tags,
   in order and apart, and none with a whole header announces more than itself or than the limit.
   */
  lemma {:induction false} RunsDeliverFrames(l: Limits, chunks: seq<seq<byte>>)
    ensures Reads(l, Rounds(l, chunks), Joined(chunks))
    decreases |chunks|
  {
    if chunks == [] {
      assert Framed([], [], l.maxMessageSize) && [] + Fresh(l).buffered == Joined(chunks);
    } else {
      RunsDeliverFrames(l, chunks[..|chunks| - 1]);
      RoundReads(l, Rounds(l, chunks[..|chunks| - 1]), Joined(chunks[..|chunks| - 1]), chunks[|chunks| - 1]);
    }
  }

  /** In particular no command above a finite limit is ever delivered. */
  lemma DeliveredWithinLimit(l: Limits, chunks: seq<seq<byte>>, c: Command)
    requires c in Rounds(l, chunks).delivered && HEADER_SIZE <= |c| && l.maxMessageSize != UINT32_MAX
    ensures ReadUint32LE(c, POSITION_SIZE) <= l.maxMessageSize
  {
    RunsDeliverFrames(l, chunks);
  }

  // ---------------------------------------------------------------------------
  // Too large commands
  // ---------------------------------------------------------------------------

  /** Behind whole commands, a header that announces too much: those are delivered, and the rest is refused. */
  lemma DeframeRefuses(l: Limits, capacity: nat, cs: seq<Command>, bad: seq<byte>, consumed: bool, count: nat)
    requires Admissible(l, cs) && AnnouncesTooMuch(bad, 0, l.maxMessageSize)
    ensures var o := Deframe(l, capacity, Stream(cs) + bad, consumed, count);
            o.verdict == Rejected && o.delivered == cs && o.rest == []
  {
    TooLargeIff(bad, l.maxMessageSize);
    var later := DeframeStream(l, capacity, cs, bad, consumed, count);
    assert cs + [] == cs;
  }

  /** A too large command in a stream: its header, and any piece of it with the header. */
  lemma TooLargePiece(c: Command, n: nat, limit: nat)
    requires WellFormed(c) && limit != UINT32_MAX && |c| - HEADER_SIZE > limit && 13 <= n <= |Frame(c)|
    ensures AnnouncesTooMuch(Frame(c)[..n], 0, limit)
  {
    var w := Frame(c)[..n];
    assert w[9] == c[5] && w[10] == c[6] && w[11] == c[7] && w[12] == c[8];
  }

  /** Up to twelve bytes no limit matters. */
  lemma ShortIgnoresLimit(w: seq<byte>, a: nat, b: nat)
    requires |w| <= 12
    ensures Parse(w, a) == Parse(w, b)
  {
  }

  /** Two receivers that differ in their limits only. */
  predicate SameButLimit(l: Limits, m: Limits) {
    l.initialSize == m.initialSize && l.shrinkThreshold == m.shrinkThreshold
  }

  predicate SameParse(w: seq<byte>, l: Limits, m: Limits) {
    w == [] || (Parse(w, l.maxMessageSize) == Parse(w, m.maxMessageSize) && !Parse(w, l.maxMessageSize).Found?)
  }

  lemma {:induction false} DeframeIgnoresLimit(l: Limits, m: Limits, capacity: nat, cs: seq<Command>, piece: seq<byte>,
                                               consumed: bool, count: nat)
    requires SameButLimit(l, m) && Admissible(l, cs) && Admissible(m, cs) && SameParse(piece, l, m)
    ensures Deframe(l, capacity, Stream(cs) + piece, consumed, count) == Deframe(m, capacity, Stream(cs) + piece, consumed, count)
    decreases |cs|
  {
    if cs == [] {
      assert Stream(cs) + piece == piece;
    } else {
      var next := Stream(cs[1..]) + piece;
      Assoc(Frame(cs[0]), Stream(cs[1..]), piece);
      DeframeWhole(l, capacity, cs[0], next, consumed, count);
      DeframeWhole(m, capacity, cs[0], next, consumed, count);
      DeframeIgnoresLimit(l, m, capacity, cs[1..], piece, true, NextShrinkCount(l, capacity, |Frame(cs[0]) + next|, count));
    }
  }

  /** Commands for the receiver, and behind them one that is too large for it. */
  predicate EndsTooLarge(l: Limits, cs: seq<Command>, c: Command) {
    Admissible(l, cs) && WellFormed(c) && l.maxMessageSize != UINT32_MAX && |c| - HEADER_SIZE > l.maxMessageSize
  }

  function Unlimited(l: Limits): Limits {
    l.(maxMessageSize := UINT32_MAX)
  }

  /** The window of a callback that does not see the whole header of the last command. */
  lemma WindowIgnoresLimit(l: Limits, capacity: nat, cs: seq<Command>, c: Command, q: nat, count: nat)
    requires EndsTooLarge(l, cs, c) && q < |Stream(cs)| + 13 && q <= |Stream(cs + [c])|
    requires Waits(Piece(cs + [c], q), Whole(cs + [c], q) > 0)
    ensures var w := Stream(cs + [c])[..q];
            Deframe(l, capacity, w, false, count) == Deframe(Unlimited(l), capacity, w, false, count)
  {
    var all := cs + [c];
    var k, piece := Whole(all, q), Piece(all, q);
    PrefixSplits(all, q);
    WholeWithin(cs, c, q);
    if piece != [] {
      if k < |cs| {
        assert all[k] == cs[k];
        ParsePiece(cs[k], |piece|, l.maxMessageSize);
        ParsePiece(cs[k], |piece|, UINT32_MAX);
      } else {
        ShortIgnoresLimit(piece, l.maxMessageSize, UINT32_MAX);
        ParsePiece(c, |piece|, UINT32_MAX);
      }
    }
    assert all[..k] == cs[..k];
    DeframeIgnoresLimit(l, Unlimited(l), capacity, cs[..k], piece, false, count);
  }

  /** Fewer than thirteen bytes of the last frame. */
  lemma WholeWithin(cs: seq<Command>, c: Command, q: nat)
    requires WellFormed(c) && q < |Stream(cs)| + 13
    ensures Whole(cs + [c], q) <= |cs| && (Whole(cs + [c], q) == |cs| ==> |Piece(cs + [c], q)| <= 12)
    decreases |cs|
  {
    var all := cs + [c];
    if cs != [] && q >= |Frame(cs[0])| {
      WholeWithin(cs[1..], c, q - |Frame(cs[0])|);
      assert all[0] == cs[0] && all[1..] == cs[1..] + [c];
    }
  }

  /** After `n` bytes of the stream, `data` are the next ones, and reading them stops well. */
  predicate Continues(cs: seq<Command>, c: Command, n: nat, data: seq<byte>) {
    && n + |data| <= |Stream(cs + [c])| && data == Stream(cs + [c])[n..n + |data|]
    && GoodStop(cs + [c], n, n + |data|)
  }

  /** What the callback finds: `q` bytes of the stream of the commands from the `k`-th on. */
  predicate Window(cs: seq<Command>, c: Command, n: nat, data: seq<byte>, k: nat, q: nat) {
    && k == Whole(cs + [c], n) && k <= |cs| && n + |data| == |Stream(cs[..k])| + q && q <= |Stream(cs[k..] + [c])|
    && Piece(cs + [c], n) + data == Stream(cs[k..] + [c])[..q]
    && Waits(Piece(cs[k..] + [c], q), Whole(cs[k..] + [c], q) > 0)
  }

  lemma SplitLast<T>(cs: seq<T>, c: T, k: nat)
    requires k <= |cs|
    ensures (cs + [c])[..k] == cs[..k] && (cs + [c])[k..] == cs[k..] + [c] && cs[..k] + cs[k..] == cs
  {
  }

  lemma StreamSplits(cs: seq<Command>, k: nat)
    requires k <= |cs|
    ensures |Stream(cs)| == |Stream(cs[..k])| + |Stream(cs[k..])|
  {
    assert cs == cs[..k] + cs[k..];
    WholeConcat(cs[..k], cs[k..], 0);
  }

  lemma FindWindow(cs: seq<Command>, c: Command, n: nat, data: seq<byte>) returns (k: nat, q: nat)
    requires WellFormed(c) && n < |Stream(cs)| + 13 && data != [] && Continues(cs, c, n, data)
    ensures Window(cs, c, n, data, k, q)
  {
    k, q := BufferAt(cs + [c], n, data);
    WholeWithin(cs, c, n);
    SplitLast(cs, c, k);
    StopRebased(cs + [c], n, k, q);
  }

  lemma SameRound(l: Limits, m: Limits, r: Reader, data: seq<byte>, w: seq<byte>)
    requires SameButLimit(l, m) && r.buffered + data == w
    requires var p := Post(l, r);
             Deframe(l, p.capacity, w, false, p.shrinkCount) == Deframe(m, p.capacity, w, false, p.shrinkCount)
    ensures Round(l, r, data) == Round(m, r, data)
  {
    var p := Post(l, r);
    assert p == Post(m, r) && p.buffered + data == w;
    var o := Deframe(l, p.capacity, w, false, p.shrinkCount);
    assert Receive(l, p, data).verdict == o.verdict && Receive(l, p, data) == Receive(m, p, data);
  }

  lemma RoundTakes(l: Limits, r: Reader, data: seq<byte>, w: seq<byte>)
    requires r.verdict == Reading && data != [] && r.buffered + data == w
    ensures var p := Post(l, r);
            var o, s := Deframe(l, p.capacity, w, false, p.shrinkCount), Round(l, r, data);
            && s.verdict == o.verdict && s.delivered == r.delivered + o.delivered && s.buffered == o.rest
            && (s.verdict == Rejected ==> s.capacity == l.initialSize)
  {
  }

  /** As long as the header of the last command is not whole, the limit does not matter. */
  lemma RoundIgnoresLimit(l: Limits, cs: seq<Command>, c: Command, n: nat, r: Reader, data: seq<byte>)
    requires EndsTooLarge(l, cs, c) && Continues(cs, c, n, data) && n + |data| < |Stream(cs)| + 13
    requires r.buffered == Piece(cs + [c], n)
    ensures Round(l, r, data) == Round(Unlimited(l), r, data)
  {
    if data != [] {
      var k, q := FindWindow(cs, c, n, data);
      StreamSplits(cs, k);
      AdmissibleRest(l, cs, k);
      WindowIgnoresLimit(l, Post(l, r).capacity, cs[k..], c, q, Post(l, r).shrinkCount);
      SameRound(l, Unlimited(l), r, data, Stream(cs[k..] + [c])[..q]);
    }
  }

  /** The connection is given up, after exactly these commands, and the buffer is empty and small again. */
  predicate Refused(l: Limits, r: Reader, cs: seq<Command>) {
    r.verdict == Rejected && r.delivered == cs && r.buffered == [] && r.capacity == l.initialSize
  }

  lemma LastPiece(cs: seq<Command>, c: Command, q: nat)
    requires |Stream(cs)| <= q <= |Stream(cs + [c])|
    ensures q - |Stream(cs)| <= |Frame(c)| && Stream(cs + [c])[..q] == Stream(cs) + Frame(c)[..q - |Stream(cs)|]
  {
    WholeConcat(cs, [c], 0);
    assert Stream([c]) == Frame(c) + Stream([c][1..]) == Frame(c);
  }

  lemma WindowRefused(l: Limits, capacity: nat, cs: seq<Command>, c: Command, q: nat, count: nat)
    requires EndsTooLarge(l, cs, c) && |Stream(cs)| + 13 <= q <= |Stream(cs + [c])|
    ensures var o := Deframe(l, capacity, Stream(cs + [c])[..q], false, count);
            o.verdict == Rejected && o.delivered == cs && o.rest == []
  {
    var n := q - |Stream(cs)|;
    LastPiece(cs, c, q);
    TooLargePiece(c, n, l.maxMessageSize);
    DeframeRefuses(l, capacity, cs, Frame(c)[..n], false, count);
  }

  /** The callback that completes the header refuses the command. */
  lemma RoundRefuses(l: Limits, cs: seq<Command>, c: Command, n: nat, r: Reader, data: seq<byte>)
    requires EndsTooLarge(l, cs, c) && Continues(cs, c, n, data) && n < |Stream(cs)| + 13 <= n + |data|
    requires Faithful(cs + [c], n, r)
    ensures Refused(l, Round(l, r, data), cs)
  {
    var k, q := FindWindow(cs, c, n, data);
    StreamSplits(cs, k);
    AdmissibleRest(l, cs, k);
    SplitLast(cs, c, k);
    WindowRefused(l, Post(l, r).capacity, cs[k..], c, q, Post(l, r).shrinkCount);
    RoundTakes(l, r, data, Stream(cs[k..] + [c])[..q]);
  }

  /** A run over such a stream whose reads stop well. */
  predicate RunsTooLarge(l: Limits, cs: seq<Command>, c: Command, chunks: seq<seq<byte>>) {
    EndsTooLarge(l, cs, c) && Joined(chunks) <= Stream(cs + [c]) && AllGoodStops(cs + [c], chunks)
  }

  lemma ChunkContinues(l: Limits, cs: seq<Command>, c: Command, chunks: seq<seq<byte>>, i: nat)
    requires RunsTooLarge(l, cs, c, chunks) && i < |chunks|
    ensures Read(chunks, i + 1) == Read(chunks, i) + |chunks[i]| && Continues(cs, c, Read(chunks, i), chunks[i])
  {
    var all := cs + [c];
    ReadSlice(l, all, chunks, i);
    assert GoodStop(all, Read(chunks, i), Read(chunks, i + 1));
  }

  /** Without a limit the receiver stays faithful. */
  lemma UnlimitedFaithful(l: Limits, cs: seq<Command>, c: Command, chunks: seq<seq<byte>>, i: nat)
    requires RunsTooLarge(l, cs, c, chunks) && i <= |chunks|
    ensures Faithful(cs + [c], Read(chunks, i), Rounds(Unlimited(l), chunks[..i]))
  {
    GoodStopsFaithful(Unlimited(l), cs + [c], chunks, i);
  }

  /** The receiver has done the same as one without a limit. */
  predicate SameSoFar(l: Limits, chunks: seq<seq<byte>>, i: nat) {
    i <= |chunks| && Rounds(l, chunks[..i]) == Rounds(Unlimited(l), chunks[..i])
  }

  lemma StepIgnoresLimit(l: Limits, cs: seq<Command>, c: Command, chunks: seq<seq<byte>>, i: nat)
    requires RunsTooLarge(l, cs, c, chunks) && i < |chunks| && SameSoFar(l, chunks, i)
    requires Read(chunks, i) + |chunks[i]| < |Stream(cs)| + 13
    ensures SameSoFar(l, chunks, i + 1)
  {
    UnlimitedFaithful(l, cs, c, chunks, i);
    ChunkContinues(l, cs, c, chunks, i);
    RoundIgnoresLimit(l, cs, c, Read(chunks, i), Rounds(l, chunks[..i]), chunks[i]);
    ReadMore(l, chunks, i);
    ReadMore(Unlimited(l), chunks, i);
  }

  lemma {:induction false} SameRounds(l: Limits, cs: seq<Command>, c: Command, chunks: seq<seq<byte>>, i: nat)
    requires RunsTooLarge(l, cs, c, chunks) && i <= |chunks| && Read(chunks, i) < |Stream(cs)| + 13
    ensures SameSoFar(l, chunks, i)
    decreases i
  {
    if i == 0 {
      assert chunks[..0] == [];
    } else {
      ChunkContinues(l, cs, c, chunks, i - 1);
      SameRounds(l, cs, c, chunks, i - 1);
      StepIgnoresLimit(l, cs, c, chunks, i - 1);
    }
  }

  predicate RefusedAt(l: Limits, cs: seq<Command>, chunks: seq<seq<byte>>, i: nat) {
    i <= |chunks| && Refused(l, Rounds(l, chunks[..i]), cs)
  }

  lemma StepRefuses(l: Limits, cs: seq<Command>, c: Command, chunks: seq<seq<byte>>, i: nat)
    requires RunsTooLarge(l, cs, c, chunks) && i < |chunks|
    requires Read(chunks, i) < |Stream(cs)| + 13 <= Read(chunks, i + 1)
    ensures RefusedAt(l, cs, chunks, i + 1)
  {
    SameRounds(l, cs, c, chunks, i);
    UnlimitedFaithful(l, cs, c, chunks, i);
    ChunkContinues(l, cs, c, chunks, i);
    RoundRefuses(l, cs, c, Read(chunks, i), Rounds(l, chunks[..i]), chunks[i]);
    ReadMore(l, chunks, i);
  }

  lemma StepStaysRefused(l: Limits, cs: seq<Command>, chunks: seq<seq<byte>>, i: nat)
    requires i < |chunks| && RefusedAt(l, cs, chunks, i)
    ensures RefusedAt(l, cs, chunks, i + 1)
  {
    ReadMore(l, chunks, i);
  }

  lemma {:induction false} StaysRefused(l: Limits, cs: seq<Command>, c: Command, chunks: seq<seq<byte>>, i: nat)
    requires RunsTooLarge(l, cs, c, chunks) && 0 < i <= |chunks| && Read(chunks, i) >= |Stream(cs)| + 13
    ensures RefusedAt(l, cs, chunks, i)
    decreases i
  {
    if Read(chunks, i - 1) < |Stream(cs)| + 13 {
      StepRefuses(l, cs, c, chunks, i - 1);
    } else {
      NothingRead(chunks);
      StaysRefused(l, cs, c, chunks, i - 1);
      StepStaysRefused(l, cs, chunks, i - 1);
    }
  }

  lemma NothingRead(chunks: seq<seq<byte>>)
    ensures Read(chunks, 0) == 0
  {
    assert chunks[..0] == [];
  }

  /**
   Over every good way to cut a stream that ends with a command above a finite limit: until its header is
   whole everything is as if there were no limit, and from then on the connection is given up, with
   exactly the commands before it delivered.
   */
  lemma TooLargeEndsRun(l: Limits, cs: seq<Command>, c: Command, chunks: seq<seq<byte>>)
    requires RunsTooLarge(l, cs, c, chunks)
    ensures var n, r := |Joined(chunks)|, Rounds(l, chunks);
            if n < |Stream(cs)| + 13 then Faithful(cs + [c], n, r) else Refused(l, r, cs)
  {
    assert chunks[..|chunks|] == chunks;
    NothingRead(chunks);
    if |Joined(chunks)| < |Stream(cs)| + 13 {
      SameRounds(l, cs, c, chunks, |chunks|);
      UnlimitedFaithful(l, cs, c, chunks, |chunks|);
    } else {
      StaysRefused(l, cs, c, chunks, |chunks|);
    }
  }
}
