/**
 Local TCP framing: a command travels between a start tag and an end tag and carries its own
 payload size. This module models how the receiver finds commands in the bytes it has buffered,
 and proves when that recovers what was sent.
 */
module Framing {
  import opened Bytes

  const START_TAG: seq<byte> := [0x67, 0x37, 0x6D, 0x07]
  const END_TAG: seq<byte> := [0x07, 0x6D, 0x37, 0x67]

  const TAG_SIZE: nat := 4
  const HEADER_SIZE: nat := 9    // id, version (2), client (2), payload size (4)
  const POSITION_SIZE: nat := 5  // of the payload size within the header

  type Command = seq<byte>

  /** A command whose header announces the payload that follows; its size fits 32 bits. */
  predicate WellFormed(c: Command) {
    HEADER_SIZE <= |c| <= UINT32_MAX && ReadUint32LE(c, POSITION_SIZE) == |c| - HEADER_SIZE
  }

  function Frame(c: Command): seq<byte> {
    START_TAG + c + END_TAG
  }

  function Stream(cs: seq<Command>): seq<byte> {
    if cs == [] then [] else Frame(cs[0]) + Stream(cs[1..])
  }

  // ---------------------------------------------------------------------------
  // Finding one command
  // ---------------------------------------------------------------------------

  predicate TagAt(w: seq<byte>, i: nat, tag: seq<byte>)
    requires |tag| == TAG_SIZE && i + 3 < |w|
  {
    w[i] == tag[0] && w[i + 1] == tag[1] && w[i + 2] == tag[2] && w[i + 3] == tag[3]
  }

  /** Scans from `i` for a tag; stops where a whole tag no longer fits. */
  function Scan(w: seq<byte>, tag: seq<byte>, i: nat): (r: nat)
    requires |tag| == TAG_SIZE
    ensures i <= r
    decreases |w| - i
  {
    if i + 3 < |w| && !TagAt(w, i, tag) then Scan(w, tag, i + 1) else i
  }

  datatype Parsed =
    | Found(start: nat, end: nat)
    | Incomplete(missing: nat)
    | NoStart
    | Malformed
    | TooLarge

  /** The payload size, as far as the header has arrived. */
  function AnnouncedSize(w: seq<byte>, start: nat): nat {
    if start + POSITION_SIZE + 3 < |w| then ReadUint32LE(w, start + POSITION_SIZE) else 0
  }

  /** Where the scan for the end tag begins: one byte early, or inside the header if that is incomplete. */
  function EndScanStart(w: seq<byte>, start: nat): nat {
    if start + POSITION_SIZE + 3 < |w| then start + POSITION_SIZE + 3 + AnnouncedSize(w, start) else start
  }

  /** How many bytes are missing, kept in 32 bits. `start` lies behind a tag, so a buffer without
      missing bytes is never shorter than a header and a tag. */
  function Missing(w: seq<byte>, start: nat): Parsed {
    var needed := start + AnnouncedSize(w, start) + HEADER_SIZE + TAG_SIZE;
    if needed > |w| then Incomplete((needed - |w|) % (UINT32_MAX + 1)) else Malformed
  }

  /** One round of the receiver over the bytes it has not consumed yet. */
  function Parse(w: seq<byte>, maxMessageSize: nat): Parsed {
    var first := Scan(w, START_TAG, 0);
    if first + 3 == |w| then NoStart else
    var start := first + 4;
    var size := AnnouncedSize(w, start);
    if size != 0 && maxMessageSize != UINT32_MAX && size > maxMessageSize then TooLarge else
    var end := Scan(w, END_TAG, EndScanStart(w, start));
    if end + 3 < |w| then Found(start, end) else Missing(w, start)
  }

  // ---------------------------------------------------------------------------
  // All commands in a buffer
  // ---------------------------------------------------------------------------

  datatype Limits = Limits(initialSize: nat, maxMessageSize: nat, shrinkThreshold: nat)

  /** `Reading` goes on, `Garbage` closes the connection, `Rejected` drops the buffer and never reads again. */
  datatype Verdict = Reading | Garbage | Rejected

  datatype Outcome = Outcome(
    delivered: seq<Command>,
    rest: seq<byte>,
    missing: nat,
    shrinkCount: nat,
    verdict: Verdict)

  function NextShrinkCount(l: Limits, capacity: nat, size: nat, count: nat): nat {
    if l.shrinkThreshold == 0 || capacity == l.initialSize then count
    else if size < capacity / 2 then count + 1
    else 0
  }

  lemma {:induction false} ScanStops(w: seq<byte>, tag: seq<byte>, i: nat)
    requires |tag| == TAG_SIZE
    ensures var r := Scan(w, tag, i);
            && (r + 3 < |w| ==> TagAt(w, r, tag))
            && (i + 3 >= |w| ==> r == i)
            && (i + 3 < |w| ==> r + 3 <= |w|)
            && forall j :: i <= j < r && j + 3 < |w| ==> !TagAt(w, j, tag)
    decreases |w| - i
  {
    if i + 3 < |w| && !TagAt(w, i, tag) {
      ScanStops(w, tag, i + 1);
    }
  }

  /** A command lies behind its start tag and before its end tag, within the buffer. */
  lemma FoundInside(w: seq<byte>, maxMessageSize: nat)
    ensures var p := Parse(w, maxMessageSize);
            p.Found? ==> 4 <= p.start <= p.end && p.end + 4 <= |w|
  {
  }

  /** The receiver's loop: `consumed` tells whether earlier rounds consumed bytes of this buffer. */
  function Deframe(l: Limits, capacity: nat, w: seq<byte>, consumed: bool, shrinkCount: nat): (r: Outcome)
    decreases |w|
  {
    if w == [] then Outcome([], [], 0, shrinkCount, Reading) else
    match Parse(w, l.maxMessageSize)
    case Found(start, end) =>
      FoundInside(w, l.maxMessageSize);
      var count := NextShrinkCount(l, capacity, |w|, shrinkCount);
      var later := Deframe(l, capacity, w[end + 4..], true, count);
      later.(delivered := [w[start..end]] + later.delivered)
    case Incomplete(missing) =>
      var fits := consumed && |w| + missing <= capacity;
      Outcome([], w, if fits then 0 else missing, shrinkCount, Reading)
    case NoStart => Outcome([], w, 0, shrinkCount, if consumed then Reading else Garbage)
    case Malformed => Outcome([], [], 0, shrinkCount, Garbage)
    case TooLarge => Outcome([], [], 0, shrinkCount, Rejected)
  }

  // ---------------------------------------------------------------------------
  // The receiver between two callbacks
  // ---------------------------------------------------------------------------

  datatype Reader = Reader(
    buffered: seq<byte>,
    capacity: nat,
    missing: nat,
    shrinkCount: nat,
    delivered: seq<Command>,
    verdict: Verdict)

  function Fresh(l: Limits): Reader {
    Reader([], l.initialSize, 0, 0, [], Reading)
  }

  /** The buffer is grown, or shrunk to its initial size, before the next read is posted. */
  function Post(l: Limits, r: Reader): Reader {
    if r.missing != 0 then
      r.(capacity := Max(r.capacity, |r.buffered| + r.missing), missing := 0)
    else if l.shrinkThreshold != 0 && r.shrinkCount > l.shrinkThreshold && r.buffered == [] then
      r.(capacity := l.initialSize, shrinkCount := 0)
    else r
  }

  /** The size of the read that is posted. */
  function ReadSize(l: Limits, r: Reader): int {
    if r.missing != 0 then r.missing else Post(l, r).capacity - |r.buffered|
  }

  function Receive(l: Limits, r: Reader, data: seq<byte>): Reader {
    var o := Deframe(l, r.capacity, r.buffered + data, false, r.shrinkCount);
    Reader(o.rest, if o.verdict.Rejected? then l.initialSize else r.capacity,
           o.missing, o.shrinkCount, r.delivered + o.delivered, o.verdict)
  }

  /** The callback of a read; one that brings nothing changes nothing. */
  function Callback(l: Limits, r: Reader, data: seq<byte>): Reader {
    if data == [] then r else Receive(l, r, data)
  }

  /** One read: posted, then completed with `data`. */
  function Round(l: Limits, r: Reader, data: seq<byte>): Reader {
    if r.verdict.Reading? then Callback(l, Post(l, r), data) else r
  }

  function Rounds(l: Limits, chunks: seq<seq<byte>>): Reader {
    if chunks == [] then Fresh(l)
    else Round(l, Rounds(l, chunks[..|chunks| - 1]), chunks[|chunks| - 1])
  }

  function Joined(chunks: seq<seq<byte>>): seq<byte> {
    if chunks == [] then [] else Joined(chunks[..|chunks| - 1]) + chunks[|chunks| - 1]
  }
}
