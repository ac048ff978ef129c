/**
 The receiving end of a local TCP connection, working in place on its receive buffer.
 */
module Connections {
  import opened Bytes
  import opened Framing

  /** `o` is the outcome of a callback that has delivered `got` so far and has `w` before it. */
  ghost predicate Pending(l: Limits, capacity: nat, o: Outcome, got: seq<Command>, w: seq<byte>, consumed: bool, count: nat) {
    var rest := Deframe(l, capacity, w, consumed, count);
    o == rest.(delivered := got + rest.delivered)
  }

  lemma PendingFound(l: Limits, capacity: nat, o: Outcome, got: seq<Command>, w: seq<byte>, consumed: bool, count: nat, p: Parsed)
    requires w != [] && p == Parse(w, l.maxMessageSize) && p.Found?
    requires Pending(l, capacity, o, got, w, consumed, count)
    ensures 4 <= p.start <= p.end && p.end + 4 <= |w|
    ensures Pending(l, capacity, o, got + [w[p.start..p.end]], w[p.end + 4..], true, NextShrinkCount(l, capacity, |w|, count))
  {
    FoundInside(w, l.maxMessageSize);
    var later := Deframe(l, capacity, w[p.end + 4..], true, NextShrinkCount(l, capacity, |w|, count));
    assert got + ([w[p.start..p.end]] + later.delivered) == (got + [w[p.start..p.end]]) + later.delivered;
  }

  lemma Subslice<T>(s: seq<T>, a: nat, b: nat, i: nat, j: nat)
    requires a <= b <= |s| && i <= j <= b - a
    ensures s[a..b][i..j] == s[a + i..a + j]
  {
    assert forall k | 0 <= k < j - i :: s[a..b][i..j][k] == s[a..b][i + k] == s[a + i + k];
  }

  class Connection {
    const limits: Limits
    var buffer: array<byte>
    var size: nat
    var missing: nat
    var shrinkCount: nat
    var delivered: seq<Command>
    var verdict: Verdict

    ghost predicate Valid()
      reads this
    {
      verdict != Rejected ==> size <= buffer.Length
    }

    ghost function Model(): Reader
      requires Valid()
      reads this, buffer
    {
      Reader(if verdict == Rejected then [] else buffer[..size], buffer.Length, missing, shrinkCount, delivered, verdict)
    }

    constructor (limits: Limits)
      ensures Valid() && fresh(buffer) && this.limits == limits
      ensures Model() == Fresh(limits)
    {
      this.limits := limits;
      buffer := new byte[limits.initialSize](_ => 0);
      size, missing, shrinkCount, delivered, verdict := 0, 0, 0, [], Reading;
    }

    method Grow(capacity: nat)
      requires Valid() && size <= buffer.Length <= capacity
      modifies this`buffer
      ensures fresh(buffer) && buffer.Length == capacity && buffer[..size] == old(buffer[..size])
    {
      var larger := new byte[capacity](_ => 0);
      forall i | 0 <= i < buffer.Length {
        larger[i] := buffer[i];
      }
      assert larger[..size] == buffer[..size];
      buffer := larger;
    }

    /** Prepares the buffer and posts the next read of `left` bytes. */
    method Start() returns (left: int)
      requires Valid() && verdict == Reading
      modifies this`buffer, this`missing, this`shrinkCount
      ensures Valid() && (buffer == old(buffer) || fresh(buffer))
      ensures Model() == Post(limits, old(Model())) && left == ReadSize(limits, old(Model()))
    {
      left := buffer.Length - size;
      if missing != 0 {
        if buffer.Length < size + missing {
          Grow(size + missing);
        }
        left, missing := missing, 0;
      } else if limits.shrinkThreshold != 0 && shrinkCount > limits.shrinkThreshold && size == 0 {
        buffer := new byte[limits.initialSize](_ => 0);
        left, shrinkCount := limits.initialSize, 0;
        assert buffer[..size] == [];
      }
    }

    /** Looks for a tag in the window of `n` bytes behind `gap`, from `at` bytes on. */
    method FindTag(gap: nat, n: nat, tag: seq<byte>, at: nat) returns (i: nat)
      requires gap + n <= buffer.Length && |tag| == TAG_SIZE
      ensures i == Scan(buffer[gap..gap + n], tag, at)
    {
      ghost var w := buffer[gap..gap + n];
      i := at;
      while i + 3 < n && (buffer[gap + i] != tag[0] || buffer[gap + i + 1] != tag[1]
                          || buffer[gap + i + 2] != tag[2] || buffer[gap + i + 3] != tag[3])
        invariant Scan(w, tag, at) == Scan(w, tag, i)
        decreases n - i
      {
        i := i + 1;
      }
    }

    /** The payload size announced behind `start`, as far as it has arrived. */
    method ReadSizeField(gap: nat, n: nat, start: nat) returns (announced: nat)
      requires gap + n <= buffer.Length
      ensures announced == AnnouncedSize(buffer[gap..gap + n], start)
    {
      announced := 0;
      if start + POSITION_SIZE + 3 < n {
        var at := gap + start + POSITION_SIZE;
        announced := ReadUint32LE([buffer[at], buffer[at + 1], buffer[at + 2], buffer[at + 3]], 0);
      }
    }

    /** Looks for the end of the command behind `start`. */
    method ParseEnd(gap: nat, n: nat, start: nat, announced: nat) returns (p: Parsed)
      requires gap + n <= buffer.Length && announced == AnnouncedSize(buffer[gap..gap + n], start)
      ensures var w := buffer[gap..gap + n];
              var end := Scan(w, END_TAG, EndScanStart(w, start));
              p == if end + 3 < n then Found(start, end) else Missing(w, start)
    {
      var end := if start + POSITION_SIZE + 3 < n then start + POSITION_SIZE + 3 + announced else start;
      end := FindTag(gap, n, END_TAG, end);
      if end + 3 < n {
        return Found(start, end);
      }
      var needed := start + announced + HEADER_SIZE + TAG_SIZE;
      return if needed > n then Incomplete((needed - n) % (UINT32_MAX + 1)) else Malformed;
    }

    method ParseWindow(gap: nat, n: nat) returns (p: Parsed)
      requires gap + n <= buffer.Length
      ensures p == Parse(buffer[gap..gap + n], limits.maxMessageSize)
    {
      var first := FindTag(gap, n, START_TAG, 0);
      if first + 3 == n {
        return NoStart;
      }
      var announced := ReadSizeField(gap, n, first + 4);
      if announced != 0 && limits.maxMessageSize != UINT32_MAX && announced > limits.maxMessageSize {
        return TooLarge;
      }
      p := ParseEnd(gap, n, first + 4, announced);
    }

    /** Moves the `n` bytes behind `gap` to the front of the buffer. */
    method ShiftToFront(gap: nat, n: nat)
      requires gap + n <= buffer.Length
      modifies buffer
      ensures buffer[..n] == old(buffer[gap..gap + n])
    {
      var i := 0;
      while i < n
        invariant i <= n
        invariant forall j | 0 <= j < i :: buffer[j] == old(buffer[gap + j])
        invariant forall j | i <= j < buffer.Length :: buffer[j] == old(buffer[j])
      {
        buffer[i] := buffer[i + gap];
        i := i + 1;
      }
    }

    /** The bytes of the posted read are in place. */
    method Fill(data: seq<byte>)
      requires size + |data| <= buffer.Length
      modifies buffer, this`size
      ensures size == old(size) + |data| && buffer[..size] == old(buffer[..size]) + data
    {
      forall i | 0 <= i < |data| {
        buffer[size + i] := data[i];
      }
      assert buffer[..size] == old(buffer[..size]);
      assert buffer[size..size + |data|] == data;
      size := size + |data|;
    }

    /** What the fields say of the outcome `o` of a callback that started with `before` delivered. */
    ghost predicate Shows(o: Outcome, before: seq<Command>)
      reads this, buffer
    {
      && Valid()
      && delivered == before + o.delivered
      && verdict == o.verdict && missing == o.missing && shrinkCount == o.shrinkCount
      && (if verdict == Rejected then buffer.Length == limits.initialSize && o.rest == [] else buffer[..size] == o.rest)
    }

    /** Hands over the command between `start` and `end` of the window and steps behind its end tag. */
    method Deliver(gap: nat, start: nat, end: nat, ghost w: seq<byte>) returns (next: nat)
      requires gap + size <= buffer.Length && w == buffer[gap..gap + size]
      requires start <= end && end + 4 <= |w|
      modifies this`delivered, this`shrinkCount, this`size
      ensures next == gap + end + 4 && next + size == gap + |w|
      ensures delivered == old(delivered) + [w[start..end]]
      ensures shrinkCount == NextShrinkCount(limits, buffer.Length, |w|, old(shrinkCount))
      ensures buffer[next..next + size] == w[end + 4..]
    {
      Subslice(buffer[..], gap, gap + size, start, end);
      Subslice(buffer[..], gap, gap + size, end + 4, size);
      delivered := delivered + [buffer[gap + start..gap + end]];
      if limits.shrinkThreshold != 0 && buffer.Length != limits.initialSize {
        shrinkCount := if size < buffer.Length / 2 then shrinkCount + 1 else 0;
      }
      size := size - (end + 4);
      next := gap + end + 4;
    }

    /** One round of the loop that found a command. */
    method DeliverNext(gap: nat, p: Parsed, ghost w: seq<byte>, ghost o: Outcome, ghost got: seq<Command>)
      returns (next: nat, ghost left: seq<byte>, ghost more: seq<Command>)
      requires gap + size <= buffer.Length && w == buffer[gap..gap + size] && 0 < size
      requires p == Parse(w, limits.maxMessageSize) && p.Found?
      requires Pending(limits, buffer.Length, o, got, w, gap > 0, shrinkCount)
      modifies this`delivered, this`shrinkCount, this`size
      ensures next > 0 && size < old(size) && next + size <= buffer.Length && left == buffer[next..next + size]
      ensures exists command :: delivered == old(delivered) + [command] && more == got + [command]
      ensures Pending(limits, buffer.Length, o, more, left, true, shrinkCount)
    {
      PendingFound(limits, buffer.Length, o, got, w, gap > 0, shrinkCount, p);
      next := Deliver(gap, p.start, p.end, w);
      left, more := w[p.end + 4..], got + [w[p.start..p.end]];
    }

    /** No command was found: keep what may become one, or give up. */
    method Finish(gap: nat, p: Parsed, ghost w: seq<byte>)
      requires 0 < size && gap + size <= buffer.Length && verdict == Reading && missing == 0
      requires w == buffer[gap..gap + size] && p == Parse(w, limits.maxMessageSize) && !p.Found?
      modifies this`buffer, this`size, this`missing, this`verdict, buffer
      ensures Shows(Deframe(limits, old(buffer.Length), w, gap > 0, shrinkCount), delivered)
      ensures buffer.Length == old(buffer.Length) || verdict == Rejected
      ensures buffer == old(buffer) || fresh(buffer)
    {
      if p.TooLarge? {
        buffer := new byte[limits.initialSize](_ => 0);
        verdict := Rejected;
        return;
      }
      if p.Malformed? {
        size, verdict := 0, Garbage;
        return;
      }
      if p.Incomplete? {
        missing := p.missing;
      }
      if gap > 0 {
        ShiftToFront(gap, size);
        if missing != 0 && missing <= buffer.Length - size {
          missing := 0;
        }
      } else if p.NoStart? {
        verdict := Garbage;
      }
    }

    /** The last round of the loop. */
    method FinishNext(gap: nat, p: Parsed, ghost w: seq<byte>, ghost o: Outcome, ghost got: seq<Command>, ghost before: seq<Command>)
      requires 0 < size && gap + size <= buffer.Length && verdict == Reading && missing == 0
      requires w == buffer[gap..gap + size] && p == Parse(w, limits.maxMessageSize) && !p.Found?
      requires Pending(limits, buffer.Length, o, got, w, gap > 0, shrinkCount) && delivered == before + got
      modifies this`buffer, this`size, this`missing, this`verdict, buffer
      ensures Shows(o, before)
      ensures buffer.Length == old(buffer.Length) || verdict == Rejected
      ensures buffer == old(buffer) || fresh(buffer)
    {
      Finish(gap, p, w);
    }

    /** Delivers every whole command in the buffer and keeps the rest. */
    method Drain(ghost o: Outcome)
      requires verdict == Reading && missing == 0 && size <= buffer.Length
      requires o == Deframe(limits, buffer.Length, buffer[..size], false, shrinkCount)
      modifies this, buffer
      ensures Shows(o, old(delivered))
      ensures buffer.Length == old(buffer.Length) || verdict == Rejected
      ensures buffer == old(buffer) || fresh(buffer)
    {
      var gap: nat := 0;
      ghost var w, got: seq<Command> := buffer[..size], [];
      while size > 0
        invariant buffer == old(buffer) && verdict == Reading && missing == 0
        invariant gap + size <= buffer.Length && w == buffer[gap..gap + size]
        invariant delivered == old(delivered) + got
        invariant Pending(limits, buffer.Length, o, got, w, gap > 0, shrinkCount)
        decreases size
      {
        var p := ParseWindow(gap, size);
        if !p.Found? {
          FinishNext(gap, p, w, o, got, old(delivered));
          return;
        }
        gap, w, got := DeliverNext(gap, p, w, o, got);
      }
    }

    /** A read has completed with `data`. */
    method ReceiveCbk(data: seq<byte>)
      requires Valid() && verdict == Reading && missing == 0
      requires size + |data| <= buffer.Length
      modifies this, buffer
      ensures Valid() && (buffer == old(buffer) || fresh(buffer))
      ensures Model() == Callback(limits, old(Model()), data)
    {
      if data == [] {
        return;
      }
      Fill(data);
      ghost var o := Deframe(limits, buffer.Length, buffer[..size], false, shrinkCount);
      Drain(o);
    }
  }
}
