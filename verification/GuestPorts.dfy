/**
 Server ports for local clients: the configured ranges are cut to whole port pairs that fit the
 parity of the routing host's port, and a client listens on the first port of a free pair.
 */
module GuestPorts {
  import opened ClientPorts
  import opened Wrappers

  datatype Range = Range(first: Port, last: Port)

  /** The ranges the configuration loads: non-zero ports, in order. */
  predicate Loaded(r: Range) {
    0 < r.first <= r.last
  }

  predicate IsEven(r: Range) {
    (r.last - r.first + 1) % 2 == 0
  }

  predicate IsMatching(host: Port, r: Range) {
    r.first % 2 == host % 2
  }

  /** The range reduced to whole pairs, with 16-bit arithmetic. */
  function Corrected(host: Port, r: Range): Range
    requires Loaded(r)
  {
    if !IsMatching(host, r) then Range(Next(r.first), if IsEven(r) then r.last - 1 else r.last)
    else if !IsEven(r) then Range(r.first, r.last - 1)
    else r
  }

  /** Starts with the parity of the host and consists of whole pairs; may be empty. */
  predicate Paired(host: Port, r: Range) {
    IsMatching(host, r) && IsEven(r) && r.first <= r.last + 1
  }

  predicate Within(inner: Range, outer: Range) {
    inner.last < inner.first || (outer.first <= inner.first && inner.last <= outer.last)
  }

  /** The largest paired range within `r`. */
  ghost predicate BestPaired(host: Port, r: Range, c: Range) {
    Paired(host, c) && Within(c, r) && forall d: Range | Paired(host, d) && Within(d, r) :: Within(d, c)
  }

  /** The correction yields the largest paired part of a range, unless it wraps around at the last port. */
  lemma CorrectedIff(host: Port, r: Range)
    requires Loaded(r)
    ensures BestPaired(host, r, Corrected(host, r)) <==> !(r.first == 0xFFFF && host % 2 == 0)
  {
    var c := Corrected(host, r);
    if r.first == 0xFFFF && host % 2 == 0 {
      assert !Within(c, r);
    } else {
      forall d: Range | Paired(host, d) && Within(d, r)
        ensures Within(d, c)
      {
      }
    }
  }

  /** Replaces each range that is not paired. */
  method CorrectRanges(host: Port, ranges: set<Range>) returns (r: set<Range>)
    requires forall x <- ranges :: Loaded(x)
    ensures r == set x | x in ranges :: Corrected(host, x)
  {
    var invalid: set<Range>, corrected: set<Range> := {}, {};
    var todo := ranges;
    while todo != {}
      invariant todo <= ranges && invalid <= ranges
      invariant forall x <- ranges :: x !in todo ==> (x in invalid <==> !(IsMatching(host, x) && IsEven(x)))
      invariant forall x <- invalid :: !(IsMatching(host, x) && IsEven(x))
      invariant corrected == set x | x in invalid :: Corrected(host, x)
    {
      var x :| x in todo;
      if !IsEven(x) || !IsMatching(host, x) {
        invalid, corrected := invalid + {x}, corrected + {Corrected(host, x)};
      }
      todo := todo - {x};
    }
    r := ranges - invalid + corrected;
    assert forall x <- ranges - invalid :: Corrected(host, x) == x;
  }

  // ---------------------------------------------------------------------------
  // The search for a server port
  // ---------------------------------------------------------------------------

  function FirstInRange(r: Range, p: nat, host: Port, used: set<Port>): Option<Port>
    decreases r.last - p
  {
    if p >= r.last then None
    else if p !in used && p != host then Some(p)
    else FirstInRange(r, p + 2, host, used)
  }

  function FirstPort(rs: seq<Range>, i: nat, host: Port, used: set<Port>): Option<Port>
    requires i <= |rs|
    decreases |rs| - i
  {
    if i == |rs| then None else
    var found := FirstInRange(rs[i], rs[i].first, host, used);
    if found.Some? then found else FirstPort(rs, i + 1, host, used)
  }

  /** The first port of a pair that lies within a range. */
  predicate PairIn(r: Range, p: Port) {
    r.first <= p < r.last && (p - r.first) % 2 == 0
  }

  predicate Candidate(rs: seq<Range>, host: Port, used: set<Port>, p: Port) {
    p !in used && p != host && exists r <- rs :: PairIn(r, p)
  }

  lemma {:induction false} FirstInRangeIff(r: Range, p: nat, host: Port, used: set<Port>)
    requires r.first <= p && (p - r.first) % 2 == 0
    ensures match FirstInRange(r, p, host, used)
            case Some(q) => && p <= q && PairIn(r, q) && q !in used && q != host
                            && forall x: Port | p <= x < q && PairIn(r, x) :: x in used || x == host
            case None => forall q: Port | p <= q && PairIn(r, q) :: q in used || q == host
    decreases r.last - p
  {
    if p < r.last && (p in used || p == host) {
      FirstInRangeIff(r, p + 2, host, used);
    }
  }

  /** The lowest candidate of the first range that has one. */
  predicate IsFirstCandidate(rs: seq<Range>, i: nat, host: Port, used: set<Port>, p: Port) {
    p !in used && p != host && exists k | i <= k < |rs| ::
      && PairIn(rs[k], p) && (forall x: Port | x < p && PairIn(rs[k], x) :: x in used || x == host)
      && forall j, x: Port | i <= j < k && PairIn(rs[j], x) :: x in used || x == host
  }

  lemma CandidateFirst(rs: seq<Range>, i: nat, host: Port, used: set<Port>, p: Port)
    requires i < |rs|
    ensures Candidate(rs[i..], host, used, p)
            <==> (p !in used && p != host && PairIn(rs[i], p)) || Candidate(rs[i + 1..], host, used, p)
  {
    assert rs[i..] == [rs[i]] + rs[i + 1..];
    assert forall r :: r in rs[i..] <==> r == rs[i] || r in rs[i + 1..];
  }

  /** A port is found exactly if there is a candidate, and it is one. */
  lemma {:induction false} FirstPortIff(rs: seq<Range>, i: nat, host: Port, used: set<Port>)
    requires i <= |rs|
    ensures match FirstPort(rs, i, host, used)
            case Some(p) => Candidate(rs[i..], host, used, p)
            case None => forall p :: !Candidate(rs[i..], host, used, p)
    decreases |rs| - i
  {
    if i < |rs| {
      FirstInRangeIff(rs[i], rs[i].first, host, used);
      FirstPortIff(rs, i + 1, host, used);
      forall p: Port
        ensures Candidate(rs[i..], host, used, p)
                <==> (p !in used && p != host && PairIn(rs[i], p)) || Candidate(rs[i + 1..], host, used, p)
      {
        CandidateFirst(rs, i, host, used, p);
      }
    }
  }

  /** The search tries the ranges in order, and the pairs of each in order. */
  lemma {:induction false} FirstPortInOrder(rs: seq<Range>, i: nat, host: Port, used: set<Port>)
    requires i <= |rs|
    ensures match FirstPort(rs, i, host, used)
            case Some(p) => IsFirstCandidate(rs, i, host, used, p)
            case None => true
    decreases |rs| - i
  {
    if i < |rs| {
      FirstInRangeIff(rs[i], rs[i].first, host, used);
      var found := FirstInRange(rs[i], rs[i].first, host, used);
      if found.None? {
        FirstPortInOrder(rs, i + 1, host, used);
      } else {
        assert PairIn(rs[i], found.value);
      }
    }
  }

  lemma SameParity(host: Port, r: Range, p: Port)
    requires Paired(host, r) && PairIn(r, p)
    ensures p % 2 == host % 2
  {
  }

  lemma PairsApart(p: int, q: int)
    requires p % 2 == q % 2 && p != q
    ensures {p, p + 1} !! {q, q + 1}
  {
  }

  /**
   With paired ranges, the pairs of different candidates, and the pair of the host, have no port in
   common, and each pair lies within its range.
   */
  lemma PairsAreDisjoint(rs: seq<Range>, host: Port, used: set<Port>, p: Port, q: Port)
    requires (forall r <- rs :: Paired(host, r)) && Candidate(rs, host, used, p)
    requires Candidate(rs, host, {}, q) || q == host
    ensures p != q ==> {p, p + 1} !! {q, q + 1}
    ensures exists r <- rs :: r.first <= p && p + 1 <= r.last
  {
    var r :| r in rs && PairIn(r, p);
    SameParity(host, r, p);
    if q != host {
      var s :| s in rs && PairIn(s, q);
      SameParity(host, s, q);
    }
    if p != q {
      PairsApart(p, q);
    }
  }

  function CorrectedAll(host: Port, rs: seq<Range>): seq<Range>
    requires forall r <- rs :: Loaded(r)
  {
    seq(|rs|, i requires 0 <= i < |rs| => Corrected(host, rs[i]))
  }

  /**
   The whole way from the loaded ranges, of which the correction wraps none around: every pair a client
   can get lies within a loaded range, and shares no port with another client's pair or the host's.
   */
  lemma GuestPairsAreSafe(rs: seq<Range>, host: Port, used: set<Port>, p: Port, q: Port)
    requires forall r <- rs :: Loaded(r) && !(r.first == 0xFFFF && host % 2 == 0)
    requires Candidate(CorrectedAll(host, rs), host, used, p)
    requires Candidate(CorrectedAll(host, rs), host, {}, q) || q == host
    ensures exists r <- rs :: r.first <= p && p + 1 <= r.last
    ensures p != q ==> {p, p + 1} !! {q, q + 1}
  {
    var cs := CorrectedAll(host, rs);
    forall i | 0 <= i < |rs|
      ensures Paired(host, cs[i]) && Within(cs[i], rs[i])
    {
      CorrectedIff(host, rs[i]);
    }
    PairsAreDisjoint(cs, host, used, p, q);
    var i :| 0 <= i < |cs| && PairIn(cs[i], p);
    assert Within(cs[i], rs[i]);
  }

  method GetLocalServerPort(rs: seq<Range>, host: Port, used: set<Port>) returns (found: Option<Port>)
    ensures found == FirstPort(rs, 0, host, used)
  {
    var i := 0;
    while i < |rs|
      invariant i <= |rs| && FirstPort(rs, 0, host, used) == FirstPort(rs, i, host, used)
    {
      var p: nat := rs[i].first;
      while p < rs[i].last
        invariant FirstInRange(rs[i], rs[i].first, host, used) == FirstInRange(rs[i], p, host, used)
      {
        if p !in used && p != host {
          return Some(p);
        }
        p := p + 2;
      }
      i := i + 1;
    }
    return None;
  }

  // ---------------------------------------------------------------------------
  // Listening
  // ---------------------------------------------------------------------------

  datatype Binding = Bound | InUse | OtherError

  const WAIT_TIME: nat := 100
  const MAX_WAIT_TIME: nat := 10000

  /** What a client ends up with: the port it listens on and reports as a guest, and the port it connects from. */
  datatype Server = Listening(port: Port, guest: Port, local: Port) | Failed

  predicate SomePair(rs: seq<Range>, p: Port) {
    exists r <- rs :: PairIn(r, p)
  }

  /** All first ports of pairs. */
  ghost function AllPairs(rs: seq<Range>): set<Port> {
    set p: Port | SomePair(rs, p)
  }

  lemma CandidateIsPair(rs: seq<Range>, host: Port, used: set<Port>, p: Port)
    requires Candidate(rs, host, used, p)
    ensures p in AllPairs(rs) && p !in used
  {
  }

  /** The port was tried and found to be in use. */
  predicate Refused(tries: seq<Port>, bind: nat -> Binding, p: Port) {
    exists i | 0 <= i < |tries| :: tries[i] == p && bind(i) == InUse
  }

  /** How long the client has waited after `n` attempts, in milliseconds. */
  function Waited(bind: nat -> Binding, n: nat): nat {
    if n == 0 then 0 else Waited(bind, n - 1) + if bind(n - 1) == OtherError then 100 else 0
  }

  /** No attempt so far has succeeded, and exactly the refused ports are known to be used. */
  ghost predicate Trying(rs: seq<Range>, host: Port, bind: nat -> Binding, tries: seq<Port>, used: set<Port>) {
    && (forall i | 0 <= i < |tries| :: bind(i) != Bound)
    && (forall p: Port :: p in used <==> Refused(tries, bind, p))
  }

  lemma RefusedMore(tries: seq<Port>, bind: nat -> Binding, p: Port, q: Port)
    ensures Refused(tries + [p], bind, q) <==> Refused(tries, bind, q) || (q == p && bind(|tries|) == InUse)
  {
    var more := tries + [p];
    if Refused(tries, bind, q) {
      var i :| 0 <= i < |tries| && tries[i] == q && bind(i) == InUse;
      assert more[i] == q;
    }
    if q == p && bind(|tries|) == InUse {
      assert more[|tries|] == q;
    }
  }

  lemma TryMore(rs: seq<Range>, host: Port, bind: nat -> Binding, tries: seq<Port>, used: set<Port>, p: Port)
    requires Trying(rs, host, bind, tries, used) && bind(|tries|) != Bound
    ensures Trying(rs, host, bind, tries + [p], if bind(|tries|) == InUse then used + {p} else used)
  {
    forall q: Port
      ensures Refused(tries + [p], bind, q) <==> Refused(tries, bind, q) || (q == p && bind(|tries|) == InUse)
    {
      RefusedMore(tries, bind, p, q);
    }
  }

  lemma FewerPairs(rs: seq<Range>, used: set<Port>, p: Port)
    requires p in AllPairs(rs) && p !in used
    ensures |AllPairs(rs) - (used + {p})| < |AllPairs(rs) - used|
  {
    var before := AllPairs(rs) - used;
    assert AllPairs(rs) - (used + {p}) == before - {p};
  }

  /** The last attempt, on a candidate that was not refused before, succeeded; the earlier ones did not. */
  ghost predicate Succeeded(rs: seq<Range>, host: Port, bind: nat -> Binding, tries: seq<Port>, p: Port) {
    && tries != [] && tries[|tries| - 1] == p && bind(|tries| - 1) == Bound
    && Candidate(rs, host, {}, p) && !Refused(tries, bind, p)
    && forall i | 0 <= i < |tries| - 1 :: bind(i) != Bound
  }

  /** No attempt succeeded, and either all candidates were refused or there were too many other errors. */
  ghost predicate GaveUp(rs: seq<Range>, host: Port, bind: nat -> Binding, tries: seq<Port>) {
    && (forall i | 0 <= i < |tries| :: bind(i) != Bound)
    && (Waited(bind, |tries|) > 10_000 || forall p | Candidate(rs, host, {}, p) :: Refused(tries, bind, p))
  }

  lemma TrySucceeds(rs: seq<Range>, host: Port, bind: nat -> Binding, tries: seq<Port>, used: set<Port>, p: Port)
    requires Trying(rs, host, bind, tries, used) && bind(|tries|) == Bound && Candidate(rs, host, used, p)
    ensures Succeeded(rs, host, bind, tries + [p], p)
  {
    RefusedMore(tries, bind, p, p);
  }

  lemma AllRefused(rs: seq<Range>, host: Port, bind: nat -> Binding, tries: seq<Port>, used: set<Port>)
    requires Trying(rs, host, bind, tries, used) && forall p :: !Candidate(rs, host, used, p)
    ensures GaveUp(rs, host, bind, tries)
  {
    forall p | Candidate(rs, host, {}, p)
      ensures Refused(tries, bind, p)
    {
      assert !Candidate(rs, host, used, p);
    }
  }

  /** The next port to try. */
  method NextPort(rs: seq<Range>, host: Port, used: set<Port>) returns (port: Option<Port>)
    ensures port == FirstPort(rs, 0, host, used)
    ensures if port.Some? then Candidate(rs, host, used, port.value) else forall p :: !Candidate(rs, host, used, p)
  {
    port := GetLocalServerPort(rs, host, used);
    FirstPortIff(rs, 0, host, used);
    assert rs[0..] == rs;
  }

  /** An attempt has failed: the port is in use, or something else is wrong and the client waits. */
  method Retry(rs: seq<Range>, host: Port, used: set<Port>, waited: nat, p: Port, result: Binding,
               ghost bind: nat -> Binding, ghost tries: seq<Port>)
    returns (known: set<Port>, total: nat)
    requires Trying(rs, host, bind, tries, used) && waited == Waited(bind, |tries|)
    requires result == bind(|tries|) != Bound && Candidate(rs, host, used, p)
    ensures Trying(rs, host, bind, tries + [p], known) && total == Waited(bind, |tries| + 1)
    ensures (known == used && total == waited + WAIT_TIME) || (|AllPairs(rs) - known| < |AllPairs(rs) - used| && total == waited)
  {
    TryMore(rs, host, bind, tries, used, p);
    known, total := used, waited;
    if result == InUse {
      CandidateIsPair(rs, host, used, p);
      FewerPairs(rs, used, p);
      known := used + {p};
    } else {
      total := waited + WAIT_TIME;
    }
  }

  /** `port` is the first candidate that has not been refused, if there is one. */
  ghost predicate Searching(rs: seq<Range>, host: Port, bind: nat -> Binding, tries: seq<Port>, used: set<Port>, port: Option<Port>) {
    && Trying(rs, host, bind, tries, used) && port == FirstPort(rs, 0, host, used)
    && if port.Some? then Candidate(rs, host, used, port.value) else forall p :: !Candidate(rs, host, used, p)
  }

  ghost predicate Done(rs: seq<Range>, host: Port, isRouting: bool, bind: nat -> Binding, tries: seq<Port>, s: Server) {
    && s.Listening? && Succeeded(rs, host, bind, tries, s.port)
    && s.guest == s.port && s.local == Next(if isRouting then host else s.port)
  }

  lemma Exhausted(rs: seq<Range>, host: Port, bind: nat -> Binding, tries: seq<Port>, used: set<Port>, port: Option<Port>)
    requires Searching(rs, host, bind, tries, used, port) && (port.None? || Waited(bind, |tries|) > MAX_WAIT_TIME)
    ensures GaveUp(rs, host, bind, tries)
  {
    if port.None? {
      AllRefused(rs, host, bind, tries, used);
    }
  }

  /** The client listens on `p`; the loop condition has searched once more before it ends. */
  method Listen(rs: seq<Range>, host: Port, used: set<Port>, isRouting: bool, p: Port) returns (s: Server)
    requires FirstPort(rs, 0, host, used) == Some(p)
    ensures s == Listening(p, p, Next(if isRouting then host else p))
  {
    var port := GetLocalServerPort(rs, host, used);
    s := Listening(p, port.value, Next(if isRouting then host else p));
  }

  /**
   Tries the candidates in order until one can be bound, for at most about ten seconds of other
   errors. `bind` says what each attempt leads to; `tries` lists the ports that were tried. The port
   reported as a guest is the one that was bound.
   */
  method CreateLocalServer(rs: seq<Range>, host: Port, isRouting: bool, bind: nat -> Binding) returns (s: Server, ghost tries: seq<Port>)
    ensures if s.Listening? then Done(rs, host, isRouting, bind, tries, s) else GaveUp(rs, host, bind, tries)
    ensures s.Listening? ==>
              s.guest == s.port && s.local == Next(if isRouting then host else s.port) && Candidate(rs, host, {}, s.port)
    ensures Waited(bind, |tries|) <= 10_100
  {
    tries, s := [], Failed;
    var used: set<Port>, waited, n := {}, 0, 0;
    var port := NextPort(rs, host, used);
    while port.Some? && s.Failed? && waited <= MAX_WAIT_TIME
      invariant n == |tries| && waited == Waited(bind, n) <= MAX_WAIT_TIME + WAIT_TIME
      invariant s.Failed? ==> Searching(rs, host, bind, tries, used, port)
      invariant s.Listening? ==> Done(rs, host, isRouting, bind, tries, s)
      decreases s.Failed?, |AllPairs(rs) - used|, MAX_WAIT_TIME + WAIT_TIME - waited
    {
      var p := port.value;
      if bind(n) == Bound {
        TrySucceeds(rs, host, bind, tries, used, p);
        s := Listen(rs, host, used, isRouting, p);
      } else {
        used, waited := Retry(rs, host, used, waited, p, bind(n), bind, tries);
        port := NextPort(rs, host, used);
      }
      tries, n := tries + [p], n + 1;
    }
    if s.Failed? {
      Exhausted(rs, host, bind, tries, used, port);
    }
  }
}
