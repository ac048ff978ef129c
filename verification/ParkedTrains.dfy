/**
 Parked trains are kept in buckets by departure time; taken bucket by bucket they form one line,
 in order of release. Filing into a bucket and taking from the first bucket are the same as
 filing into and taking from the front of that line.
 */
module ParkedTrains {
  import opened TrainModel

  ghost predicate SortedTimes(keys: seq<Time>) {
    forall i, j :: 0 <= i < j < |keys| ==> keys[i] <= keys[j]
  }

  /** The part of a line that has the given key, in order. */
  ghost function Bucket<T>(line: seq<T>, keys: seq<Time>, k: Time): seq<T>
    requires |line| == |keys|
  {
    if line == [] then []
    else (if keys[0] == k then [line[0]] else []) + Bucket(line[1..], keys[1..], k)
  }

  /** The buckets hold exactly the line, and none of them is empty. */
  ghost predicate Filed<T>(buckets: map<Time, seq<T>>, line: seq<T>, keys: seq<Time>) {
    && |line| == |keys|
    && SortedTimes(keys)
    && forall k :: if k in buckets then buckets[k] == Bucket(line, keys, k) != [] else Bucket(line, keys, k) == []
  }

  ghost function Insert<T>(s: seq<T>, at: nat, x: T): seq<T>
    requires at <= |s|
  {
    s[..at] + [x] + s[at..]
  }

  lemma InsertAt<T>(s: seq<T>, at: nat, x: T, i: nat)
    requires at <= |s| && i <= |s|
    ensures |Insert(s, at, x)| == |s| + 1
    ensures Insert(s, at, x)[i] == if i < at then s[i] else if i == at then x else s[i - 1]
  {
  }

  lemma InsertMembers<T>(s: seq<T>, at: nat, x: T)
    requires at <= |s|
    ensures forall y :: y in Insert(s, at, x) <==> y == x || y in s
  {
    assert s == s[..at] + s[at..];
  }

  /** Filing a train inserts its departure into the departures. */
  lemma FileInserts(line: seq<Train>, t: Train)
    ensures var at := Slot(Departures(line), t.departure);
            && File(line, t) == Insert(line, at, t)
            && Departures(File(line, t)) == Insert(Departures(line), at, t.departure)
  {
  }

  lemma {:induction false} NoBucketBelow<T>(line: seq<T>, keys: seq<Time>, k: Time)
    requires |line| == |keys|
    requires forall i :: 0 <= i < |keys| ==> keys[i] != k
    ensures Bucket(line, keys, k) == []
  {
    if line != [] {
      NoBucketBelow(line[1..], keys[1..], k);
    }
  }

  lemma InsertBehindFirst<T>(s: seq<T>, at: nat, x: T)
    requires 0 < at <= |s|
    ensures Insert(s, at, x) == [s[0]] + Insert(s[1..], at - 1, x)
  {
  }

  lemma {:induction false} BucketAfterInsert<T>(line: seq<T>, keys: seq<Time>, at: nat, t: T, d: Time, k: Time)
    requires at <= |line| == |keys|
    requires forall i :: at <= i < |keys| ==> keys[i] != d
    ensures Bucket(Insert(line, at, t), Insert(keys, at, d), k) == Bucket(line, keys, k) + (if k == d then [t] else [])
  {
    if at == 0 {
      BucketInFront(line, keys, t, d, k);
      if k == d {
        NoBucketBelow(line, keys, d);
      }
    } else {
      InsertBehindFirst(line, at, t);
      InsertBehindFirst(keys, at, d);
      BucketAfterInsert(line[1..], keys[1..], at - 1, t, d, k);
      BucketInFront(Insert(line[1..], at - 1, t), Insert(keys[1..], at - 1, d), line[0], keys[0], k);
    }
  }

  lemma BucketInFront<T>(line: seq<T>, keys: seq<Time>, t: T, d: Time, k: Time)
    requires |line| == |keys|
    ensures Bucket([t] + line, [d] + keys, k) == (if d == k then [t] else []) + Bucket(line, keys, k)
    ensures Insert(line, 0, t) == [t] + line && Insert(keys, 0, d) == [d] + keys
  {
    assert ([t] + line)[1..] == line && ([d] + keys)[1..] == keys;
  }

  lemma InsertKeepsSorted(keys: seq<Time>, d: Time)
    requires SortedTimes(keys)
    ensures SortedTimes(Insert(keys, Slot(keys, d), d))
  {
    var at := Slot(keys, d);
    var keys' := Insert(keys, at, d);
    SlotBounds(keys, d);
    forall i, j | 0 <= i < j < |keys'| ensures keys'[i] <= keys'[j] {
      assert at < |keys| ==> keys[at] > d;
      assert keys'[i] == if i < at then keys[i] else if i == at then d else keys[i - 1];
      assert keys'[j] == if j < at then keys[j] else if j == at then d else keys[j - 1];
    }
  }

  /** Appending to the bucket of a departure is filing behind all trains that leave no later. */
  lemma FileIntoBucket<T>(buckets: map<Time, seq<T>>, line: seq<T>, keys: seq<Time>, t: T, d: Time)
    requires Filed(buckets, line, keys)
    ensures var at := Slot(keys, d);
            var waiting := if d in buckets then buckets[d] else [];
            Filed(buckets[d := waiting + [t]], Insert(line, at, t), Insert(keys, at, d))
  {
    InsertKeepsSorted(keys, d);
    SlotBounds(keys, d);
    forall k {
      BucketAfterInsert(line, keys, Slot(keys, d), t, d, k);
    }
  }

  lemma {:induction false} BucketMember<T>(line: seq<T>, keys: seq<Time>, k: Time)
    requires |line| == |keys| && Bucket(line, keys, k) != []
    ensures k in keys
  {
    if keys[0] != k {
      BucketMember(line[1..], keys[1..], k);
    }
  }

  /** The first bucket holds the front of the line; without it the buckets hold the rest. */
  lemma FirstBucket<T>(buckets: map<Time, seq<T>>, line: seq<T>, keys: seq<Time>)
    requires Filed(buckets, line, keys)
    ensures buckets == map[] <==> line == []
    ensures line != [] ==>
              && keys[0] in buckets && buckets[keys[0]] != [] && buckets[keys[0]][0] == line[0]
              && (forall k :: k in buckets ==> keys[0] <= k)
  {
    if line == [] {
      assert forall k :: k !in buckets;
    } else {
      assert Bucket(line, keys, keys[0])[0] == line[0];
      forall k | k in buckets ensures keys[0] <= k {
        BucketMember(line, keys, k);
      }
    }
  }

  lemma TakeFromFirstBucket<T>(buckets: map<Time, seq<T>>, line: seq<T>, keys: seq<Time>)
    requires Filed(buckets, line, keys) && line != []
    ensures keys[0] in buckets && buckets[keys[0]] != []
    ensures var rest := buckets[keys[0]][1..];
            Filed(if rest == [] then buckets - {keys[0]} else buckets[keys[0] := rest], line[1..], keys[1..])
  {
    FirstBucket(buckets, line, keys);
    var rest := buckets[keys[0]][1..];
    assert Bucket(line, keys, keys[0]) == [line[0]] + Bucket(line[1..], keys[1..], keys[0]);
  }
}
