/**
 * The in-memory snapshot and its versioned merge. A snapshot has four horizon
 * buckets (`day1` .. `day4`); a bucket maps a date to the outlook entries seen
 * for it; an entry records the highest revision stored so far and the payload
 * stored under each revision label `v{n}`. A revision is stored only when it
 * is strictly newer than every revision stored before it, and nothing is ever
 * removed.
 */
module Outlooks {
  import opened Wrappers
  import opened Text
  import opened Naming

  /** One outlook entry: `{"current_version": ..., "outlooks": {...}}`. */
  datatype Entry<P> = Entry(currentVersion: nat, outlooks: map<string, P>)

  /** A horizon bucket: date, then outlook key, then entry. */
  type Bucket<P> = map<string, map<string, Entry<P>>>

  /** The static description written next to the buckets; its contents are constant data. */
  datatype Metadata = Metadata(source: string, description: string, updateFrequency: string, regions: map<string, string>)

  datatype Snapshot<P> = Snapshot(
    day1: Bucket<P>,
    day2: Bucket<P>,
    day3: Bucket<P>,
    day4: Bucket<P>,
    lastUpdated: string,
    metadata: Metadata)

  /** The snapshot a fetcher starts from: four empty buckets, stamped with the
      current time (a parameter of the model). */
  function NewSnapshot<P>(now: string, metadata: Metadata): (s: Snapshot<P>)
    ensures forall day :: BucketOf(s, day) == map[]
    ensures s.lastUpdated == now && s.metadata == metadata
  {
    Snapshot(map[], map[], map[], map[], now, metadata)
  }

  function BucketOf<P>(s: Snapshot<P>, day: Day): Bucket<P>
  {
    match day
    case Day1 => s.day1
    case Day2 => s.day2
    case Day3 => s.day3
    case Day4 => s.day4
  }

  /** The snapshot with one bucket replaced and everything else kept. */
  function WithBucket<P>(s: Snapshot<P>, day: Day, b: Bucket<P>): (r: Snapshot<P>)
    ensures BucketOf(r, day) == b
    ensures forall d :: d != day ==> BucketOf(r, d) == BucketOf(s, d)
    ensures r.lastUpdated == s.lastUpdated && r.metadata == s.metadata
  {
    match day
    case Day1 => s.(day1 := b)
    case Day2 => s.(day2 := b)
    case Day3 => s.(day3 := b)
    case Day4 => s.(day4 := b)
  }

  /** The entry stored under a date and key, if any. */
  function EntryAt<P>(b: Bucket<P>, date: string, key: string): Option<Entry<P>>
  {
    if date in b && key in b[date] then Some(b[date][key]) else None
  }

  /** The entry a missing key starts from. */
  function Fresh<P>(): (e: Entry<P>)
    ensures e.currentVersion == 0 && |e.outlooks| == 0
  {
    Entry(0, map[])
  }

  /** The label a revision is stored under: `f"v{n}"`. */
  function Label(v: nat): string
  {
    "v" + NatToString(v)
  }

  /** Distinct revisions have distinct labels. */
  lemma LabelInjective(v: nat, w: nat)
    ensures Label(v) == Label(w) <==> v == w
  {
    if Label(v) == Label(w) {
      assert Label(v)[1..] == NatToString(v);
      assert Label(w)[1..] == NatToString(w);
      NatToStringInjective(v, w);
    }
  }

  function Max(a: nat, b: nat): nat
  {
    if a < b then b else a
  }

  /** Offer revision `v` with its payload to an entry: it is stored, and
      becomes the current revision, exactly when it is strictly newer;
      otherwise the entry is left as it was. */
  function Bump<P>(e: Entry<P>, v: nat, payload: P): (r: Entry<P>)
    ensures r.currentVersion == Max(e.currentVersion, v)
    ensures Label(v) in r.outlooks && r.outlooks[Label(v)] == payload <== v > e.currentVersion
    ensures forall l :: l in e.outlooks && l != Label(v) ==> l in r.outlooks && r.outlooks[l] == e.outlooks[l]
    ensures forall l :: l in r.outlooks ==> l in e.outlooks || (l == Label(v) && v > e.currentVersion)
    ensures r == e <==> v <= e.currentVersion
  {
    if v > e.currentVersion then Entry(v, e.outlooks[Label(v) := payload]) else e
  }

  /** The entry invariant: every stored label is that of a revision no newer
      than the current one, and the current revision (when there is one) is
      stored. */
  ghost predicate Consistent<P>(e: Entry<P>)
  {
    && (forall l :: l in e.outlooks ==> exists w: nat :: 1 <= w <= e.currentVersion && l == Label(w))
    && (e.currentVersion == 0 || Label(e.currentVersion) in e.outlooks)
  }

  lemma FreshConsistent<P>()
    ensures Consistent(Fresh<P>())
  {
  }

  /** Offering a revision keeps an entry consistent, and on a consistent
      entry no stored payload is ever overwritten. */
  lemma BumpConsistent<P>(e: Entry<P>, v: nat, payload: P)
    requires Consistent(e)
    ensures Consistent(Bump(e, v, payload))
    ensures forall l :: l in e.outlooks ==> l in Bump(e, v, payload).outlooks && Bump(e, v, payload).outlooks[l] == e.outlooks[l]
  {
    var r := Bump(e, v, payload);
    if v > e.currentVersion {
      forall l | l in e.outlooks
        ensures l != Label(v)
      {
        var w: nat :| 1 <= w <= e.currentVersion && l == Label(w);
        LabelInjective(w, v);
      }
      forall l | l in r.outlooks
        ensures exists w: nat :: 1 <= w <= r.currentVersion && l == Label(w)
      {
        if l == Label(v) {
          assert 1 <= v <= r.currentVersion;
        }
      }
    }
  }

  /** Offering the same revision and payload twice has the effect of offering it once. */
  lemma BumpIdempotent<P>(e: Entry<P>, v: nat, payload: P)
    ensures Bump(Bump(e, v, payload), v, payload) == Bump(e, v, payload)
  {
  }

  // ---------------------------------------------------------------------
  // A run of offers to one entry

  /** Offer each (revision, payload) in arrival order. */
  function BumpAll<P>(e: Entry<P>, arrivals: seq<(nat, P)>): Entry<P>
    decreases |arrivals|
  {
    if arrivals == [] then e
    else BumpAll(Bump(e, arrivals[0].0, arrivals[0].1), arrivals[1..])
  }

  /** The highest revision among `arrivals`, or `floor` if none is higher. */
  function MaxFrom<P>(floor: nat, arrivals: seq<(nat, P)>): nat
    decreases |arrivals|
  {
    if arrivals == [] then floor else MaxFrom(Max(floor, arrivals[0].0), arrivals[1..])
  }

  lemma {:induction false} MaxFromBounds<P>(floor: nat, arrivals: seq<(nat, P)>)
    ensures floor <= MaxFrom(floor, arrivals)
    ensures forall i :: 0 <= i < |arrivals| ==> arrivals[i].0 <= MaxFrom(floor, arrivals)
    ensures MaxFrom(floor, arrivals) == floor || exists i :: 0 <= i < |arrivals| && arrivals[i].0 == MaxFrom(floor, arrivals)
    decreases |arrivals|
  {
    if arrivals != [] {
      var rest := arrivals[1..];
      MaxFromBounds(Max(floor, arrivals[0].0), rest);
      forall i | 1 <= i < |arrivals|
        ensures arrivals[i].0 <= MaxFrom(floor, arrivals)
      {
        assert arrivals[i] == rest[i - 1];
      }
      if k :| 0 <= k < |rest| && rest[k].0 == MaxFrom(floor, arrivals) {
        assert arrivals[k + 1] == rest[k];
      }
    }
  }

  /** Whatever the arrival order, the current revision ends as the highest
      revision offered (or the starting one, if that is higher). */
  lemma {:induction false} BumpAllCurrent<P>(e: Entry<P>, arrivals: seq<(nat, P)>)
    ensures BumpAll(e, arrivals).currentVersion == MaxFrom(e.currentVersion, arrivals)
    decreases |arrivals|
  {
    if arrivals != [] {
      BumpAllCurrent(Bump(e, arrivals[0].0, arrivals[0].1), arrivals[1..]);
    }
  }

  /** Arrival `i` is a new strict maximum: newer than the start and than every earlier arrival. */
  ghost predicate NewMax<P>(floor: nat, arrivals: seq<(nat, P)>, i: int)
    requires 0 <= i < |arrivals|
  {
    floor < arrivals[i].0 && forall j :: 0 <= j < i ==> arrivals[j].0 < arrivals[i].0
  }

  /** After a run of offers the stored labels are the starting ones plus the
      labels of exactly those arrivals that were a new strict maximum when
      they arrived; no label is removed. */
  lemma {:induction false} BumpAllLabels<P>(e: Entry<P>, arrivals: seq<(nat, P)>, l: string)
    ensures l in BumpAll(e, arrivals).outlooks
        <==> l in e.outlooks || exists i :: 0 <= i < |arrivals| && NewMax(e.currentVersion, arrivals, i) && l == Label(arrivals[i].0)
    decreases |arrivals|
  {
    if arrivals != [] {
      var (v, p) := arrivals[0];
      var e' := Bump(e, v, p);
      var rest := arrivals[1..];
      BumpAllLabels(e', rest, l);
      forall i | 0 <= i < |rest|
        ensures NewMax(e'.currentVersion, rest, i) <==> NewMax(e.currentVersion, arrivals, i + 1)
      {
        assert arrivals[i + 1] == rest[i];
        assert forall j :: 0 <= j < i ==> rest[j] == arrivals[j + 1];
        if NewMax(e.currentVersion, arrivals, i + 1) {
          forall j | 0 <= j < i
            ensures rest[j].0 < rest[i].0
          {
            assert arrivals[j + 1].0 < arrivals[i + 1].0;
          }
        }
        if NewMax(e'.currentVersion, rest, i) {
          forall j | 0 <= j < i + 1
            ensures arrivals[j].0 < arrivals[i + 1].0
          {
            if j > 0 {
              assert rest[j - 1].0 < rest[i].0;
            }
          }
        }
      }
      if l in BumpAll(e', rest).outlooks {
        if l !in e.outlooks {
          if l in e'.outlooks {
            assert NewMax(e.currentVersion, arrivals, 0);
          } else {
            var i :| 0 <= i < |rest| && NewMax(e'.currentVersion, rest, i) && l == Label(rest[i].0);
            assert NewMax(e.currentVersion, arrivals, i + 1) && l == Label(arrivals[i + 1].0);
          }
        }
      } else {
        forall i | 0 <= i < |arrivals| && NewMax(e.currentVersion, arrivals, i)
          ensures l != Label(arrivals[i].0)
        {
          if i > 0 {
            assert NewMax(e'.currentVersion, rest, i - 1);
            assert arrivals[i] == rest[i - 1];
          }
        }
      }
    }
  }

  /** Revisions arriving in strictly increasing order, all newer than the start. */
  ghost predicate Ascending<P>(floor: nat, arrivals: seq<(nat, P)>)
  {
    forall i :: 0 <= i < |arrivals| ==> floor < arrivals[i].0 && forall j :: 0 <= j < i ==> arrivals[j].0 < arrivals[i].0
  }

  /** With the generator's ascending probe order every arrival is stored,
      under its own label and with its own payload, and nothing else is
      added: gaps between revisions stay gaps. */
  lemma AscendingStoresAll<P>(e: Entry<P>, arrivals: seq<(nat, P)>)
    requires Ascending(e.currentVersion, arrivals)
    ensures forall l :: (l in BumpAll(e, arrivals).outlooks
        <==> l in e.outlooks || exists i :: 0 <= i < |arrivals| && l == Label(arrivals[i].0))
    ensures forall i :: 0 <= i < |arrivals| ==> BumpAll(e, arrivals).outlooks[Label(arrivals[i].0)] == arrivals[i].1
  {
    forall l
      ensures l in BumpAll(e, arrivals).outlooks
          <==> l in e.outlooks || exists i :: 0 <= i < |arrivals| && l == Label(arrivals[i].0)
    {
      BumpAllLabels(e, arrivals, l);
      if i :| 0 <= i < |arrivals| && l == Label(arrivals[i].0) {
        assert NewMax(e.currentVersion, arrivals, i);
      }
    }
    forall i | 0 <= i < |arrivals|
      ensures BumpAll(e, arrivals).outlooks[Label(arrivals[i].0)] == arrivals[i].1
    {
      AscendingPayload(e, arrivals, i);
    }
  }

  /** The payload under an ascending arrival's label is the one it brought. */
  lemma {:induction false} AscendingPayload<P>(e: Entry<P>, arrivals: seq<(nat, P)>, i: nat)
    requires Ascending(e.currentVersion, arrivals)
    requires i < |arrivals|
    ensures Label(arrivals[i].0) in BumpAll(e, arrivals).outlooks
    ensures BumpAll(e, arrivals).outlooks[Label(arrivals[i].0)] == arrivals[i].1
    decreases |arrivals|
  {
    var (v, p) := arrivals[0];
    var e' := Bump(e, v, p);
    var rest := arrivals[1..];
    assert Ascending(e'.currentVersion, rest) by {
      forall k | 0 <= k < |rest|
        ensures e'.currentVersion < rest[k].0 && forall j :: 0 <= j < k ==> rest[j].0 < rest[k].0
      {
        assert rest[k] == arrivals[k + 1];
        assert arrivals[0].0 < arrivals[k + 1].0;
        forall j | 0 <= j < k
          ensures rest[j].0 < rest[k].0
        {
          assert rest[j] == arrivals[j + 1];
        }
      }
    }
    if i == 0 {
      forall k | 0 <= k < |rest|
        ensures Label(rest[k].0) != Label(v)
      {
        assert rest[k] == arrivals[k + 1];
        LabelInjective(rest[k].0, v);
      }
      KeepsLabel(e', rest, Label(v));
    } else {
      assert arrivals[i] == rest[i - 1];
      AscendingPayload(e', rest, i - 1);
    }
  }

  /** A label already stored keeps its payload through any later offers of
      strictly newer revisions. */
  lemma {:induction false} KeepsLabel<P>(e: Entry<P>, arrivals: seq<(nat, P)>, l: string)
    requires l in e.outlooks
    requires forall k :: 0 <= k < |arrivals| ==> arrivals[k].0 > e.currentVersion ==> Label(arrivals[k].0) != l
    ensures l in BumpAll(e, arrivals).outlooks && BumpAll(e, arrivals).outlooks[l] == e.outlooks[l]
    decreases |arrivals|
  {
    if arrivals != [] {
      var e' := Bump(e, arrivals[0].0, arrivals[0].1);
      forall k | 0 <= k < |arrivals[1..]| && arrivals[1..][k].0 > e'.currentVersion
        ensures Label(arrivals[1..][k].0) != l
      {
        assert arrivals[1..][k] == arrivals[k + 1];
      }
      KeepsLabel(e', arrivals[1..], l);
    }
  }

  /** Out of order, a revision is lost: when revision 2 arrives before
      revision 1, revision 1 is never stored. */
  lemma OlderAfterNewerDropped<P>(newer: P, older: P)
    ensures var e := BumpAll(Fresh(), [(2, newer), (1, older)]);
      && e.currentVersion == 2
      && e.outlooks == map[Label(2) := newer]
      && Label(1) !in e.outlooks
  {
    LabelInjective(1, 2);
    var arrivals := [(2, newer), (1, older)];
    var e1 := Bump(Fresh(), 2, newer);
    assert e1 == Entry(2, map[Label(2) := newer]);
    assert arrivals[1..] == [(1, older)];
    assert BumpAll(Fresh(), arrivals) == BumpAll(e1, [(1, older)]);
    assert [(1, older)][1..] == [];
    assert BumpAll(e1, [(1, older)]) == BumpAll(Bump(e1, 1, older), []) == e1;
  }

  // ---------------------------------------------------------------------
  // Merging into a bucket and into the snapshot

  /** The bucket with the entry under `date` and `key` set to `e`, creating
      the date's map when it is missing; nothing else changes. */
  function Put<P>(b: Bucket<P>, date: string, key: string, e: Entry<P>): (r: Bucket<P>)
    ensures EntryAt(r, date, key) == Some(e)
    ensures forall d, k :: (d != date || k != key) ==> EntryAt(r, d, k) == EntryAt(b, d, k)
    ensures r.Keys == b.Keys + {date}
    ensures forall d :: d in b && d != date ==> r[d] == b[d]
    ensures r[date].Keys == (if date in b then b[date].Keys else {}) + {key}
  {
    b[date := (if date in b then b[date] else map[])[key := e]]
  }

  /** Create the date's map and a fresh entry for the key when they are
      missing; an existing entry is kept as it is. */
  function Touch<P>(b: Bucket<P>, date: string, key: string): (r: Bucket<P>)
    ensures EntryAt(r, date, key) == Some(EntryAt(b, date, key).GetOr(Fresh()))
    ensures forall d, k :: (d != date || k != key) ==> EntryAt(r, d, k) == EntryAt(b, d, k)
    ensures r.Keys == b.Keys + {date}
    ensures forall d :: d in b && d != date ==> r[d] == b[d]
    ensures r[date].Keys == (if date in b then b[date].Keys else {}) + {key}
  {
    Put(b, date, key, EntryAt(b, date, key).GetOr(Fresh()))
  }

  /** The merge step: make sure the entry exists, then offer it the
      revision. Only the entry under `date` and `key` can change. */
  function Merge<P>(b: Bucket<P>, date: string, key: string, v: nat, payload: P): (r: Bucket<P>)
    ensures EntryAt(r, date, key) == Some(Bump(EntryAt(b, date, key).GetOr(Fresh()), v, payload))
    ensures forall d, k :: (d != date || k != key) ==> EntryAt(r, d, k) == EntryAt(b, d, k)
    ensures r.Keys == b.Keys + {date}
    ensures forall d :: d in b && d != date ==> r[d] == b[d]
    ensures r[date].Keys == (if date in b then b[date].Keys else {}) + {key}
  {
    Put(b, date, key, Bump(EntryAt(b, date, key).GetOr(Fresh()), v, payload))
  }

  /** Setting an entry to the value it already has changes nothing. */
  lemma PutSame<P>(b: Bucket<P>, date: string, key: string, e: Entry<P>)
    ensures Put(Put(b, date, key, e), date, key, e) == Put(b, date, key, e)
  {
    var once := Put(b, date, key, e);
    assert date in once && key in once[date];
    assert once[date][key := e] == once[date];
  }

  /** Merging the same (key, revision, payload) twice leaves the bucket as
      merging it once. */
  lemma MergeIdempotent<P>(b: Bucket<P>, date: string, key: string, v: nat, payload: P)
    ensures Merge(Merge(b, date, key, v, payload), date, key, v, payload) == Merge(b, date, key, v, payload)
  {
    var e := Bump(EntryAt(b, date, key).GetOr(Fresh()), v, payload);
    var once := Put(b, date, key, e);
    BumpIdempotent(EntryAt(b, date, key).GetOr(Fresh()), v, payload);
    assert Merge(once, date, key, v, payload) == Put(once, date, key, e);
    PutSame(b, date, key, e);
  }

  /** `Touch` on the snapshot: the entry is created in the bucket of `day`. */
  function TouchIn<P>(s: Snapshot<P>, day: Day, date: string, key: string): (r: Snapshot<P>)
    ensures EntryAt(BucketOf(r, day), date, key) == Some(EntryAt(BucketOf(s, day), date, key).GetOr(Fresh()))
    ensures forall d, dt, k :: ((d != day || dt != date || k != key)
      ==> EntryAt(BucketOf(r, d), dt, k) == EntryAt(BucketOf(s, d), dt, k))
    ensures forall d :: d != day ==> BucketOf(r, d) == BucketOf(s, d)
    ensures BucketOf(r, day).Keys == BucketOf(s, day).Keys + {date}
    ensures forall dt :: dt in BucketOf(s, day) && dt != date ==> BucketOf(r, day)[dt] == BucketOf(s, day)[dt]
    ensures BucketOf(r, day)[date].Keys
         == (if date in BucketOf(s, day) then BucketOf(s, day)[date].Keys else {}) + {key}
    ensures r.lastUpdated == s.lastUpdated && r.metadata == s.metadata
  {
    WithBucket(s, day, Touch(BucketOf(s, day), date, key))
  }

  /** The snapshot-level merge: `outlooks_data[day][date][key]` takes the
      revision when it is newer; the bucket gains at most the date and the
      date at most the key; other buckets, dates and keys, the timestamp and
      the metadata are untouched. */
  function Store<P>(s: Snapshot<P>, day: Day, date: string, key: string, v: nat, payload: P): (r: Snapshot<P>)
    ensures EntryAt(BucketOf(r, day), date, key) == Some(Bump(EntryAt(BucketOf(s, day), date, key).GetOr(Fresh()), v, payload))
    ensures forall d, dt, k :: ((d != day || dt != date || k != key)
      ==> EntryAt(BucketOf(r, d), dt, k) == EntryAt(BucketOf(s, d), dt, k))
    ensures forall d :: d != day ==> BucketOf(r, d) == BucketOf(s, d)
    ensures BucketOf(r, day).Keys == BucketOf(s, day).Keys + {date}
    ensures forall dt :: dt in BucketOf(s, day) && dt != date ==> BucketOf(r, day)[dt] == BucketOf(s, day)[dt]
    ensures BucketOf(r, day)[date].Keys
         == (if date in BucketOf(s, day) then BucketOf(s, day)[date].Keys else {}) + {key}
    ensures r.lastUpdated == s.lastUpdated && r.metadata == s.metadata
  {
    WithBucket(s, day, Merge(BucketOf(s, day), date, key, v, payload))
  }

  /** Storing the same (key, revision, payload) twice leaves the snapshot as storing it once. */
  lemma StoreIdempotent<P>(s: Snapshot<P>, day: Day, date: string, key: string, v: nat, payload: P)
    ensures Store(Store(s, day, date, key, v, payload), day, date, key, v, payload) == Store(s, day, date, key, v, payload)
  {
    MergeIdempotent(BucketOf(s, day), date, key, v, payload);
    var once := Store(s, day, date, key, v, payload);
    var twice := Store(once, day, date, key, v, payload);
    assert BucketOf(twice, day) == BucketOf(once, day);
    assert twice.day1 == BucketOf(twice, Day1) == BucketOf(once, Day1) == once.day1;
    assert twice.day2 == BucketOf(twice, Day2) == BucketOf(once, Day2) == once.day2;
    assert twice.day3 == BucketOf(twice, Day3) == BucketOf(once, Day3) == once.day3;
    assert twice.day4 == BucketOf(twice, Day4) == BucketOf(once, Day4) == once.day4;
  }

  /** The snapshot invariant: every entry is consistent. */
  ghost predicate Valid<P>(s: Snapshot<P>)
  {
    forall day, date, key :: EntryAt(BucketOf(s, day), date, key).Some? ==> Consistent(EntryAt(BucketOf(s, day), date, key).value)
  }

  /** `after` has grown from `before`: its revision has not gone down and
      every stored label keeps its payload. */
  ghost predicate Grows<P>(before: Entry<P>, after: Entry<P>)
  {
    && before.currentVersion <= after.currentVersion
    && forall l :: l in before.outlooks ==> l in after.outlooks && after.outlooks[l] == before.outlooks[l]
  }

  /** `after` extends `before`: every entry is still there and has only grown. */
  ghost predicate Extends<P>(before: Snapshot<P>, after: Snapshot<P>)
  {
    forall day, date, key :: EntryAt(BucketOf(before, day), date, key).Some? ==>
      && EntryAt(BucketOf(after, day), date, key).Some?
      && Grows(EntryAt(BucketOf(before, day), date, key).value, EntryAt(BucketOf(after, day), date, key).value)
  }

  lemma ExtendsTransitive<P>(first: Snapshot<P>, second: Snapshot<P>, third: Snapshot<P>)
    requires Extends(first, second) && Extends(second, third)
    ensures Extends(first, third)
  {
  }

  /** The empty snapshot is valid. */
  lemma NewSnapshotValid<P>(now: string, metadata: Metadata)
    ensures Valid(NewSnapshot<P>(now, metadata))
  {
  }

  /** Creating an entry keeps the snapshot valid. */
  lemma TouchValid<P>(s: Snapshot<P>, day: Day, date: string, key: string)
    requires Valid(s)
    ensures Valid(TouchIn(s, day, date, key))
  {
    var t := TouchIn(s, day, date, key);
    FreshConsistent<P>();
    forall d, dt, k | EntryAt(BucketOf(t, d), dt, k).Some?
      ensures Consistent(EntryAt(BucketOf(t, d), dt, k).value)
    {
      if d != day || dt != date || k != key {
        assert EntryAt(BucketOf(t, d), dt, k) == EntryAt(BucketOf(s, d), dt, k);
      }
    }
  }

  /** Creating an entry only extends the snapshot. */
  lemma TouchExtends<P>(s: Snapshot<P>, day: Day, date: string, key: string)
    ensures Extends(s, TouchIn(s, day, date, key))
  {
    var t := TouchIn(s, day, date, key);
    forall d, dt, k | EntryAt(BucketOf(s, d), dt, k).Some?
      ensures EntryAt(BucketOf(t, d), dt, k) == EntryAt(BucketOf(s, d), dt, k)
    {
    }
  }

  /** Storing a revision keeps the snapshot valid. */
  lemma StoreValid<P>(s: Snapshot<P>, day: Day, date: string, key: string, v: nat, payload: P)
    requires Valid(s)
    ensures Valid(Store(s, day, date, key, v, payload))
  {
    var e := EntryAt(BucketOf(s, day), date, key).GetOr(Fresh());
    FreshConsistent<P>();
    BumpConsistent(e, v, payload);
    var r := Store(s, day, date, key, v, payload);
    forall d, dt, k | EntryAt(BucketOf(r, d), dt, k).Some?
      ensures Consistent(EntryAt(BucketOf(r, d), dt, k).value)
    {
      if d != day || dt != date || k != key {
        assert EntryAt(BucketOf(r, d), dt, k) == EntryAt(BucketOf(s, d), dt, k);
      }
    }
  }

  /** On a valid snapshot, storing a revision only extends it: no entry
      disappears, no revision goes down, no stored payload changes. */
  lemma StoreExtends<P>(s: Snapshot<P>, day: Day, date: string, key: string, v: nat, payload: P)
    requires Valid(s)
    ensures Extends(s, Store(s, day, date, key, v, payload))
  {
    var r := Store(s, day, date, key, v, payload);
    forall d, dt, k | EntryAt(BucketOf(s, d), dt, k).Some?
      ensures EntryAt(BucketOf(r, d), dt, k).Some?
      ensures Grows(EntryAt(BucketOf(s, d), dt, k).value, EntryAt(BucketOf(r, d), dt, k).value)
    {
      if d == day && dt == date && k == key {
        BumpConsistent(EntryAt(BucketOf(s, d), dt, k).value, v, payload);
      }
    }
  }
}
