/**
 * The reapers' limit on finished records: the oldest ones over the limit are found by bounded
 * insertion into a fixed array. The transition and the power cap reapers share the algorithm.
 */
module Reaper {
  import opened Wrappers

  /** A listed record as a reaper sees it; expired says whether it was when the sweep came to it. */
  datatype Entry = Entry(created: int, finished: bool, expired: bool)

  /** A place in the list of records, with the creation time found there. */
  datatype Pick = Pick(created: int, index: nat)

  // The simple form: sort all finished records, oldest first -----------------------------------

  /** Puts p before the first younger record. */
  function Insert(list: seq<Pick>, p: Pick): (r: seq<Pick>)
    ensures |r| == |list| + 1
    ensures forall q :: q in r <==> q == p || q in list
  {
    if list == [] || list[0].created > p.created then [p] + list
    else
      assert list == [list[0]] + list[1..];
      [list[0]] + Insert(list[1..], p)
  }

  /** The finished records among the first n, oldest first, equally old ones in list order. */
  function OldestFirst(ts: seq<Entry>, n: nat): seq<Pick>
    requires n <= |ts|
  {
    if n == 0 then []
    else if !ts[n - 1].finished then OldestFirst(ts, n - 1)
    else Insert(OldestFirst(ts, n - 1), Pick(ts[n - 1].created, n - 1))
  }

  predicate Older(a: Pick, b: Pick) {
    a.created < b.created || (a.created == b.created && a.index < b.index)
  }

  /** Strictly by age, equally old ones in list order. */
  predicate ByAge(list: seq<Pick>) {
    forall a, b :: 0 <= a < b < |list| ==> Older(list[a], list[b])
  }

  lemma {:induction false} InsertByAge(list: seq<Pick>, p: Pick)
    requires ByAge(list) && forall q :: q in list ==> q.index < p.index
    ensures ByAge(Insert(list, p))
  {
    if list != [] {
      assert list[0] in list;
      if list[0].created <= p.created {
        var rest := Insert(list[1..], p);
        InsertByAge(list[1..], p);
        forall b | 0 <= b < |rest| ensures Older(list[0], rest[b]) {
          assert rest[b] in rest;
        }
      }
    }
  }

  predicate IsFinished(ts: seq<Entry>, n: nat, p: Pick) {
    p.index < n && p.index < |ts| && ts[p.index].finished && p.created == ts[p.index].created
  }

  /** The simple form is the stable sort by creation time of the finished records, all of them and no others. */
  lemma {:induction false} OldestFirstSorts(ts: seq<Entry>, n: nat)
    requires n <= |ts|
    ensures ByAge(OldestFirst(ts, n))
    ensures forall p :: p in OldestFirst(ts, n) <==> IsFinished(ts, n, p)
  {
    if n > 0 {
      OldestFirstSorts(ts, n - 1);
      if ts[n - 1].finished {
        InsertByAge(OldestFirst(ts, n - 1), Pick(ts[n - 1].created, n - 1));
      }
    }
  }

  // The bounded form ------------------------------------------------------------------------------

  function Take<T>(s: seq<T>, k: nat): seq<T> {
    if |s| <= k then s else s[..k]
  }

  /** The array holds the list, and nothing behind it. */
  predicate Carries(a: seq<Option<Pick>>, list: seq<Pick>) {
    && |list| <= |a|
    && (forall j :: 0 <= j < |list| ==> a[j] == Some(list[j]))
    && (forall j :: |list| <= j < |a| ==> a[j] == None)
  }

  /** p put in at a position, everything from there moved back by one. */
  function InsertAt(list: seq<Pick>, at: nat, p: Pick): seq<Pick>
    requires at <= |list|
  {
    list[..at] + [p] + list[at..]
  }

  lemma {:induction false} InsertIsAt(list: seq<Pick>, p: Pick, at: nat)
    requires at <= |list|
    requires forall j :: 0 <= j < at ==> list[j].created <= p.created
    requires at < |list| ==> list[at].created > p.created
    ensures Insert(list, p) == InsertAt(list, at, p)
    decreases at
  {
    if at > 0 {
      InsertIsAt(list[1..], p, at - 1);
      assert list[..at] == [list[0]] + list[1..][..at - 1];
      assert list[at..] == list[1..][at - 1..];
    } else {
      assert list[..0] == [] && list[0..] == list;
    }
  }

  /** A record younger than k others leaves the k oldest as they are. */
  lemma {:induction false} InsertBeyond(list: seq<Pick>, p: Pick, k: nat)
    requires k <= |list| && forall j :: 0 <= j < k ==> list[j].created <= p.created
    ensures Insert(list, p)[..k] == list[..k]
  {
    if k > 0 {
      InsertBeyond(list[1..], p, k - 1);
      assert list[..k] == [list[0]] + list[1..][..k - 1];
      assert Insert(list, p)[..k] == [list[0]] + Insert(list[1..], p)[..k - 1];
    }
  }

  /** Inserting into the shortened list and shortening again is shortening after inserting. */
  lemma {:induction false} TakeInsert(list: seq<Pick>, p: Pick, k: nat)
    ensures Take(Insert(list, p), k) == Take(Insert(Take(list, k), p), k)
  {
    if k > 0 && |list| > k {
      if list[0].created <= p.created {
        TakeInsert(list[1..], p, k - 1);
        assert Take(list[1..], k - 1) == Take(list, k)[1..];
        assert Take(Insert(list, p), k) == [list[0]] + Take(Insert(list[1..], p), k - 1);
        assert Take(Insert(Take(list, k), p), k) == [list[0]] + Take(Insert(Take(list, k)[1..], p), k - 1);
      } else {
        assert Insert(Take(list, k), p) == [p] + list[..k];
      }
    }
  }

  /** Shifts the array back by one from a position, up to its first free place or its end. */
  method Shift(a: array<Option<Pick>>, at: nat, p: Pick, ghost list: seq<Pick>)
    requires at < |list| && Carries(a[..], list)
    modifies a
    ensures Carries(a[..], Take(InsertAt(list, at, p), a.Length))
  {
    var curr := p;
    var j := at;
    ghost var full := InsertAt(list, at, p);
    while j < a.Length
      invariant at <= j <= a.Length && j <= |list|
      invariant curr == full[j]
      invariant forall m :: 0 <= m < j ==> a[m] == Some(full[m])
      invariant forall m :: j <= m < |list| ==> a[m] == Some(list[m])
      invariant forall m :: j <= m && |list| <= m < a.Length ==> a[m] == None
    {
      if a[j] == None {
        a[j] := Some(curr);
        return;
      }
      var tmp := a[j].value;
      a[j] := Some(curr);
      curr := tmp;
      j := j + 1;
    }
  }

  /** Places one finished record: before the first younger one, or in the first free place. */
  method InsertBounded(a: array<Option<Pick>>, p: Pick, ghost list: seq<Pick>)
    requires Carries(a[..], list)
    modifies a
    ensures Carries(a[..], Take(Insert(list, p), a.Length))
  {
    for i := 0 to a.Length
      invariant a[..] == old(a[..])
      invariant i <= |list|
      invariant forall m :: 0 <= m < i ==> list[m].created <= p.created
    {
      if a[i] == None {
        InsertIsAt(list, p, i);
        a[i] := Some(p);
        return;
      }
      if a[i].value.created > p.created {
        InsertIsAt(list, p, i);
        Shift(a, i, p, list);
        return;
      }
    }
    InsertBeyond(list, p, a.Length);
  }

  /** The array of the k oldest finished records, filled by one pass over all records. */
  method SelectOldest(ts: seq<Entry>, k: nat) returns (a: array<Option<Pick>>)
    ensures fresh(a) && a.Length == k
    ensures Carries(a[..], Take(OldestFirst(ts, |ts|), k))
  {
    a := new Option<Pick>[k](_ => None);
    for t := 0 to |ts|
      invariant fresh(a) && a.Length == k
      invariant Carries(a[..], Take(OldestFirst(ts, t), k))
    {
      if ts[t].finished {
        ghost var list := OldestFirst(ts, t);
        TakeInsert(list, Pick(ts[t].created, t), k);
        InsertBounded(a, Pick(ts[t].created, t), Take(list, k));
      }
    }
  }

  // A whole sweep ---------------------------------------------------------------------------------

  function Indices(list: seq<Pick>): set<nat> {
    set p | p in list :: p.index
  }

  function Finished(ts: seq<Entry>): set<nat> {
    set i: nat | i < |ts| && ts[i].finished
  }

  /** Finished and not expired: what the sweep counts, here among the first n. */
  function Current(ts: seq<Entry>, n: nat): set<nat> {
    set i: nat | i < n && i < |ts| && ts[i].finished && !ts[i].expired
  }

  /** What goes because it expired; a power cap task goes even when it is not finished. */
  function Expired(ts: seq<Entry>, unfinishedToo: bool, n: nat): set<nat> {
    set i: nat | i < n && i < |ts| && ts[i].expired && (ts[i].finished || unfinishedToo)
  }

  /** How many records are over the limit; a limit that is not positive is none. */
  function Excess(ts: seq<Entry>, limit: int): nat {
    if limit > 0 && |Current(ts, |ts|)| > limit then |Current(ts, |ts|)| - limit else 0
  }

  function Overflow(ts: seq<Entry>, limit: int): set<nat> {
    Indices(Take(OldestFirst(ts, |ts|), Excess(ts, limit)))
  }

  /** Of finished records in strict order of age, no two have the same index. */
  lemma DistinctIndices(ts: seq<Entry>, list: seq<Pick>, b: nat)
    requires ByAge(list) && (forall p :: p in list ==> IsFinished(ts, |ts|, p)) && 0 < b < |list|
    ensures list[b].index != list[0].index
  {
    assert list[0] in list && list[b] in list && Older(list[0], list[b]);
  }

  lemma {:induction false} IndicesSize(ts: seq<Entry>, list: seq<Pick>)
    requires ByAge(list) && forall p :: p in list ==> IsFinished(ts, |ts|, p)
    ensures |Indices(list)| == |list|
  {
    hide IsFinished, Older;
    if list != [] {
      var rest := list[1..];
      assert forall p :: p in rest ==> p in list;
      IndicesSize(ts, rest);
      assert list[0].index !in Indices(rest) by {
        forall b | 0 <= b < |rest| ensures rest[b].index != list[0].index {
          DistinctIndices(ts, list, b + 1);
        }
      }
      assert list == [list[0]] + rest;
      assert Indices(list) == Indices(rest) + {list[0].index};
    }
  }

  /** The sorted list names every finished record once. */
  lemma OldestFirstCovers(ts: seq<Entry>)
    ensures Indices(OldestFirst(ts, |ts|)) == Finished(ts)
    ensures |OldestFirst(ts, |ts|)| == |Finished(ts)|
  {
    OldestFirstSorts(ts, |ts|);
    var list := OldestFirst(ts, |ts|);
    IndicesSize(ts, list);
    forall i | i in Finished(ts) ensures i in Indices(list) {
      assert IsFinished(ts, |ts|, Pick(ts[i].created, i));
    }
  }

  lemma SubsetSize(a: set<nat>, b: set<nat>)
    requires a <= b
    ensures |a| <= |b| && |b - a| == |b| - |a|
  {
  }

  lemma ExcessCases(ts: seq<Entry>, limit: int)
    ensures Excess(ts, limit) > 0 ==> Excess(ts, limit) == |Current(ts, |ts|)| - limit
  {
  }

  /** There are at least as many finished records as places in the array. */
  lemma EnoughFinished(ts: seq<Entry>, limit: int)
    ensures Excess(ts, limit) <= |OldestFirst(ts, |ts|)|
    ensures |Take(OldestFirst(ts, |ts|), Excess(ts, limit))| == Excess(ts, limit)
  {
    OldestFirstCovers(ts);
    SubsetSize(Current(ts, |ts|), Finished(ts));
  }

  /** The first pass: expired records go, and finished ones that stay are counted. */
  method ExpireAndCount(ts: seq<Entry>, unfinishedToo: bool) returns (gone: set<nat>, numComplete: nat)
    ensures gone == Expired(ts, unfinishedToo, |ts|)
    ensures numComplete == |Current(ts, |ts|)|
  {
    hide Current, Expired;
    gone, numComplete := {}, 0;
    NothingYet(ts, unfinishedToo);
    for t := 0 to |ts|
      invariant gone == Expired(ts, unfinishedToo, t)
      invariant numComplete == |Current(ts, t)|
    {
      OneMore(ts, unfinishedToo, t);
      if ts[t].expired {
        if ts[t].finished || unfinishedToo {
          gone := gone + {t};
        }
      } else if ts[t].finished {
        numComplete := numComplete + 1;
      }
    }
  }

  lemma NothingYet(ts: seq<Entry>, unfinishedToo: bool)
    ensures Current(ts, 0) == {} && Expired(ts, unfinishedToo, 0) == {}
  {
  }

  lemma OneMore(ts: seq<Entry>, unfinishedToo: bool, t: nat)
    requires t < |ts|
    ensures Current(ts, t + 1) == Current(ts, t) + (if ts[t].finished && !ts[t].expired then {t} else {})
    ensures t !in Current(ts, t)
    ensures Expired(ts, unfinishedToo, t + 1) ==
            Expired(ts, unfinishedToo, t) + (if ts[t].expired && (ts[t].finished || unfinishedToo) then {t} else {})
  {
  }

  /** Follows every entry of a full array. */
  method DeletePicked(a: array<Option<Pick>>, ghost list: seq<Pick>) returns (gone: set<nat>)
    requires Carries(a[..], list) && |list| == a.Length
    ensures gone == Indices(list)
  {
    gone := {};
    for j := 0 to a.Length
      invariant gone == Indices(list[..j])
    {
      assert list[..j + 1] == list[..j] + [list[j]];
      gone := gone + {a[j].value.index};
    }
    assert list[..a.Length] == list;
  }

  /** What goes in a sweep, record by record. */
  lemma SweepMembers(ts: seq<Entry>, limit: int, unfinishedToo: bool)
    ensures var gone := Expired(ts, unfinishedToo, |ts|) + Overflow(ts, limit);
            && (forall i :: i in gone ==> 0 <= i < |ts|)
            && (forall i :: 0 <= i < |ts| && ts[i].expired && ts[i].finished ==> i in gone)
            && (forall i :: 0 <= i < |ts| && !ts[i].finished ==> (i in gone <==> ts[i].expired && unfinishedToo))
            && (limit <= 0 ==> forall i :: 0 <= i < |ts| && !ts[i].expired ==> i !in gone)
  {
    hide OldestFirst;
    OverflowSize(ts, limit);
    if limit <= 0 {
      NoLimitNoOverflow(ts, limit);
    }
  }

  lemma NoLimitNoOverflow(ts: seq<Entry>, limit: int)
    requires limit <= 0 || |Current(ts, |ts|)| <= limit
    ensures Overflow(ts, limit) == {}
  {
    assert Take(OldestFirst(ts, |ts|), 0) == [];
  }

  /** One sweep: expired records go, then the oldest finished ones over the limit. */
  method Sweep(ts: seq<Entry>, limit: int, unfinishedToo: bool) returns (gone: set<nat>)
    ensures gone == Expired(ts, unfinishedToo, |ts|) + Overflow(ts, limit)
    ensures forall i :: i in gone ==> 0 <= i < |ts|
    ensures forall i :: 0 <= i < |ts| && ts[i].expired && ts[i].finished ==> i in gone
    ensures forall i :: 0 <= i < |ts| && !ts[i].finished ==> (i in gone <==> ts[i].expired && unfinishedToo)
    ensures limit <= 0 ==> forall i :: 0 <= i < |ts| && !ts[i].expired ==> i !in gone
  {
    SweepMembers(ts, limit, unfinishedToo);
    hide Expired, Current, OldestFirst, Carries;
    var expired, numComplete := ExpireAndCount(ts, unfinishedToo);
    gone := expired;
    if limit <= 0 {
      return;
    }
    var numDelete := numComplete - limit;
    if numDelete > 0 {
      var a := SelectOldest(ts, numDelete);
      EnoughFinished(ts, limit);
      var picked := DeletePicked(a, Take(OldestFirst(ts, |ts|), numDelete));
      gone := gone + picked;
    }
  }

  /** What is in the head of the list is older than what is not. */
  lemma HeadByAge(all: seq<Pick>, k: nat, a: nat, b: nat)
    requires k <= |all| && a < k && b < |all| && ByAge(all)
    requires all[b].index !in Indices(all[..k])
    ensures Older(all[a], all[b])
  {
  }

  lemma PlaceOf(ts: seq<Entry>, i: nat) returns (a: nat)
    requires i in Finished(ts)
    ensures a < |OldestFirst(ts, |ts|)| && OldestFirst(ts, |ts|)[a] == Pick(ts[i].created, i)
  {
    OldestFirstSorts(ts, |ts|);
    assert IsFinished(ts, |ts|, Pick(ts[i].created, i));
    a :| 0 <= a < |OldestFirst(ts, |ts|)| && OldestFirst(ts, |ts|)[a] == Pick(ts[i].created, i);
  }

  /** Every record the limit removes is older than every finished record it leaves. */
  lemma OverflowIsOldest(ts: seq<Entry>, limit: int, i: nat, j: nat)
    requires i in Overflow(ts, limit) && j in Finished(ts) && j !in Overflow(ts, limit)
    ensures i in Finished(ts)
    ensures Older(Pick(ts[i].created, i), Pick(ts[j].created, j))
  {
    hide OldestFirst, Excess, ByAge, Finished, Older;
    var all, k := OldestFirst(ts, |ts|), Excess(ts, limit);
    OldestFirstSorts(ts, |ts|);
    OldestFirstCovers(ts);
    EnoughFinished(ts, limit);
    assert Take(all, k) == all[..k];
    var a :| 0 <= a < k && all[..k][a].index == i;
    assert all[a] in all;
    var b := PlaceOf(ts, j);
    HeadByAge(all, k, a, b);
  }

  /** The limit removes finished records only, and as many as are over it. */
  lemma OverflowSize(ts: seq<Entry>, limit: int)
    ensures Overflow(ts, limit) <= Finished(ts) && |Overflow(ts, limit)| == Excess(ts, limit)
  {
    hide OldestFirst, Excess, Older;
    var all, k := OldestFirst(ts, |ts|), Excess(ts, limit);
    OldestFirstSorts(ts, |ts|);
    EnoughFinished(ts, limit);
    OldestFirstCovers(ts);
    assert forall p :: p in Take(all, k) ==> p in all;
    IndicesSize(ts, Take(all, k));
  }

  /**
   * What a sweep leaves. Under the limit, every finished record that has not expired. Over it, the
   * limit plus the expired records that took places in the array; so exactly the limit when no
   * expired record is among the oldest, and only then.
   */
  lemma SweepLeaves(ts: seq<Entry>, limit: int, unfinishedToo: bool)
    ensures var left := Finished(ts) - Expired(ts, unfinishedToo, |ts|) - Overflow(ts, limit);
            var wasted := Overflow(ts, limit) * Expired(ts, false, |ts|);
            && (Excess(ts, limit) == 0 ==> left == Current(ts, |ts|))
            && (Excess(ts, limit) > 0 ==> |left| == limit + |wasted|)
            && (Excess(ts, limit) > 0 ==> (|left| == limit <==> wasted == {}))
  {
    hide Excess, Overflow, Expired, Current, Finished;
    OverflowSize(ts, limit);
    ExcessCases(ts, limit);
    ExpiredAmongFinished(ts, unfinishedToo, Overflow(ts, limit));
    LeftSize(Finished(ts), Expired(ts, unfinishedToo, |ts|), Overflow(ts, limit));
  }

  /**
   * The limit is kept, said of the records alone. With no limit, or no more finished unexpired
   * records than the limit, all of these are left; with more, the limit is left and as many more as
   * there are expired records among those the limit removes.
   */
  lemma LimitIsKept(ts: seq<Entry>, limit: int, unfinishedToo: bool)
    ensures var current := set i: nat | i < |ts| && ts[i].finished && !ts[i].expired;
            var left := Finished(ts) - Expired(ts, unfinishedToo, |ts|) - Overflow(ts, limit);
            && left <= current
            && (limit <= 0 || |current| <= limit ==> left == current)
            && (0 < limit < |current| ==>
                  |left| == limit + |set i: nat | i in Overflow(ts, limit) && i < |ts| && ts[i].expired|)
  {
    hide Overflow;
    SweepLeaves(ts, limit, unfinishedToo);
    OverflowSize(ts, limit);
    var current := set i: nat | i < |ts| && ts[i].finished && !ts[i].expired;
    assert current == Current(ts, |ts|);
    var wasted := set i: nat | i in Overflow(ts, limit) && i < |ts| && ts[i].expired;
    assert wasted == Overflow(ts, limit) * Expired(ts, false, |ts|);
  }

  lemma ExpiredAmongFinished(ts: seq<Entry>, unfinishedToo: bool, some: set<nat>)
    requires some <= Finished(ts)
    ensures Finished(ts) - Expired(ts, unfinishedToo, |ts|) == Current(ts, |ts|)
    ensures some * Expired(ts, false, |ts|) == some * Expired(ts, unfinishedToo, |ts|)
  {
  }

  lemma LeftSize(finished: set<nat>, expired: set<nat>, over: set<nat>)
    requires over <= finished
    ensures |finished - expired - over| == |finished - expired| - |over| + |over * expired|
  {
    SubsetSize(over - expired, finished - expired);
    SubsetSize(over * expired, over);
    assert finished - expired - over == (finished - expired) - (over - expired);
    assert over - over * expired == over - expired;
  }

  /** Three finished records, the oldest of them expired, and a limit of one: the sweep leaves two. */
  lemma ExpiredTakesPlace() returns (ts: seq<Entry>)
    ensures Excess(ts, 1) == 1
    ensures Finished(ts) - Expired(ts, false, |ts|) - Overflow(ts, 1) == {1, 2}
    ensures |Finished(ts) - Expired(ts, false, |ts|) - Overflow(ts, 1)| == 2
  {
    ts := [Entry(0, true, true), Entry(1, true, false), Entry(2, true, false)];
    assert OldestFirst(ts, 1) == [Pick(0, 0)];
    assert OldestFirst(ts, 2) == [Pick(0, 0), Pick(1, 1)] by {
      InsertIsAt(OldestFirst(ts, 1), Pick(1, 1), 1);
    }
    assert OldestFirst(ts, 3) == [Pick(0, 0), Pick(1, 1), Pick(2, 2)] by {
      InsertIsAt(OldestFirst(ts, 2), Pick(2, 2), 2);
    }
    assert Current(ts, 3) == {1, 2};
    assert Take(OldestFirst(ts, 3), 1) == [Pick(0, 0)];
    assert Overflow(ts, 1) == {0};
    assert Finished(ts) - Expired(ts, false, |ts|) - Overflow(ts, 1) == {1, 2};
  }
}
