/** Retention of an instance's backups (pkg/backup applyRetention): which
    backups the policy selects, and what one newest-first pass leaves. */
module Retention {
  import opened BackupRecords

  /** Counts are Go ints: the API refuses no negative one. minAge is in nanoseconds. */
  datatype Policy = Policy(
    keepLast: int, keepHourly: int, keepDaily: int, keepWeekly: int, keepMonthly: int, minAge: int)

  const HOUR := 3600
  const DAY := 24 * 3600
  const WEEK := 7 * 24 * 3600
  const MONTH := 30 * 24 * 3600

  predicate NoRule(p: Policy) {
    p.keepLast == 0 && p.keepHourly == 0 && p.keepDaily == 0 && p.keepWeekly == 0 && p.keepMonthly == 0
  }

  predicate SomePositiveRule(p: Policy) {
    p.keepLast > 0 || p.keepHourly > 0 || p.keepDaily > 0 || p.keepWeekly > 0 || p.keepMonthly > 0
  }

  predicate TooYoung(p: Policy, now: int, b: Info) {
    p.minAge > 0 && now - b.createdAt < p.minAge
  }

  // ---- buckets ----

  /** Go's integer division: truncates toward zero. */
  function TruncDiv(a: int, m: int): int
    requires m > 0
  {
    if a >= 0 then a / m else -((-a) / m)
  }

  /** CreatedAt.Unix() / int64(interval.Seconds()). */
  function Bucket(b: Info, seconds: int): int
    requires seconds > 0
  {
    TruncDiv(b.createdAt / 1_000_000_000, seconds)
  }

  lemma DivMonotone(a: int, b: int, m: int)
    requires m > 0 && a <= b
    ensures a / m <= b / m
  {
    var d := b / m - a / m;
    assert a == (a / m) * m + a % m && b == (b / m) * m + b % m;
    assert (d + 1) * m > 0;
    if d < 0 {
      NonPositiveProduct(d + 1, m);
      assert false;
    }
  }

  lemma NonPositiveProduct(x: int, m: int)
    requires x <= 0 && m > 0
    ensures x * m <= 0
  {
  }

  lemma BucketMonotone(b: Info, c: Info, seconds: int)
    requires seconds > 0 && b.createdAt <= c.createdAt
    ensures Bucket(b, seconds) <= Bucket(c, seconds)
  {
    DivMonotone(b.createdAt, c.createdAt, 1_000_000_000);
    var x, y := b.createdAt / 1_000_000_000, c.createdAt / 1_000_000_000;
    if x >= 0 {
      DivMonotone(x, y, seconds);
    } else if y < 0 {
      DivMonotone(-y, -x, seconds);
    } else {
      DivMonotone(0, -x, seconds);
      DivMonotone(0, y, seconds);
    }
  }

  // ---- spans of time ----

  /** The seconds since the epoch at which span k begins and ends. Spans are
      numbered from the epoch, and count towards it from before: the one around
      the epoch reaches both ways. */
  function SpanStart(k: int, seconds: int): int { if k > 0 then k * seconds else (k - 1) * seconds + 1 }

  function SpanEnd(k: int, seconds: int): int { if k >= 0 then (k + 1) * seconds else k * seconds + 1 }

  /** A moment in nanoseconds lies in span k of this many seconds. */
  predicate InSpan(moment: int, k: int, seconds: int) {
    SpanStart(k, seconds) * 1_000_000_000 <= moment < SpanEnd(k, seconds) * 1_000_000_000
  }

  lemma MulMonotone(x: int, y: int, m: int)
    requires x <= y && m > 0
    ensures x * m <= y * m
  {
    NonPositiveProduct(x - y, m);
    assert (x - y) * m == x * m - y * m;
  }

  lemma DivAtLeast(a: int, m: int, q: int)
    requires m > 0
    ensures q <= a / m <==> q * m <= a
  {
    var d := a / m;
    assert a == d * m + a % m;
    if q <= d {
      MulMonotone(q, d, m);
    } else {
      MulMonotone(d + 1, q, m);
      assert (d + 1) * m == d * m + m;
    }
  }

  lemma DivIs(a: int, m: int, q: int)
    requires m > 0
    ensures a / m == q <==> q * m <= a < (q + 1) * m
  {
    DivAtLeast(a, m, q);
    DivAtLeast(a, m, q + 1);
  }

  /** Truncating division by the seconds finds the span. */
  lemma TruncDivIs(u: int, m: int, k: int)
    requires m > 0
    ensures TruncDiv(u, m) == k <==> SpanStart(k, m) <= u < SpanEnd(k, m)
  {
    if u >= 0 {
      DivIs(u, m, k);
      if k < 0 { MulMonotone(k, -1, m); }
      if k > 0 { MulMonotone(1, k, m); }
    } else {
      DivIs(-u, m, -k);
      assert (-k) * m == -(k * m) && (-k + 1) * m == -((k - 1) * m);
      if k > 0 { MulMonotone(1, k, m); }
    }
  }

  lemma BucketIsSpan(b: Info, k: int, seconds: int)
    requires seconds > 0
    ensures Bucket(b, seconds) == k <==> InSpan(b.createdAt, k, seconds)
  {
    var u := b.createdAt / 1_000_000_000;
    TruncDivIs(u, seconds, k);
    DivAtLeast(b.createdAt, 1_000_000_000, SpanStart(k, seconds));
    DivAtLeast(b.createdAt, 1_000_000_000, SpanEnd(k, seconds));
  }

  // ---- the counting rules ----

  ghost predicate NewestFirst(s: seq<Info>) {
    forall i, j :: 0 <= i < j < |s| ==> s[i].createdAt > s[j].createdAt
  }

  /** The distinct buckets newer than bucket k. */
  function BucketsAbove(s: seq<Info>, k: int, seconds: int): set<int>
    requires seconds > 0
  {
    set b | b in s && Bucket(b, seconds) > k :: Bucket(b, seconds)
  }

  /** s[i] comes first in its bucket, and fewer than count distinct buckets are newer. */
  ghost predicate BucketRule(s: seq<Info>, i: int, count: int, seconds: int)
    requires 0 <= i < |s| && seconds > 0
  {
    && (forall j :: 0 <= j < i ==> Bucket(s[j], seconds) != Bucket(s[i], seconds))
    && |BucketsAbove(s, Bucket(s[i], seconds), seconds)| < count
  }

  ghost function BucketKept(s: seq<Info>, count: int, seconds: int): set<string>
    requires seconds > 0
  {
    set i | 0 <= i < |s| && BucketRule(s, i, count, seconds) :: s[i].id
  }

  /** What the policy selects from a list sorted newest first. */
  ghost function KeepSet(s: seq<Info>, p: Policy): set<string> {
    (set i | 0 <= i < |s| && i < p.keepLast :: s[i].id)
    + BucketKept(s, p.keepHourly, HOUR) + BucketKept(s, p.keepDaily, DAY)
    + BucketKept(s, p.keepWeekly, WEEK) + BucketKept(s, p.keepMonthly, MONTH)
  }

  // ---- the selection, from the clock ----

  /** No backup of the list that lies in span k is newer than b. */
  ghost predicate NewestOfSpan(s: seq<Info>, b: Info, k: int, seconds: int) {
    forall c :: c in s && InSpan(c.createdAt, k, seconds) ==> c.createdAt <= b.createdAt
  }

  ghost predicate Occupied(s: seq<Info>, k: int, seconds: int) {
    exists c :: c in s && InSpan(c.createdAt, k, seconds)
  }

  /** These are the spans after span k that hold a backup of the list. */
  ghost predicate SpansAfter(s: seq<Info>, k: int, seconds: int, later: set<int>) {
    forall j :: j in later <==> j > k && Occupied(s, j, seconds)
  }

  /** b is the newest backup of its span, and fewer than count later spans hold one. */
  ghost predicate SpanKeeps(s: seq<Info>, b: Info, count: int, seconds: int) {
    exists k, later ::
      InSpan(b.createdAt, k, seconds) && NewestOfSpan(s, b, k, seconds) && SpansAfter(s, k, seconds, later) && |later| < count
  }

  /** Fewer than count backups of the list are newer than b. */
  ghost predicate AmongLast(s: seq<Info>, b: Info, count: int) {
    |set c | c in s && c.createdAt > b.createdAt| < count
  }

  /** What a policy asks to keep of a list in any order: its last ones, and the
      newest of each of the last spans of an hour, a day, a week and thirty days. */
  ghost predicate Selected(s: seq<Info>, p: Policy, b: Info) {
    || AmongLast(s, b, p.keepLast)
    || SpanKeeps(s, b, p.keepHourly, 3600)
    || SpanKeeps(s, b, p.keepDaily, 86400)
    || SpanKeeps(s, b, p.keepWeekly, 604800)
    || SpanKeeps(s, b, p.keepMonthly, 2592000)
  }

  lemma BucketRuleKeeps(s: seq<Info>, i: nat, count: int, seconds: int)
    requires NewestFirst(s) && i < |s| && seconds > 0 && BucketRule(s, i, count, seconds)
    ensures SpanKeeps(s, s[i], count, seconds)
  {
    var b, k := s[i], Bucket(s[i], seconds);
    var later := BucketsAbove(s, k, seconds);
    BucketIsSpan(b, k, seconds);
    forall c | c in s && InSpan(c.createdAt, k, seconds) ensures c.createdAt <= b.createdAt {
      BucketIsSpan(c, k, seconds);
      var j :| 0 <= j < |s| && s[j] == c;
      assert j >= i;
    }
    AboveAreAfter(s, k, seconds);
  }

  lemma AboveAreAfter(s: seq<Info>, k: int, seconds: int)
    requires seconds > 0
    ensures SpansAfter(s, k, seconds, BucketsAbove(s, k, seconds))
  {
    forall j ensures j in BucketsAbove(s, k, seconds) <==> j > k && Occupied(s, j, seconds) {
      if j in BucketsAbove(s, k, seconds) {
        var c :| c in s && Bucket(c, seconds) == j;
        BucketIsSpan(c, j, seconds);
      }
      if j > k && Occupied(s, j, seconds) {
        var c :| c in s && InSpan(c.createdAt, j, seconds);
        BucketIsSpan(c, j, seconds);
      }
    }
  }

  lemma KeepsBucketRule(s: seq<Info>, i: nat, count: int, seconds: int)
    requires NewestFirst(s) && i < |s| && seconds > 0 && SpanKeeps(s, s[i], count, seconds)
    ensures BucketRule(s, i, count, seconds)
  {
    var b := s[i];
    var k, later :| InSpan(b.createdAt, k, seconds) && NewestOfSpan(s, b, k, seconds)
                    && SpansAfter(s, k, seconds, later) && |later| < count;
    BucketIsSpan(b, k, seconds);
    forall j | 0 <= j < i ensures Bucket(s[j], seconds) != k {
      assert s[j] in s && s[j].createdAt > b.createdAt;
      BucketIsSpan(s[j], k, seconds);
    }
    AboveAreAfter(s, k, seconds);
    OneSetAfter(s, k, seconds, BucketsAbove(s, k, seconds), later);
  }

  lemma OneSetAfter(s: seq<Info>, k: int, seconds: int, a: set<int>, b: set<int>)
    requires SpansAfter(s, k, seconds, a) && SpansAfter(s, k, seconds, b)
    ensures a == b
  {
    assert forall j :: j in a <==> j in b;
  }

  lemma BucketKeptIff(s: seq<Info>, i: nat, count: int, seconds: int)
    requires NewestFirst(s) && DistinctIds(s) && i < |s| && seconds > 0
    ensures s[i].id in BucketKept(s, count, seconds) <==> SpanKeeps(s, s[i], count, seconds)
  {
    if SpanKeeps(s, s[i], count, seconds) {
      KeepsBucketRule(s, i, count, seconds);
    }
    if s[i].id in BucketKept(s, count, seconds) {
      var j :| 0 <= j < |s| && BucketRule(s, j, count, seconds) && s[j].id == s[i].id;
      assert j == i;
      BucketRuleKeeps(s, i, count, seconds);
    }
  }

  lemma FirstIff(s: seq<Info>, i: nat, count: int)
    requires NewestFirst(s) && DistinctIds(s) && i < |s|
    ensures s[i].id in (set j | 0 <= j < |s| && j < count :: s[j].id) <==> AmongLast(s, s[i], count)
  {
    var newer := set c | c in s && c.createdAt > s[i].createdAt;
    SetOfPrefix(s, i);
    forall c ensures c in newer <==> c in (set j | 0 <= j < i :: s[j]) {
      if c in newer {
        var j :| 0 <= j < |s| && s[j] == c;
        assert j < i;
      }
    }
    assert newer == (set j | 0 <= j < i :: s[j]);
  }

  /** The policy's set is what the clock says, count by count and span by span. */
  lemma SelectedIff(s: seq<Info>, p: Policy, b: Info)
    requires NewestFirst(s) && DistinctIds(s) && b in s
    ensures b.id in KeepSet(s, p) <==> Selected(s, p, b)
  {
    var i :| 0 <= i < |s| && s[i] == b;
    FirstIff(s, i, p.keepLast);
    BucketKeptIff(s, i, p.keepHourly, 3600);
    BucketKeptIff(s, i, p.keepDaily, 86400);
    BucketKeptIff(s, i, p.keepWeekly, 604800);
    BucketKeptIff(s, i, p.keepMonthly, 2592000);
  }

  /** The order of the list plays no part in what is asked for. */
  lemma SelectedAnyOrder(s: seq<Info>, r: seq<Info>, p: Policy, b: Info)
    requires forall c :: c in s <==> c in r
    ensures Selected(s, p, b) <==> Selected(r, p, b)
  {
    assert (set c | c in s && c.createdAt > b.createdAt) == (set c | c in r && c.createdAt > b.createdAt);
    SpanKeepsAnyOrder(s, r, b, p.keepHourly, 3600);
    SpanKeepsAnyOrder(s, r, b, p.keepDaily, 86400);
    SpanKeepsAnyOrder(s, r, b, p.keepWeekly, 604800);
    SpanKeepsAnyOrder(s, r, b, p.keepMonthly, 2592000);
  }

  lemma SpanKeepsAnyOrder(s: seq<Info>, r: seq<Info>, b: Info, count: int, seconds: int)
    requires forall c :: c in s <==> c in r
    ensures SpanKeeps(s, b, count, seconds) <==> SpanKeeps(r, b, count, seconds)
  {
    assert forall j :: Occupied(s, j, seconds) <==> Occupied(r, j, seconds);
    assert forall k, later :: SpansAfter(s, k, seconds, later) <==> SpansAfter(r, k, seconds, later);
    assert forall k :: NewestOfSpan(s, b, k, seconds) <==> NewestOfSpan(r, b, k, seconds);
  }

  lemma NewestInBucketRule(s: seq<Info>, count: int, seconds: int)
    requires |s| > 0 && NewestFirst(s) && seconds > 0
    ensures BucketRule(s, 0, count, seconds) <==> count > 0
  {
    forall b | b in s ensures Bucket(b, seconds) <= Bucket(s[0], seconds) {
      var i :| 0 <= i < |s| && s[i] == b;
      if i > 0 { BucketMonotone(s[i], s[0], seconds); }
    }
    assert BucketsAbove(s, Bucket(s[0], seconds), seconds) == {};
  }

  /** The newest backup is selected exactly when some rule is positive. A policy
      with a negative count and no positive one selects nothing at all. */
  lemma NewestSelectedIff(s: seq<Info>, p: Policy)
    requires |s| > 0 && NewestFirst(s) && DistinctIds(s)
    ensures s[0].id in KeepSet(s, p) <==> SomePositiveRule(p)
    ensures !SomePositiveRule(p) ==> KeepSet(s, p) == {}
  {
    NewestInBucketRule(s, p.keepHourly, HOUR);
    NewestInBucketRule(s, p.keepDaily, DAY);
    NewestInBucketRule(s, p.keepWeekly, WEEK);
    NewestInBucketRule(s, p.keepMonthly, MONTH);
    if p.keepLast > 0 { assert s[0].id in (set i | 0 <= i < |s| && i < p.keepLast :: s[i].id); }
    if p.keepHourly > 0 { assert s[0].id in BucketKept(s, p.keepHourly, HOUR); }
    if p.keepDaily > 0 { assert s[0].id in BucketKept(s, p.keepDaily, DAY); }
    if p.keepWeekly > 0 { assert s[0].id in BucketKept(s, p.keepWeekly, WEEK); }
    if p.keepMonthly > 0 { assert s[0].id in BucketKept(s, p.keepMonthly, MONTH); }
    if !SomePositiveRule(p) {
      assert BucketKept(s, p.keepHourly, HOUR) == {};
      assert BucketKept(s, p.keepDaily, DAY) == {};
      assert BucketKept(s, p.keepWeekly, WEEK) == {};
      assert BucketKept(s, p.keepMonthly, MONTH) == {};
    }
  }

  // ---- the selection only grows when unselected backups go ----

  /** Taking elements away moves nobody further from the front. */
  lemma IndexShrinks(s: seq<Info>, i: nat, r: seq<Info>, k: nat)
    requires NewestFirst(s) && NewestFirst(r) && i < |s| && k < |r| && s[i] == r[k]
    requires forall b :: b in r ==> b in s
    ensures k <= i
  {
    var front := set j | 0 <= j < k :: r[j];
    var whole := set j | 0 <= j < i :: s[j];
    forall b | b in front ensures b in whole {
      var j :| 0 <= j < k && r[j] == b;
      assert b in r;
      var m :| 0 <= m < |s| && s[m] == b;
      assert b.createdAt > s[i].createdAt;
    }
    SetOfPrefix(r, k);
    PrefixAtMost(s, i);
    CardinalityMonotone(front, whole);
  }

  lemma {:induction false} SetOfPrefix(s: seq<Info>, k: nat)
    requires NewestFirst(s) && k <= |s|
    ensures |set j | 0 <= j < k :: s[j]| == k
  {
    if k > 0 {
      SetOfPrefix(s, k - 1);
      assert (set j | 0 <= j < k :: s[j]) == (set j | 0 <= j < k - 1 :: s[j]) + {s[k - 1]};
      assert s[k - 1] !in (set j | 0 <= j < k - 1 :: s[j]);
    }
  }

  lemma {:induction false} PrefixAtMost(s: seq<Info>, k: nat)
    requires k <= |s|
    ensures |set j | 0 <= j < k :: s[j]| <= k
  {
    if k > 0 {
      PrefixAtMost(s, k - 1);
      assert (set j | 0 <= j < k :: s[j]) == (set j | 0 <= j < k - 1 :: s[j]) + {s[k - 1]};
    }
  }

  lemma CardinalityMonotone<T>(a: set<T>, b: set<T>)
    requires a <= b
    ensures |a| <= |b|
  {
    assert b == a + (b - a);
  }

  lemma BucketRuleGrows(s: seq<Info>, i: nat, r: seq<Info>, k: nat, count: int, seconds: int)
    requires NewestFirst(s) && NewestFirst(r) && i < |s| && k < |r| && s[i] == r[k] && seconds > 0
    requires forall b :: b in r ==> b in s
    requires BucketRule(s, i, count, seconds)
    ensures BucketRule(r, k, count, seconds)
  {
    forall j | 0 <= j < k ensures Bucket(r[j], seconds) != Bucket(r[k], seconds) {
      assert r[j] in r;
      var m :| 0 <= m < |s| && s[m] == r[j];
      assert m < i;
    }
    CardinalityMonotone(BucketsAbove(r, Bucket(r[k], seconds), seconds),
                        BucketsAbove(s, Bucket(s[i], seconds), seconds));
  }

  lemma BucketKeptGrows(s: seq<Info>, r: seq<Info>, b: Info, count: int, seconds: int)
    requires NewestFirst(s) && NewestFirst(r) && DistinctIds(s) && seconds > 0
    requires b in s && b in r && forall c :: c in r ==> c in s
    requires b.id in BucketKept(s, count, seconds)
    ensures b.id in BucketKept(r, count, seconds)
  {
    var i :| 0 <= i < |s| && BucketRule(s, i, count, seconds) && s[i].id == b.id;
    var m :| 0 <= m < |s| && s[m] == b;
    assert m == i;
    var k :| 0 <= k < |r| && r[k] == b;
    BucketRuleGrows(s, i, r, k, count, seconds);
  }

  /** Every selected backup that is still there stays selected. */
  lemma KeepSetGrows(s: seq<Info>, r: seq<Info>, b: Info, p: Policy)
    requires NewestFirst(s) && NewestFirst(r) && DistinctIds(s)
    requires b in s && b in r && forall c :: c in r ==> c in s
    requires b.id in KeepSet(s, p)
    ensures b.id in KeepSet(r, p)
  {
    if b.id in BucketKept(s, p.keepHourly, HOUR) {
      BucketKeptGrows(s, r, b, p.keepHourly, HOUR);
    } else if b.id in BucketKept(s, p.keepDaily, DAY) {
      BucketKeptGrows(s, r, b, p.keepDaily, DAY);
    } else if b.id in BucketKept(s, p.keepWeekly, WEEK) {
      BucketKeptGrows(s, r, b, p.keepWeekly, WEEK);
    } else if b.id in BucketKept(s, p.keepMonthly, MONTH) {
      BucketKeptGrows(s, r, b, p.keepMonthly, MONTH);
    } else {
      var i :| 0 <= i < |s| && i < p.keepLast && s[i].id == b.id;
      var m :| 0 <= m < |s| && s[m] == b;
      assert m == i;
      var k :| 0 <= k < |r| && r[k] == b;
      IndexShrinks(s, i, r, k);
      assert r[k].id in (set j | 0 <= j < |r| && j < p.keepLast :: r[j].id);
    }
  }

  // ---- sorting newest first ----

  function InsertNewest(b: Info, s: seq<Info>): (r: seq<Info>)
    ensures multiset(r) == multiset(s) + multiset{b}
  {
    if s == [] then [b]
    else if b.createdAt > s[0].createdAt then [b] + s
    else
      assert s == [s[0]] + s[1..];
      [s[0]] + InsertNewest(b, s[1..])
  }

  /** sort.Slice by CreatedAt, newest first. */
  function SortNewest(s: seq<Info>): (r: seq<Info>)
    ensures multiset(r) == multiset(s)
  {
    if s == [] then [] else
      assert s == [s[0]] + s[1..];
      InsertNewest(s[0], SortNewest(s[1..]))
  }

  ghost predicate DistinctTimes(s: seq<Info>) {
    forall i, j :: 0 <= i < j < |s| ==> s[i].createdAt != s[j].createdAt
  }

  lemma SameElements(s: seq<Info>, r: seq<Info>)
    requires multiset(s) == multiset(r)
    ensures |s| == |r| && forall b :: b in s <==> b in r
  {
    assert |multiset(s)| == |multiset(r)|;
    forall b ensures b in s <==> b in r {
      assert b in s <==> b in multiset(s);
      assert b in r <==> b in multiset(r);
    }
  }

  lemma {:induction false} InsertNewestSorted(b: Info, s: seq<Info>)
    requires NewestFirst(s) && forall c :: c in s ==> c.createdAt != b.createdAt
    ensures NewestFirst(InsertNewest(b, s))
  {
    if s != [] && b.createdAt <= s[0].createdAt {
      assert s[0] in s;
      forall c | c in s[1..] ensures c.createdAt != b.createdAt { assert c in s; }
      InsertNewestSorted(b, s[1..]);
      var r := InsertNewest(b, s[1..]);
      SameElements(r, s[1..] + [b]);
      forall j | 0 <= j < |r| ensures s[0].createdAt > r[j].createdAt {
        assert r[j] in s[1..] + [b];
      }
    }
  }

  /** Whatever the order of the list, sorting gives the newest-first order of its elements. */
  lemma {:induction false} SortNewestSorted(s: seq<Info>)
    requires DistinctTimes(s)
    ensures NewestFirst(SortNewest(s))
    ensures |SortNewest(s)| == |s| && forall b :: b in SortNewest(s) <==> b in s
  {
    SameElements(SortNewest(s), s);
    if s != [] {
      SortNewestSorted(s[1..]);
      InsertNewestSorted(s[0], SortNewest(s[1..]));
    }
  }

  lemma NewestFirstDistinct(s: seq<Info>, r: seq<Info>)
    requires NewestFirst(s) && DistinctIds(r) && forall b :: b in s ==> b in r
    ensures DistinctIds(s)
  {
    forall i, j | 0 <= i < j < |s| ensures s[i].id != s[j].id {
      assert s[i] in s && s[j] in s;
      var m :| 0 <= m < |r| && r[m] == s[i];
      var n :| 0 <= n < |r| && r[n] == s[j];
      assert m != n;
    }
  }

  // ---- the deletion pass ----

  /** What one pass works with: the selected IDs, the policy, the instant, and
      the IDs whose data cannot be removed. */
  datatype Plan = Plan(keep: set<string>, policy: Policy, now: int, stuck: set<string>) {
    ghost predicate Spares(b: Info) {
      b.id in keep || TooYoung(policy, now, b)
    }
  }

  ghost predicate Protected(t: Table, b: Info, plan: Plan) {
    plan.Spares(b) || Referenced(t, b)
  }

  /** One turn of the deletion loop. */
  ghost function Turn(t: Table, b: Info, plan: Plan): Table {
    if Protected(t, b, plan) || !Recorded(t, b) then t else AfterDelete(t, b, b.id in plan.stuck)
  }

  /** The deletion loop over the sorted list. */
  ghost function Pass(order: seq<Info>, plan: Plan, t: Table): Table {
    if order == [] then t else Pass(order[1..], plan, Turn(t, order[0], plan))
  }

  ghost predicate AllRecorded(t: Table, order: seq<Info>) {
    forall i :: 0 <= i < |order| ==> Recorded(t, order[i])
  }

  /** Bases of records in the list come after them: they are older. */
  ghost predicate BasesLater(order: seq<Info>) {
    forall i, j :: 0 <= i < |order| && 0 <= j < |order| && IsBaseOf(order[j], order[i]) ==> i < j
  }

  ghost predicate Ready(t: Table, order: seq<Info>) {
    ValidTable(t) && AllRecorded(t, order) && DistinctIds(order)
  }

  lemma TurnFacts(t: Table, order: seq<Info>, plan: Plan)
    requires Ready(t, order) && order != []
    ensures Ready(Turn(t, order[0], plan), order[1..])
    ensures forall c :: Recorded(Turn(t, order[0], plan), c) <==>
                        Recorded(t, c) && (c.id != order[0].id || Protected(t, order[0], plan) || c.id in plan.stuck)
  {
    var b := order[0];
    if !Protected(t, b, plan) {
      AfterDeleteValid(t, b, b.id in plan.stuck);
    }
    var t' := Turn(t, b, plan);
    forall i | 0 <= i < |order[1..]| ensures Recorded(t', order[1..][i]) {
      assert order[1..][i] == order[i + 1];
    }
  }

  lemma {:induction false} PassShrinks(order: seq<Info>, plan: Plan, t: Table)
    requires Ready(t, order)
    ensures ValidTable(Pass(order, plan, t))
    ensures forall b :: Recorded(Pass(order, plan, t), b) ==> Recorded(t, b)
  {
    if order != [] {
      TurnFacts(t, order, plan);
      PassShrinks(order[1..], plan, Turn(t, order[0], plan));
    }
  }

  lemma {:induction false} PassSpares(order: seq<Info>, plan: Plan, t: Table, b: Info)
    requires Ready(t, order) && Recorded(t, b)
    requires b !in order || plan.Spares(b) || b.id in plan.stuck
    ensures Recorded(Pass(order, plan, t), b)
  {
    if order != [] {
      TurnFacts(t, order, plan);
      assert b.id == order[0].id ==> b == order[0];
      PassSpares(order[1..], plan, Turn(t, order[0], plan), b);
    }
  }

  /** s contains every base, recorded in t, of each of its members. */
  ghost predicate ClosedUnderBase(t: Table, s: set<Info>) {
    forall x, y :: x in s && Recorded(t, y) && IsBaseOf(y, x) ==> y in s
  }

  /** What the pass spares is closed under "base of", whatever the order. */
  lemma {:induction false} PassKeepsBases(order: seq<Info>, plan: Plan, t: Table, x: Info, y: Info)
    requires Ready(t, order)
    requires Recorded(Pass(order, plan, t), x) && Recorded(t, y) && IsBaseOf(y, x)
    ensures Recorded(Pass(order, plan, t), y)
  {
    if order != [] {
      TurnFacts(t, order, plan);
      var t' := Turn(t, order[0], plan);
      PassShrinks(order[1..], plan, t');
      assert Recorded(t, x);
      assert y.id == order[0].id ==> Referenced(t, order[0]);
      PassKeepsBases(order[1..], plan, t', x, y);
    }
  }

  lemma HeadReferencedFromOutside(order: seq<Info>, z: Info)
    requires order != [] && BasesLater(order) && IsBaseOf(order[0], z)
    ensures z !in order && BasesLater(order[1..])
  {
    assert forall k :: 0 <= k < |order| ==> !IsBaseOf(order[0], order[k]);
    TailBasesLater(order);
  }

  lemma TailBasesLater(order: seq<Info>)
    requires order != [] && BasesLater(order)
    ensures BasesLater(order[1..])
  {
    var rest := order[1..];
    forall i, j | 0 <= i < |rest| && 0 <= j < |rest| && IsBaseOf(rest[j], rest[i]) ensures i < j {
      assert IsBaseOf(order[j + 1], order[i + 1]);
    }
  }

  /** Any set closed under "base of" that holds the spared, the stuck and
      everything outside the list holds all the pass leaves. */
  lemma {:induction false} PassIsLeast(order: seq<Info>, plan: Plan, t: Table, s: set<Info>)
    requires Ready(t, order) && BasesLater(order) && ClosedUnderBase(t, s)
    requires forall b :: Recorded(t, b) && b !in order ==> b in s
    requires forall b :: b in order && (plan.Spares(b) || b.id in plan.stuck) ==> b in s
    ensures forall b :: Recorded(Pass(order, plan, t), b) ==> b in s
  {
    if order != [] {
      var b := order[0];
      TurnFacts(t, order, plan);
      TailBasesLater(order);
      if Referenced(t, b) {
        var z :| Recorded(t, z) && IsBaseOf(b, z);
        HeadReferencedFromOutside(order, z);
        assert b in s;
      }
      assert forall c :: c in order ==> c == b || c in order[1..];
      PassIsLeast(order[1..], plan, Turn(t, b, plan), s);
    }
  }

  /** Each survivor of a pass has its reason in the final table, or is stuck. */
  lemma {:induction false} SurvivorsHaveReasons(order: seq<Info>, plan: Plan, t: Table, b: Info)
    requires Ready(t, order) && BasesLater(order)
    requires b in order && Recorded(Pass(order, plan, t), b)
    ensures Protected(Pass(order, plan, t), b, plan) || b.id in plan.stuck
  {
    var rest := order[1..];
    var t' := Turn(t, order[0], plan);
    TurnFacts(t, order, plan);
    TailBasesLater(order);
    PassShrinks(rest, plan, t');
    if b != order[0] {
      SurvivorsHaveReasons(rest, plan, t', b);
    } else if Referenced(t, b) {
      var z :| Recorded(t, z) && IsBaseOf(b, z);
      HeadReferencedFromOutside(order, z);
      PassSpares(rest, plan, t', z);
    }
  }

  lemma {:induction false} PassOverProtected(order: seq<Info>, plan: Plan, t: Table)
    requires forall i :: 0 <= i < |order| ==> Protected(t, order[i], plan)
    ensures Pass(order, plan, t) == t
  {
    if order != [] {
      PassOverProtected(order[1..], plan, t);
    }
  }

  // ---- applyRetention as a whole ----

  ghost function PlanFor(order: seq<Info>, p: Policy, now: int, stuck: set<string>): Plan {
    Plan(KeepSet(order, p), p, now, stuck)
  }

  /** The table after applyRetention of one instance. */
  ghost function Retained(t: Table, inst: string, p: Policy, now: int, stuck: set<string>): Table {
    if NoRule(p) || inst !in t then t
    else
      var order := SortNewest(t[inst]);
      Pass(order, PlanFor(order, p, now, stuck), t)
  }

  /** Within an instance creation times differ and a base is older than what was sent against it. */
  ghost predicate BasesOlder(t: Table) {
    && (forall inst :: inst in t ==> DistinctTimes(t[inst]))
    && (forall x, y :: Recorded(t, x) && Recorded(t, y) && x.instance == y.instance && IsBaseOf(y, x) ==>
          y.createdAt < x.createdAt)
  }

  lemma OrderFacts(t: Table, inst: string)
    requires ValidTable(t) && BasesOlder(t) && inst in t
    ensures var order := SortNewest(t[inst]);
            NewestFirst(order) && Ready(t, order) && BasesLater(order) &&
            (forall b :: b in order <==> Recorded(t, b) && b.instance == inst)
  {
    var order := SortNewest(t[inst]);
    SortNewestSorted(t[inst]);
    NewestFirstDistinct(order, t[inst]);
    forall i | 0 <= i < |order| ensures Recorded(t, order[i]) && order[i].instance == inst {
      assert order[i] in order;
    }
  }

  /** Roots of retention, from the policy and the clock alone: everything if no
      count is set; other instances' records; and in this instance what is asked
      for, what was made less than the minimum age ago, and what is stuck. */
  ghost predicate Root(t: Table, inst: string, p: Policy, now: int, stuck: set<string>, b: Info)
    requires inst in t
  {
    || (p.keepLast == 0 && p.keepHourly == 0 && p.keepDaily == 0 && p.keepWeekly == 0 && p.keepMonthly == 0)
    || b.instance != inst || b.id in stuck
    || (p.minAge > 0 && now < b.createdAt + p.minAge)
    || Selected(t[inst], p, b)
  }

  lemma RootIff(t: Table, inst: string, p: Policy, now: int, stuck: set<string>, b: Info)
    requires ValidTable(t) && BasesOlder(t) && inst in t && Recorded(t, b) && b.instance == inst
    ensures var order := SortNewest(t[inst]);
            Root(t, inst, p, now, stuck, b) <==> NoRule(p) || PlanFor(order, p, now, stuck).Spares(b) || b.id in stuck
  {
    OrderFacts(t, inst);
    SortNewestSorted(t[inst]);
    var order := SortNewest(t[inst]);
    SelectedIff(order, p, b);
    SelectedAnyOrder(order, t[inst], p, b);
  }

  /** Whatever the policy, one pass leaves exactly the least set of records that
      holds every root and is closed under "base of": it holds the roots, it is
      closed, and it lies inside every such set. */
  lemma RetentionLeavesLeastClosedSet(t: Table, inst: string, p: Policy, now: int, stuck: set<string>)
    requires ValidTable(t) && BasesOlder(t) && inst in t
    ensures var t' := Retained(t, inst, p, now, stuck);
            && ValidTable(t')
            && (forall b :: Recorded(t', b) ==> Recorded(t, b))
            && (forall b :: Recorded(t, b) && Root(t, inst, p, now, stuck, b) ==> Recorded(t', b))
            && (forall x, y :: Recorded(t', x) && Recorded(t, y) && IsBaseOf(y, x) ==> Recorded(t', y))
            && (forall s: set<Info> ::
                  ClosedUnderBase(t, s) &&
                  (forall b :: Recorded(t, b) && Root(t, inst, p, now, stuck, b) ==> b in s) ==>
                  (forall b :: Recorded(t', b) ==> b in s))
  {
    if !NoRule(p) {
      OrderFacts(t, inst);
      var order := SortNewest(t[inst]);
      var plan := PlanFor(order, p, now, stuck);
      PassShrinks(order, plan, t);
      forall b | Recorded(t, b) && Root(t, inst, p, now, stuck, b) ensures Recorded(Pass(order, plan, t), b) {
        if b.instance == inst { RootIff(t, inst, p, now, stuck, b); }
        PassSpares(order, plan, t, b);
      }
      forall x, y | Recorded(Pass(order, plan, t), x) && Recorded(t, y) && IsBaseOf(y, x)
        ensures Recorded(Pass(order, plan, t), y)
      {
        PassKeepsBases(order, plan, t, x, y);
      }
      forall s: set<Info> |
        ClosedUnderBase(t, s) && (forall b :: Recorded(t, b) && Root(t, inst, p, now, stuck, b) ==> b in s)
        ensures forall b :: Recorded(Pass(order, plan, t), b) ==> b in s
      {
        forall b | b in order && (plan.Spares(b) || b.id in stuck) ensures b in s {
          RootIff(t, inst, p, now, stuck, b);
        }
        PassIsLeast(order, plan, t, s);
      }
    }
  }

  /** The newest backup of the instance survives whenever some rule is positive. */
  lemma NewestSurvives(t: Table, inst: string, p: Policy, now: int, stuck: set<string>, newest: Info)
    requires ValidTable(t) && BasesOlder(t) && inst in t && newest in t[inst]
    requires forall b :: b in t[inst] ==> b.createdAt <= newest.createdAt
    requires SomePositiveRule(p)
    ensures Recorded(Retained(t, inst, p, now, stuck), newest)
  {
    OrderFacts(t, inst);
    SortNewestSorted(t[inst]);
    var order := SortNewest(t[inst]);
    var i :| 0 <= i < |order| && order[i] == newest;
    assert order[0] in order;
    assert i == 0;
    NewestSelectedIff(order, p);
    PassSpares(order, PlanFor(order, p, now, stuck), t, newest);
  }

  /** What becomes of the first in the list is settled in its own turn. */
  lemma {:induction false} HeadSurvivesIff(order: seq<Info>, plan: Plan, t: Table)
    requires Ready(t, order) && order != []
    ensures Recorded(Pass(order, plan, t), order[0]) <==> Protected(t, order[0], plan) || order[0].id in plan.stuck
  {
    var b, rest, t' := order[0], order[1..], Turn(t, order[0], plan);
    TurnFacts(t, order, plan);
    PassShrinks(rest, plan, t');
    assert b !in rest;
    if Recorded(t', b) { PassSpares(rest, plan, t', b); }
  }

  /** The newest backup of the instance survives a pass exactly when the policy
      has no rule at all or a positive one, or the backup is too young, cannot be
      removed, or is referenced from another instance. */
  lemma NewestSurvivesIff(t: Table, inst: string, p: Policy, now: int, stuck: set<string>, newest: Info)
    requires ValidTable(t) && BasesOlder(t) && inst in t && newest in t[inst]
    requires forall b :: b in t[inst] ==> b.createdAt <= newest.createdAt
    ensures Recorded(Retained(t, inst, p, now, stuck), newest) <==>
            NoRule(p) || SomePositiveRule(p) || TooYoung(p, now, newest) || newest.id in stuck || Referenced(t, newest)
  {
    OrderFacts(t, inst);
    SortNewestSorted(t[inst]);
    var order := SortNewest(t[inst]);
    var i :| 0 <= i < |order| && order[i] == newest;
    assert order[0] in order;
    assert i == 0;
    NewestSelectedIff(order, p);
    if !NoRule(p) { HeadSurvivesIff(order, PlanFor(order, p, now, stuck), t); }
  }

  /** A policy that counts -1 is not refused, is not "no rule", and deletes the
      only, newest and complete backup of an instance. */
  lemma NegativeCountDeletesNewest(now: int)
    ensures var b := Info("web-1", "web", Full, Completed, 1, "zroot/web", "s1", "/backup/web-1.zfs", "");
            var t: Table := map["web" := [b]];
            ValidTable(t) && BasesOlder(t) && Recorded(t, b) &&
            !Recorded(Retained(t, "web", Policy(-1, 0, 0, 0, 0, 0), now, {}), b)
  {
    var b := Info("web-1", "web", Full, Completed, 1, "zroot/web", "s1", "/backup/web-1.zfs", "");
    var t: Table := map["web" := [b]];
    assert forall x :: Recorded(t, x) ==> x == b;
    NewestSurvivesIff(t, "web", Policy(-1, 0, 0, 0, 0, 0), now, {}, b);
  }

  lemma RetainedBasesOlder(t: Table, inst: string, p: Policy, now: int, stuck: set<string>)
    requires ValidTable(t) && BasesOlder(t)
    ensures ValidTable(Retained(t, inst, p, now, stuck))
    ensures BasesOlder(Retained(t, inst, p, now, stuck))
    ensures forall b :: Recorded(Retained(t, inst, p, now, stuck), b) ==> Recorded(t, b)
  {
    if !NoRule(p) && inst in t {
      OrderFacts(t, inst);
      var order := SortNewest(t[inst]);
      PassShrinks(order, PlanFor(order, p, now, stuck), t);
      SubtableBasesOlder(t, Retained(t, inst, p, now, stuck));
    }
  }

  lemma SubtableBasesOlder(t: Table, t': Table)
    requires ValidTable(t) && ValidTable(t') && BasesOlder(t)
    requires forall b :: Recorded(t', b) ==> Recorded(t, b)
    ensures BasesOlder(t')
  {
    forall k, i, j | k in t' && 0 <= i < j < |t'[k]| ensures t'[k][i].createdAt != t'[k][j].createdAt {
      var b, c := t'[k][i], t'[k][j];
      assert Recorded(t', b) && Recorded(t', c);
      var m :| 0 <= m < |t[k]| && t[k][m] == b;
      var n :| 0 <= n < |t[k]| && t[k][n] == c;
      assert m != n;
    }
  }

  /** A pass over records that are all protected or stuck loses none. */
  lemma {:induction false} PassOverKept(order: seq<Info>, plan: Plan, t: Table)
    requires Ready(t, order)
    requires forall i :: 0 <= i < |order| ==> Protected(t, order[i], plan) || order[i].id in plan.stuck
    ensures forall b :: Recorded(Pass(order, plan, t), b) <==> Recorded(t, b)
  {
    if order != [] {
      var rest, t' := order[1..], Turn(t, order[0], plan);
      TurnFacts(t, order, plan);
      assert forall b :: Recorded(t', b) <==> Recorded(t, b);
      forall i | 0 <= i < |rest| ensures Protected(t', rest[i], plan) || rest[i].id in plan.stuck {
        assert rest[i] == order[i + 1];
        if Referenced(t, rest[i]) {
          var x :| Recorded(t, x) && IsBaseOf(rest[i], x);
          assert Recorded(t', x);
        }
      }
      PassOverKept(rest, plan, t');
    }
  }

  /** A second pass at the same instant finds nothing more to delete: with the
      same data stuck the same records are there after it, and with none stuck
      not even their order has changed. */
  lemma RetentionIdempotent(t: Table, inst: string, p: Policy, now: int, stuck: set<string>)
    requires ValidTable(t) && BasesOlder(t)
    ensures var t' := Retained(t, inst, p, now, stuck);
            (forall b :: Recorded(Retained(t', inst, p, now, stuck), b) <==> Recorded(t', b)) &&
            (stuck == {} ==> Retained(t', inst, p, now, stuck) == t')
  {
    var t' := Retained(t, inst, p, now, stuck);
    if !NoRule(p) && inst in t && inst in t' {
      OrderFacts(t, inst);
      RetainedBasesOlder(t, inst, p, now, stuck);
      OrderFacts(t', inst);
      var order' := SortNewest(t'[inst]);
      var plan := PlanFor(order', p, now, stuck);
      forall i | 0 <= i < |order'| ensures Protected(t', order'[i], plan) || order'[i].id in stuck {
        SurvivorStaysProtected(t, inst, p, now, stuck, order'[i]);
      }
      PassOverKept(order', plan, t');
      if stuck == {} { PassOverProtected(order', plan, t'); }
    }
  }

  lemma SurvivorStaysProtected(t: Table, inst: string, p: Policy, now: int, stuck: set<string>, b: Info)
    requires ValidTable(t) && BasesOlder(t) && inst in t && !NoRule(p)
    requires var t' := Retained(t, inst, p, now, stuck); inst in t' && Recorded(t', b) && b.instance == inst
    ensures var t' := Retained(t, inst, p, now, stuck);
            Protected(t', b, PlanFor(SortNewest(t'[inst]), p, now, stuck)) || b.id in stuck
  {
    var t' := Retained(t, inst, p, now, stuck);
    OrderFacts(t, inst);
    RetainedBasesOlder(t, inst, p, now, stuck);
    OrderFacts(t', inst);
    var order, order' := SortNewest(t[inst]), SortNewest(t'[inst]);
    SurvivorsHaveReasons(order, PlanFor(order, p, now, stuck), t, b);
    if b.id in KeepSet(order, p) {
      KeepSetGrows(order, order', b, p);
    }
  }
}
