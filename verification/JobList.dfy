/** The job list: rows of the datastore, filtered in the query, overlaid with
    the manager's live snapshots, filtered again, sorted and cut into pages. */
module JobList {
  import opened Text

  datatype Job = Job(id: string, status: string, createdAt: int, details: string)

  // ---- the order: newest first, then by ID ----

  /** Go's string comparison. */
  predicate Less(a: string, b: string) {
    if b == "" then false
    else if a == "" then true
    else if a[0] != b[0] then a[0] < b[0]
    else Less(a[1..], b[1..])
  }

  lemma {:induction false} LessIrreflexive(a: string)
    ensures !Less(a, a)
  {
    if a != "" { LessIrreflexive(a[1..]); }
  }

  lemma {:induction false} LessTotal(a: string, b: string)
    requires a != b
    ensures Less(a, b) || Less(b, a)
  {
    if a != "" && b != "" && a[0] == b[0] {
      assert a == [a[0]] + a[1..] && b == [b[0]] + b[1..];
      LessTotal(a[1..], b[1..]);
    }
  }

  lemma {:induction false} LessTransitive(a: string, b: string, c: string)
    requires Less(a, b) && Less(b, c)
    ensures Less(a, c)
  {
    if a != "" && a[0] == b[0] && b[0] == c[0] {
      LessTransitive(a[1..], b[1..], c[1..]);
    }
  }

  predicate Before(a: Job, b: Job) {
    if a.createdAt != b.createdAt then a.createdAt > b.createdAt else Less(a.id, b.id)
  }

  lemma BeforeTransitive(a: Job, b: Job, c: Job)
    requires Before(a, b) && Before(b, c)
    ensures Before(a, c)
  {
    if a.createdAt == b.createdAt == c.createdAt { LessTransitive(a.id, b.id, c.id); }
  }

  lemma BeforeIrreflexive(a: Job)
    ensures !Before(a, a)
  {
    LessIrreflexive(a.id);
  }

  ghost predicate Sorted(s: seq<Job>) {
    forall i, j :: 0 <= i < j < |s| ==> Before(s[i], s[j])
  }

  /** A sorted list is determined by its elements: no other order, and no other
      way of sorting, gives a different one. */
  lemma {:induction false} SortedIsUnique(s: seq<Job>, r: seq<Job>)
    requires Sorted(s) && Sorted(r) && forall x :: x in s <==> x in r
    ensures s == r
    decreases |s|
  {
    BothEmpty(s, r);
    if s != [] {
      assert s[0] in s && r[0] in r;
      HeadIsFirst(s, r[0]);
      HeadIsFirst(r, s[0]);
      if s[0] != r[0] {
        BeforeTransitive(s[0], r[0], s[0]);
        BeforeIrreflexive(s[0]);
        assert false;
      }
      TailElements(s);
      TailElements(r);
      SortedIsUnique(s[1..], r[1..]);
    }
  }

  lemma BothEmpty(s: seq<Job>, r: seq<Job>)
    requires forall x :: x in s <==> x in r
    ensures s == [] <==> r == []
  {
    if s != [] { assert s[0] in s; }
    if r != [] { assert r[0] in r; }
  }

  lemma HeadIsFirst(s: seq<Job>, x: Job)
    requires Sorted(s) && x in s
    ensures x == s[0] || Before(s[0], x)
  {
  }

  lemma TailElements(s: seq<Job>)
    requires Sorted(s) && s != []
    ensures forall x :: x in s[1..] <==> x in s && x != s[0]
  {
    BeforeIrreflexive(s[0]);
    forall x | x in s[1..] ensures x != s[0] {
      var i :| 0 <= i < |s[1..]| && s[1..][i] == x;
      assert Before(s[0], s[i + 1]);
    }
  }

  // ---- sorting ----

  function Insert(x: Job, s: seq<Job>): (r: seq<Job>)
    ensures forall y :: y in r <==> y == x || y in s
  {
    if s == [] then [x] else if Before(x, s[0]) then [x] + s else [s[0]] + Insert(x, s[1..])
  }

  /** sort.Slice. */
  function Sort(s: seq<Job>): (r: seq<Job>)
    ensures forall y :: y in r <==> y in s
  {
    if s == [] then [] else Insert(s[0], Sort(s[1..]))
  }

  ghost predicate DistinctIds(s: seq<Job>) {
    forall i, j :: 0 <= i < j < |s| ==> s[i].id != s[j].id
  }

  lemma {:induction false} InsertSorted(x: Job, s: seq<Job>)
    requires Sorted(s) && forall y :: y in s ==> y.id != x.id
    ensures Sorted(Insert(x, s))
  {
    if s != [] {
      assert s[0] in s;
      if Before(x, s[0]) {
        forall j | 0 < j < |s| ensures Before(x, s[j]) { BeforeTransitive(x, s[0], s[j]); }
      } else {
        LessTotal(x.id, s[0].id);
        assert Before(s[0], x);
        forall y | y in s[1..] ensures y.id != x.id { assert y in s; }
        InsertSorted(x, s[1..]);
        var r := Insert(x, s[1..]);
        forall j | 0 <= j < |r| ensures Before(s[0], r[j]) { assert r[j] in r; }
      }
    }
  }

  lemma {:induction false} SortSorted(s: seq<Job>)
    requires DistinctIds(s)
    ensures Sorted(Sort(s))
  {
    if s != [] {
      SortSorted(s[1..]);
      forall y | y in Sort(s[1..]) ensures y.id != s[0].id {
        var k :| 0 <= k < |s[1..]| && s[1..][k] == y;
        assert s[0].id != s[k + 1].id;
      }
      InsertSorted(s[0], Sort(s[1..]));
    }
  }

  // ---- merging ----

  /** None asks for every job. */
  predicate Matches(filter: Option<string>, j: Job) { filter.None? || j.status == filter.value }

  /** The query's WHERE status = ?. */
  function Rows(rows: seq<Job>, filter: Option<string>): (r: seq<Job>)
    ensures forall j :: j in r <==> j in rows && Matches(filter, j)
  {
    if rows == [] then [] else (if Matches(filter, rows[0]) then [rows[0]] else []) + Rows(rows[1..], filter)
  }

  lemma {:induction false} RowsDistinct(rows: seq<Job>, filter: Option<string>)
    requires DistinctIds(rows)
    ensures DistinctIds(Rows(rows, filter))
  {
    if rows != [] {
      RowsDistinct(rows[1..], filter);
      var rest := Rows(rows[1..], filter);
      forall j | 0 <= j < |rest| ensures rest[j].id != rows[0].id {
        assert rest[j] in rest;
        var k :| 0 <= k < |rows[1..]| && rows[1..][k] == rest[j];
        assert rows[0].id != rows[k + 1].id;
      }
    }
  }

  ghost predicate HasId(s: seq<Job>, id: string) { exists j :: j in s && j.id == id }

  /** A job is current if the manager has it, or only the datastore does. */
  ghost predicate Current(rows: seq<Job>, live: seq<Job>, j: Job) {
    j in live || (j in rows && !HasId(live, j.id))
  }

  /** The answer before paging: every current job that matches, newest first. */
  ghost predicate IsListing(rows: seq<Job>, live: seq<Job>, filter: Option<string>, full: seq<Job>) {
    Sorted(full) && forall j :: j in full <==> Current(rows, live, j) && Matches(filter, j)
  }

  /** Filtering the rows in the query first changes nothing: a row left out
      would have been overlaid or filtered out in the end. */
  lemma PushdownIsHarmless(rows: seq<Job>, live: seq<Job>, filter: Option<string>, full: seq<Job>)
    ensures IsListing(Rows(rows, filter), live, filter, full) <==> IsListing(rows, live, filter, full)
  {
    assert forall j :: Matches(filter, j) ==> (Current(Rows(rows, filter), live, j) <==> Current(rows, live, j));
  }

  /** The answer does not depend on the order rows or live jobs come in. */
  lemma ListingIsUnique(rows: seq<Job>, live: seq<Job>, rows': seq<Job>, live': seq<Job>, filter: Option<string>,
                        full: seq<Job>, full': seq<Job>)
    requires forall j :: j in rows <==> j in rows'
    requires forall j :: j in live <==> j in live'
    requires IsListing(rows, live, filter, full) && IsListing(rows', live', filter, full')
    ensures full == full'
  {
    forall j ensures Current(rows, live, j) <==> Current(rows', live', j) {
      assert HasId(live, j.id) <==> HasId(live', j.id);
    }
    SortedIsUnique(full, full');
  }

  // ---- pages ----

  const DEFAULT_PAGE := 100
  const MAX_PAGE := 1000

  /** jobPageParams on the raw query values; "" is an absent one. */
  function PageParams(rawLimit: string, rawOffset: string): (r: Option<(int, int)>)
    ensures r.Some? <==> (rawLimit == "" || (Atoi(rawLimit).Some? && Atoi(rawLimit).value >= 1)) &&
                         (rawOffset == "" || (Atoi(rawOffset).Some? && Atoi(rawOffset).value >= 0))
    ensures r.Some? ==> 1 <= r.value.0 <= 1000 && 0 <= r.value.1
    ensures r.Some? && rawLimit == "" ==> r.value.0 == 100
    ensures r.Some? && rawOffset == "" ==> r.value.1 == 0
    ensures r.Some? && rawOffset != "" ==> Atoi(rawOffset) == Some(r.value.1)
    ensures r.Some? && rawLimit != "" && r.value.0 < 1000 ==> Atoi(rawLimit) == Some(r.value.0)
    ensures r.Some? && rawLimit != "" && r.value.0 == 1000 ==> Atoi(rawLimit).value >= 1000
  {
    var limit := if rawLimit == "" then Some(DEFAULT_PAGE) else Atoi(rawLimit);
    var offset := if rawOffset == "" then Some(0) else Atoi(rawOffset);
    if limit.None? || limit.value < 1 || offset.None? || offset.value < 0 then None
    else Some((if limit.value > MAX_PAGE then MAX_PAGE else limit.value, offset.value))
  }

  /** The window of one request. */
  function Page(full: seq<Job>, limit: nat, offset: nat): seq<Job> {
    var rest := if offset >= |full| then [] else full[offset..];
    if |rest| > limit then rest[..limit] else rest
  }

  /** Consecutive pages, from an offset on. */
  function Pages(full: seq<Job>, limit: nat, offset: nat, count: nat): seq<Job>
    decreases count
  {
    if count == 0 then [] else Page(full, limit, offset) + Pages(full, limit, offset + limit, count - 1)
  }

  /** Where consecutive pages end. */
  function Reach(limit: nat, offset: nat, count: nat): nat
    decreases count
  {
    if count == 0 then offset else Reach(limit, offset + limit, count - 1)
  }

  lemma {:induction false} ReachIs(limit: nat, offset: nat, count: nat)
    ensures Reach(limit, offset, count) == offset + limit * count
    decreases count
  {
    if count > 0 {
      ReachIs(limit, offset + limit, count - 1);
      assert limit * count == limit + limit * (count - 1);
    }
  }

  lemma {:induction false} ReachGrows(limit: nat, offset: nat, count: nat)
    ensures Reach(limit, offset, count) >= offset
    decreases count
  {
    if count > 0 { ReachGrows(limit, offset + limit, count - 1); }
  }

  function Upto(full: seq<Job>, from: nat, to: nat): seq<Job>
    requires from <= to
  {
    if from >= |full| then [] else full[from..(if to <= |full| then to else |full|)]
  }

  lemma {:induction false} PagesCover(full: seq<Job>, limit: nat, offset: nat, count: nat)
    ensures Reach(limit, offset, count) >= offset
    ensures Pages(full, limit, offset, count) == Upto(full, offset, Reach(limit, offset, count))
    decreases count
  {
    ReachGrows(limit, offset, count);
    if count > 0 {
      PagesCover(full, limit, offset + limit, count - 1);
    }
  }

  /** Consecutive pages, once they reach past the end, are the full list: each
      job exactly once, in order. */
  lemma PagesAreTheList(full: seq<Job>, limit: nat, count: nat)
    requires Sorted(full) && limit * count >= |full|
    ensures Pages(full, limit, 0, count) == full
    ensures forall i, j :: 0 <= i < j < |Pages(full, limit, 0, count)| ==> Pages(full, limit, 0, count)[i] != Pages(full, limit, 0, count)[j]
  {
    PagesCover(full, limit, 0, count);
    ReachIs(limit, 0, count);
    assert full[0..|full|] == full;
    forall i, j | 0 <= i < j < |full| ensures full[i] != full[j] {
      assert Before(full[i], full[j]);
      BeforeIrreflexive(full[i]);
    }
  }

  // ---- handleListJobs ----

  /** byID and order after taking in some jobs: each ID once, in order of first
      appearance, holding its latest job. */
  ghost predicate Taken(byID: map<string, Job>, order: seq<string>) {
    && (forall i, j :: 0 <= i < j < |order| ==> order[i] != order[j])
    && (forall id :: id in order <==> id in byID)
    && (forall id :: id in byID ==> byID[id].id == id)
  }

  lemma HasIdMore(s: seq<Job>, j: Job)
    ensures forall id :: HasId(s + [j], id) <==> HasId(s, id) || id == j.id
  {
    forall id ensures HasId(s + [j], id) <==> HasId(s, id) || id == j.id {
      if HasId(s, id) {
        var k :| k in s && k.id == id;
        assert k in s + [j];
      }
      assert j in s + [j];
    }
  }

  predicate Holds(byID: map<string, Job>, j: Job) { j.id in byID && byID[j.id] == j }

  /** Lets the jobs of s replace what byID holds for their IDs. */
  method TakeIn(byID: map<string, Job>, order: seq<string>, s: seq<Job>)
    returns (byID': map<string, Job>, order': seq<string>)
    requires Taken(byID, order) && DistinctIds(s)
    ensures Taken(byID', order')
    ensures forall j :: Holds(byID', j) <==> j in s || (Holds(byID, j) && !HasId(s, j.id))
  {
    byID', order' := byID, order;
    for i := 0 to |s|
      invariant Taken(byID', order')
      invariant forall j :: Holds(byID', j) <==> j in s[..i] || (Holds(byID, j) && !HasId(s[..i], j.id))
    {
      var record := s[i];
      assert s[..i + 1] == s[..i] + [record];
      HasIdMore(s[..i], record);
      assert !HasId(s[..i], record.id);
      if record.id !in byID' {
        order' := order' + [record.id];
      }
      byID' := byID'[record.id := record];
    }
    assert s[..|s|] == s;
  }

  /** The second filter, on the merged records. */
  method Filtered(byID: map<string, Job>, order: seq<string>, filter: Option<string>) returns (records: seq<Job>)
    requires Taken(byID, order)
    ensures DistinctIds(records)
    ensures forall j :: j in records <==> Holds(byID, j) && Matches(filter, j)
  {
    records := [];
    for i := 0 to |order|
      invariant DistinctIds(records)
      invariant forall j :: j in records <==> j.id in order[..i] && Holds(byID, j) && Matches(filter, j)
    {
      assert order[i] in order && order[..i + 1] == order[..i] + [order[i]];
      var record := byID[order[i]];
      if filter.Some? && record.status != filter.value {
        continue;
      }
      records := records + [record];
    }
    assert order[..|order|] == order;
  }

  /** The filtered query (which may fail), the merge with the manager's jobs in
      any order, the second filter, the sort and the window: a page of the one
      listing of everything stored and live. */
  method ListJobs(stored: seq<Job>, works: bool, live: seq<Job>, filter: Option<string>, limit: nat, offset: nat)
    returns (jobs: seq<Job>, total: nat)
    requires DistinctIds(stored) && DistinctIds(live)
    ensures exists full :: IsListing(if works then stored else [], live, filter, full) &&
                           jobs == Page(full, limit, offset) && total == |full|
    ensures forall i, j :: 0 <= i < j < |jobs| ==>
              jobs[i].createdAt > jobs[j].createdAt || (jobs[i].createdAt == jobs[j].createdAt && Less(jobs[i].id, jobs[j].id))
  {
    var byID: map<string, Job>, order: seq<string> := map[], [];
    var rows := if works then Rows(stored, filter) else [];
    RowsDistinct(stored, filter);
    byID, order := TakeIn(byID, order, rows);
    byID, order := TakeIn(byID, order, live);
    assert forall j :: Holds(byID, j) <==> Current(rows, live, j);
    var records := Filtered(byID, order, filter);
    SortSorted(records);
    records := Sort(records);
    ghost var full := records;
    assert IsListing(rows, live, filter, full);
    PushdownIsHarmless(stored, live, filter, full);
    total := |records|;
    if offset >= total {
      records := [];
    } else {
      records := records[offset..];
    }
    if |records| > limit {
      records := records[..limit];
    }
    jobs := records;
    assert jobs == Page(full, limit, offset);
  }
}
