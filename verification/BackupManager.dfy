/** BackupManager itself: its methods walk, splice and refill the record lists
    in place. Each is proved to do what BackupRuns says of it. */
module BackupManager {
  import opened Text
  import opened BackupRecords
  import opened Retention
  import opened BackupRuns

  datatype DeleteResult = NotFound | StillNeeded(dependent: Info) | RemovalFailed | Deleted

  // ---- sorting bucket keys, newest first ----

  function InsertDown(k: int, s: seq<int>): (r: seq<int>)
    ensures forall x :: x in r <==> x == k || x in s
  {
    if s == [] then [k] else if k > s[0] then [k] + s else [s[0]] + InsertDown(k, s[1..])
  }

  function SortDown(s: seq<int>): (r: seq<int>)
    ensures forall x :: x in r <==> x in s
  {
    if s == [] then [] else InsertDown(s[0], SortDown(s[1..]))
  }

  ghost predicate Descending(s: seq<int>) {
    forall i, j :: 0 <= i < j < |s| ==> s[i] > s[j]
  }

  lemma {:induction false} InsertDownDescending(k: int, s: seq<int>)
    requires Descending(s) && k !in s
    ensures Descending(InsertDown(k, s))
  {
    if s != [] && k <= s[0] {
      assert s[0] in s;
      InsertDownDescending(k, s[1..]);
      var r := InsertDown(k, s[1..]);
      forall j | 0 <= j < |r| ensures s[0] > r[j] { assert r[j] in r; }
    }
  }

  ghost predicate NoRepeats(s: seq<int>) {
    forall i, j :: 0 <= i < j < |s| ==> s[i] != s[j]
  }

  lemma {:induction false} SortDownDescending(s: seq<int>)
    requires NoRepeats(s)
    ensures Descending(SortDown(s))
  {
    if s != [] {
      SortDownDescending(s[1..]);
      InsertDownDescending(s[0], SortDown(s[1..]));
    }
  }

  /** In a descending list without repeats, position counts the greater keys. */
  lemma {:induction false} PositionCountsGreater(s: seq<int>, i: nat, greater: set<int>)
    requires Descending(s) && i < |s|
    requires forall k :: k in greater <==> k in s && k > s[i]
    ensures |greater| == i
  {
    if i == 0 {
      forall k | k in s ensures k <= s[0] {
        var j :| 0 <= j < |s| && s[j] == k;
      }
      assert greater == {};
    } else {
      var fewer := greater - {s[i - 1]};
      assert s[i - 1] in s && s[i - 1] in greater;
      assert forall k :: k in fewer <==> k in s && k > s[i - 1];
      PositionCountsGreater(s, i - 1, fewer);
    }
  }

  /** The first backup, in list order, of each bucket. */
  ghost predicate FirstOfBuckets(s: seq<Info>, n: nat, seconds: int, first: map<int, Info>, keys: seq<int>)
    requires seconds > 0 && n <= |s|
  {
    && NoRepeats(keys)
    && (forall k :: k in keys <==> k in first)
    && (forall k :: k in first ==> exists i :: 0 <= i < n && IsFirst(s, i, seconds) && Bucket(s[i], seconds) == k && first[k] == s[i])
    && (forall i :: 0 <= i < n ==> Bucket(s[i], seconds) in first)
  }

  ghost predicate IsFirst(s: seq<Info>, i: int, seconds: int)
    requires 0 <= i < |s| && seconds > 0
  {
    forall j :: 0 <= j < i ==> Bucket(s[j], seconds) != Bucket(s[i], seconds)
  }

  function PickedIds(first: map<int, Info>, keys: seq<int>, n: nat): set<string>
    requires n <= |keys|
  {
    set j | 0 <= j < n && keys[j] in first :: first[keys[j]].id
  }

  /** A record other than this one gives that name as its base. */
  ghost predicate SomeoneNames(t: Table, base: string, id: string) {
    exists x :: Recorded(t, x) && x.id != id && x.base == base
  }

  class BackupManager {
    var backups: Table
    var rows: seq<Info>
    var verified: set<string>
    var storedVerified: set<string>

    constructor ()
      ensures State() == EMPTY
    {
      backups, rows, verified, storedVerified := map[], [], {}, {};
    }

    ghost function State(): State
      reads this
    {
      BackupRuns.State.State(backups, rows, verified, storedVerified)
    }

    /** A record whose stream was sent against b, if there is one. */
    method BaseReference(b: Info) returns (r: Option<Info>)
      requires ValidTable(backups)
      ensures r.Some? <==> Referenced(backups, b)
      ensures r.Some? <==> b.dataset != "" && b.snapshot != "" && SomeoneNames(backups, b.dataset + "@" + b.snapshot, b.id)
      ensures r.Some? ==> Recorded(backups, r.value) && IsBaseOf(b, r.value)
    {
      if b.dataset == "" || b.snapshot == "" {
        return None;
      }
      var base := b.dataset + "@" + b.snapshot;
      var todo := backups.Keys;
      while todo != {}
        invariant todo <= backups.Keys
        invariant forall x :: Recorded(backups, x) && x.instance !in todo ==> !IsBaseOf(b, x)
        decreases todo
      {
        var inst :| inst in todo;
        var list := backups[inst];
        for i := 0 to |list|
          invariant forall k :: 0 <= k < i ==> !IsBaseOf(b, list[k])
        {
          if list[i].id != b.id && list[i].base == base {
            assert Recorded(backups, list[i]);
            return Some(list[i]);
          }
        }
        todo := todo - {inst};
      }
      return None;
    }

    /** findPreviousSnapshot: by creation time, not by position in the list. */
    method FindPreviousSnapshot(inst: string) returns (name: string)
      ensures name == PreviousSnapshot(Listed(backups, inst))
    {
      if inst !in backups || |backups[inst]| == 0 {
        return "";
      }
      var list := backups[inst];
      var newest: Option<Info> := None;
      for i := 0 to |list|
        invariant newest == NewestEligible(list[..i])
      {
        var b := list[i];
        assert list[..i + 1][..i] == list[..i];
        if b.status != Completed || b.dataset == "" || b.location == "" {
          continue;
        }
        if b.kind != Full && b.kind != Incremental {
          continue;
        }
        if newest.None? || !(b.createdAt < newest.value.createdAt) {
          newest := Some(b);
        }
      }
      assert list[..|list|] == list;
      name := if newest.Some? then newest.value.dataset + "@" + newest.value.snapshot else "";
    }

    method AddBackup(b: Info)
      modifies this
      ensures State() == Add(old(State()), b)
    {
      backups := backups[b.instance := (if b.instance in backups then backups[b.instance] else []) + [b]];
      SaveRecord(b);
    }

    /** INSERT ... ON CONFLICT(id) DO UPDATE on the stored rows. */
    method SaveRecord(b: Info)
      modifies this`rows
      ensures rows == SaveRow(old(rows), b)
    {
      rows := SaveRow(rows, b);
    }

    /** The list and position that hold an ID. */
    method Locate(id: string) returns (r: Option<(string, nat)>)
      requires ValidTable(backups)
      ensures r.None? ==> !HasId(backups, id)
      ensures r.Some? ==> r.value.0 in backups && r.value.1 < |backups[r.value.0]| &&
                          backups[r.value.0][r.value.1].id == id
    {
      var todo := backups.Keys;
      while todo != {}
        invariant todo <= backups.Keys
        invariant forall x :: Recorded(backups, x) && x.instance !in todo ==> x.id != id
        decreases todo
      {
        var inst :| inst in todo;
        for i := 0 to |backups[inst]|
          invariant forall k :: 0 <= k < i ==> backups[inst][k].id != id
        {
          if backups[inst][i].id == id {
            return Some((inst, i));
          }
        }
        todo := todo - {inst};
      }
      return None;
    }

    /** Claim the record, remove its data, put the record back if that fails. */
    method DeleteBackup(id: string, removalFails: bool) returns (r: DeleteResult)
      requires ValidTable(backups)
      modifies this
      ensures State() == Delete(old(State()), id, removalFails)
      ensures r.NotFound? <==> !HasId(old(backups), id)
      ensures r.StillNeeded? <==> HasId(old(backups), id) && Referenced(old(backups), Lookup(old(backups), id))
      ensures r.StillNeeded? ==> Recorded(old(backups), r.dependent) && IsBaseOf(Lookup(old(backups), id), r.dependent)
      ensures HasId(old(backups), id) && !Referenced(old(backups), Lookup(old(backups), id)) ==>
                r == if removalFails then RemovalFailed else Deleted
    {
      var where := Locate(id);
      if where.None? {
        return NotFound;
      }
      var (inst, i) := where.value;
      var list := backups[inst];
      var b := list[i];
      assert Recorded(backups, b) && Lookup(backups, id) == b;
      var ref := BaseReference(b);
      if ref.Some? {
        return StillNeeded(ref.value);
      }
      SpliceIsWithout(list, i);
      backups := backups[inst := list[..i] + list[i + 1..]];
      if removalFails {
        backups := backups[inst := backups[inst] + [b]];
        return RemovalFailed;
      }
      verified := verified - {id};
      rows := Without(rows, id);
      storedVerified := storedVerified - {id};
      return Deleted;
    }

    /** Adds to keep the first backup of each of the `count` newest buckets. */
    method KeepByInterval(list: seq<Info>, keep: set<string>, count: int, seconds: int) returns (keep': set<string>)
      requires seconds > 0
      ensures keep' == keep + BucketKept(list, count, seconds)
    {
      if count == 0 {
        return keep;
      }
      var first: map<int, Info> := map[];
      var keys: seq<int> := [];
      for i := 0 to |list|
        invariant FirstOfBuckets(list, i, seconds, first, keys)
      {
        var bucket := Bucket(list[i], seconds);
        if bucket !in first {
          assert IsFirst(list, i, seconds);
          first := first[bucket := list[i]];
          keys := keys + [bucket];
        }
      }
      SortDownDescending(keys);
      keys := SortDown(keys);
      assert FirstOfBuckets(list, |list|, seconds, first, keys);
      keep' := keep;
      var i := 0;
      while i < |keys| && i < count
        invariant 0 <= i <= |keys|
        invariant i <= count || i == 0
        invariant keep' == keep + PickedIds(first, keys, i)
      {
        assert keys[i] in keys;
        keep' := keep' + {first[keys[i]].id};
        i := i + 1;
      }
      KeptAreBucketKept(list, count, seconds, first, keys, i);
    }

    /** The first half of applyRetention: the last ones, then the newest of spans. */
    method SelectToKeep(list: seq<Info>, p: Policy) returns (keep: set<string>)
      ensures keep == KeepSet(list, p)
      ensures NewestFirst(list) && DistinctIds(list) ==> forall b :: b in list ==> (b.id in keep <==> Selected(list, p, b))
    {
      keep := {};
      var i := 0;
      while i < p.keepLast && i < |list|
        invariant 0 <= i <= |list|
        invariant i <= p.keepLast || i == 0
        invariant keep == set j | 0 <= j < i :: list[j].id
      {
        keep := keep + {list[i].id};
        i := i + 1;
      }
      assert keep == set j | 0 <= j < |list| && j < p.keepLast :: list[j].id;
      keep := KeepByInterval(list, keep, p.keepHourly, HOUR);
      keep := KeepByInterval(list, keep, p.keepDaily, DAY);
      keep := KeepByInterval(list, keep, p.keepWeekly, WEEK);
      keep := KeepByInterval(list, keep, p.keepMonthly, MONTH);
      if NewestFirst(list) && DistinctIds(list) {
        forall b | b in list ensures b.id in keep <==> Selected(list, p, b) {
          SelectedIff(list, p, b);
        }
      }
    }

    method ApplyRetention(inst: string, p: Policy, now: int, stuck: set<string>)
      requires Inv(State())
      modifies this
      ensures State() == Retain(old(State()), inst, p, now, stuck)
    {
      if p.keepLast == 0 && p.keepHourly == 0 && p.keepDaily == 0 && p.keepWeekly == 0 && p.keepMonthly == 0 {
        return;
      }
      if inst !in backups || |backups[inst]| == 0 {
        return;
      }
      var list := SortNewest(backups[inst]);
      var keep := SelectToKeep(list, p);
      assert Ready(backups, list) by {
        ChainedBasesOlder(backups);
        OrderFacts(backups, inst);
      }
      Prune(list, keep, p, now, stuck);
    }

    /** The deletion loop over the sorted copy. */
    method Prune(list: seq<Info>, keep: set<string>, p: Policy, now: int, stuck: set<string>)
      requires Inv(State()) && Ready(backups, list)
      modifies this
      ensures State() == PassBoth(list, Plan(keep, p, now, stuck), old(State()))
    {
      ghost var plan := Plan(keep, p, now, stuck);
      for k := 0 to |list|
        invariant Inv(State()) && Ready(backups, list[k..])
        invariant PassBoth(list[k..], plan, State()) == PassBoth(list, plan, old(State()))
      {
        var b := list[k];
        assert list[k..][0] == b && list[k..][1..] == list[k + 1..];
        TurnFacts(backups, list[k..], plan);
        if b.id in keep {
          continue;
        }
        if p.minAge > 0 && now - b.createdAt < p.minAge {
          continue;
        }
        var ref := BaseReference(b);
        if ref.Some? {
          continue;
        }
        assert Lookup(backups, b.id) == b;
        RemovedKeepsInv(State(), b, b.id in stuck);
        var _ := DeleteBackup(b.id, b.id in stuck);
      }
    }

    method VerifyBackup(id: string, intact: bool) returns (ok: bool)
      requires ValidTable(backups)
      modifies this
      ensures State() == Verify(old(State()), id, intact)
      ensures ok <==> intact && HasId(backups, id)
      ensures verified == old(verified) + (if ok then {id} else {})
      ensures storedVerified == old(storedVerified) + (if ok then {id} else {})
      ensures backups == old(backups) && rows == old(rows)
    {
      var where := Locate(id);
      if where.None? || !intact {
        return false;
      }
      assert Recorded(backups, backups[where.value.0][where.value.1]);
      verified := verified + {id};
      storedVerified := storedVerified + {id};
      return true;
    }

    /** A new manager over the same datastore: every row is read back. */
    method Reload()
      modifies this
      ensures State() == Step(old(State()), Restart)
    {
      backups := map[];
      for i := 0 to |rows|
        invariant rows == old(rows) && verified == old(verified) && storedVerified == old(storedVerified)
        invariant backups == Reloaded(rows[..i])
      {
        var b := rows[i];
        assert rows[..i + 1][..i] == rows[..i];
        backups := backups[b.instance := (if b.instance in backups then backups[b.instance] else []) + [b]];
      }
      assert rows[..|rows|] == rows;
      verified := storedVerified;
    }

    method CreateBackup(inst: string, kind: Kind, config: Option<Config>, host: Host) returns (r: Option<Info>)
      requires Inv(State()) && Fresh(State(), inst, host)
      modifies this
      ensures State() == BackupRuns.CreateBackup(old(State()), inst, kind, config, host)
      ensures r.Some? <==> ValidInstanceName(inst) && config.Some? && Resolved(host)
      ensures r.None? ==> State() == old(State())
      ensures r.Some? ==> Reports(r.value, Listed(old(backups), inst), inst, kind, config.value, host)
      ensures r.Some? && r.value.status == Failed ==> State() == Add(old(State()), r.value)
      ensures r.Some? && r.value.status == Completed ==>
                State() == Retain(Add(old(State()), r.value), inst, config.value.retention, host.later, host.stuck)
    {
      if !ValidInstanceName(inst) || config.None? {
        return None;
      }
      if host.dataset.None? || host.dataset.value == "" {
        return None;
      }
      var c := config.value;
      AttemptReports(Listed(backups, inst), inst, kind, c, host);
      var info := Draft(inst, kind, host, host.dataset.value);
      if c.preHook && !host.hookOk {
        info := info.(status := Failed);
        AddBackup(info);
        return Some(info);
      }
      if !host.snapshotOk {
        info := info.(status := Failed);
        AddBackup(info);
        return Some(info);
      }
      if kind == Incremental {
        var prev := FindPreviousSnapshot(inst);
        if prev == "" {
          info := info.(kind := Full);
        } else {
          info := info.(base := prev);
        }
      }
      if !host.streamOk || c.destination == "" {
        info := info.(status := Failed);
        AddBackup(info);
        return Some(info);
      }
      info := info.(location := Landing(c.destination, info.id, host.extension));
      info := info.(status := Completed);
      AttemptFields(Listed(backups, inst), inst, kind, c, host);
      AddAttemptKeepsInv(State(), inst, host, info);
      AddBackup(info);
      ApplyRetention(inst, c.retention, host.later, host.stuck);
      return Some(info);
    }

    method CreateSnapshot(inst: string, config: Option<Config>, host: Host) returns (r: Option<Info>)
      requires Inv(State()) && Fresh(State(), inst, host)
      modifies this
      ensures State() == BackupRuns.CreateSnapshot(old(State()), inst, config, host)
      ensures r.Some? <==> Resolved(host)
      ensures r.None? ==> State() == old(State())
      ensures r.Some? ==> ReportsSnapshot(r.value, inst, config, host)
      ensures r.Some? && (r.value.status == Failed || config.None?) ==> State() == Add(old(State()), r.value)
      ensures r.Some? && r.value.status == Completed && config.Some? ==>
                State() == Retain(Add(old(State()), r.value), inst, config.value.retention, host.later, host.stuck)
    {
      if host.dataset.None? || host.dataset.value == "" {
        return None;
      }
      var info := Draft(inst, Snapshot, host, host.dataset.value);
      if config.Some? && config.value.preHook && !host.hookOk {
        info := info.(status := Failed);
        AddBackup(info);
        return Some(info);
      }
      if !host.snapshotOk {
        info := info.(status := Failed);
        AddBackup(info);
        return Some(info);
      }
      info := info.(status := Completed);
      AddAttemptKeepsInv(State(), inst, host, info);
      AddBackup(info);
      if config.Some? {
        ApplyRetention(inst, config.value.retention, host.later, host.stuck);
      }
      return Some(info);
    }
  }

  /** What the two loops of KeepByInterval pick is what the counting rule says. */
  lemma KeptAreBucketKept(list: seq<Info>, count: int, seconds: int, first: map<int, Info>, keys: seq<int>, n: nat)
    requires seconds > 0 && Descending(keys) && FirstOfBuckets(list, |list|, seconds, first, keys)
    requires n <= |keys| && (n < |keys| ==> n >= count) && (n <= count || n == 0)
    ensures PickedIds(first, keys, n) == BucketKept(list, count, seconds)
  {
    forall j | 0 <= j < |keys|
      ensures keys[j] in first && |BucketsAbove(list, keys[j], seconds)| == j
    {
      assert keys[j] in keys;
      var above := BucketsAbove(list, keys[j], seconds);
      forall k ensures k in above <==> k in keys && k > keys[j] {
        if k in keys {
          var i :| 0 <= i < |list| && Bucket(list[i], seconds) == k;
          assert list[i] in list;
        }
      }
      PositionCountsGreater(keys, j, above);
    }
    var picked := PickedIds(first, keys, n);
    forall id | id in picked ensures id in BucketKept(list, count, seconds) {
      var j :| 0 <= j < n && keys[j] in first && first[keys[j]].id == id;
      var i :| 0 <= i < |list| && IsFirst(list, i, seconds) && Bucket(list[i], seconds) == keys[j] && first[keys[j]] == list[i];
      assert BucketRule(list, i, count, seconds);
    }
    forall id | id in BucketKept(list, count, seconds) ensures id in picked {
      var i :| 0 <= i < |list| && BucketRule(list, i, count, seconds) && list[i].id == id;
      var k := Bucket(list[i], seconds);
      assert k in keys;
      var j :| 0 <= j < |keys| && keys[j] == k;
      var m :| 0 <= m < |list| && IsFirst(list, m, seconds) && Bucket(list[m], seconds) == k && first[k] == list[m];
      assert m == i;
      assert j < n;
    }
  }
}
