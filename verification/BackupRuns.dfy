/** The backup manager's operations as functions on its two stores, the
    records in memory and the rows in the datastore, and what every run of
    them keeps: no incremental ever loses the chain it was sent against. */
module BackupRuns {
  import opened Text
  import opened BackupRecords
  import opened Retention

  /** Records and Verified marks, in memory and as stored. */
  datatype State = State(mem: Table, rows: seq<Info>, verified: set<string>, storedVerified: set<string>)

  const EMPTY := State(map[], [], {}, {})

  function Listed(t: Table, inst: string): seq<Info> {
    if inst in t then t[inst] else []
  }

  function Append(t: Table, b: Info): Table {
    t[b.instance := Listed(t, b.instance) + [b]]
  }

  // ---- rows ----

  /** INSERT ... ON CONFLICT(id) DO UPDATE. */
  function SaveRow(rows: seq<Info>, b: Info): (r: seq<Info>)
    ensures b in r
  {
    if rows == [] then [b]
    else if rows[0].id == b.id then [b] + rows[1..]
    else [rows[0]] + SaveRow(rows[1..], b)
  }

  lemma {:induction false} SaveRowFacts(rows: seq<Info>, b: Info)
    requires DistinctIds(rows)
    ensures DistinctIds(SaveRow(rows, b))
    ensures forall c :: c in SaveRow(rows, b) <==> c == b || (c in rows && c.id != b.id)
  {
    if rows != [] {
      var rest := rows[1..];
      assert DistinctIds(rest);
      SaveRowFacts(rest, b);
      var r := SaveRow(rest, b);
      if rows[0].id == b.id {
        forall j | 0 <= j < |rest| ensures rest[j].id != b.id { assert rest[j] == rows[j + 1]; }
      } else {
        forall j | 0 <= j < |r| ensures r[j].id != rows[0].id {
          assert r[j] in r;
          if r[j] != b {
            var k :| 0 <= k < |rest| && rest[k] == r[j];
            assert rest[k] == rows[k + 1];
          }
        }
      }
    }
  }

  /** Reloading at startup: every row appended under its instance. */
  function Reloaded(rows: seq<Info>): Table {
    if rows == [] then map[]
    else Append(Reloaded(rows[..|rows| - 1]), rows[|rows| - 1])
  }

  /** Memory and datastore hold the same records. */
  ghost predicate Agree(s: State) {
    && ValidTable(s.mem) && DistinctIds(s.rows)
    && (forall b :: Recorded(s.mem, b) <==> b in s.rows)
    && s.verified == s.storedVerified
  }

  lemma AppendFacts(t: Table, b: Info)
    requires ValidTable(t) && !HasId(t, b.id)
    ensures ValidTable(Append(t, b))
    ensures forall c :: Recorded(Append(t, b), c) <==> c == b || Recorded(t, c)
  {
    var s := Listed(t, b.instance);
    forall c | c in s ensures Recorded(t, c) {
      var k :| 0 <= k < |s| && s[k] == c;
      assert t[b.instance][k].instance == b.instance;
    }
    forall i | 0 <= i < |s| ensures s[i].id != b.id { assert s[i] in s; }
  }

  lemma {:induction false} ReloadedFacts(rows: seq<Info>)
    requires DistinctIds(rows)
    ensures ValidTable(Reloaded(rows))
    ensures forall b :: Recorded(Reloaded(rows), b) <==> b in rows
  {
    if rows != [] {
      var front, last := rows[..|rows| - 1], rows[|rows| - 1];
      ReloadedFacts(front);
      AppendFacts(Reloaded(front), last);
      assert rows == front + [last];
    }
  }

  // ---- operations ----

  function Add(s: State, b: Info): State {
    s.(mem := Append(s.mem, b), rows := SaveRow(s.rows, b))
  }

  function Removed(s: State, b: Info, removalFails: bool): State
    requires b.instance in s.mem
  {
    if removalFails then s.(mem := AfterDelete(s.mem, b, true))
    else State(AfterDelete(s.mem, b, false), Without(s.rows, b.id), s.verified - {b.id}, s.storedVerified - {b.id})
  }

  ghost function Lookup(t: Table, id: string): (b: Info)
    requires HasId(t, id)
    ensures Recorded(t, b) && b.id == id
  {
    var b :| Recorded(t, b) && b.id == id;
    b
  }

  ghost function Delete(s: State, id: string, removalFails: bool): State {
    if !HasId(s.mem, id) || Referenced(s.mem, Lookup(s.mem, id)) then s
    else Removed(s, Lookup(s.mem, id), removalFails)
  }

  /** The deletion loop of applyRetention over both stores. */
  ghost function PassBoth(order: seq<Info>, plan: Plan, s: State): State {
    if order == [] then s
    else if Protected(s.mem, order[0], plan) || !Recorded(s.mem, order[0]) then PassBoth(order[1..], plan, s)
    else PassBoth(order[1..], plan, Removed(s, order[0], order[0].id in plan.stuck))
  }

  ghost function Retain(s: State, inst: string, p: Policy, now: int, stuck: set<string>): State {
    if NoRule(p) || inst !in s.mem then s
    else
      var order := SortNewest(s.mem[inst]);
      PassBoth(order, PlanFor(order, p, now, stuck), s)
  }

  /** VerifyBackup: the mark is set in memory and written back. */
  ghost function Verify(s: State, id: string, intact: bool): State {
    if !intact || !HasId(s.mem, id) then s
    else s.(verified := s.verified + {id}, storedVerified := s.storedVerified + {id})
  }

  // ---- creation ----

  /** The part of an instance's configuration that backups depend on. */
  datatype Config = Config(destination: string, preHook: bool, retention: Policy)

  /** What the host answers during one creation: the resolved dataset, whether
      hook, snapshot and stream succeed, the clock, and what retention cannot remove. */
  datatype Host = Host(
    timestamp: string, now: int, later: int, dataset: Option<string>,
    hookOk: bool, snapshotOk: bool, streamOk: bool, extension: string, stuck: set<string>)

  predicate Eligible(b: Info) {
    b.status == Completed && b.dataset != "" && b.location != "" && (b.kind == Full || b.kind == Incremental)
  }

  /** The most recent eligible record; on equal times the later in the list. */
  function NewestEligible(s: seq<Info>): (r: Option<Info>)
    ensures r.Some? ==> r.value in s && Eligible(r.value)
    ensures r.Some? ==> forall b :: b in s && Eligible(b) ==> b.createdAt <= r.value.createdAt
    ensures r.None? ==> forall b :: b in s ==> !Eligible(b)
  {
    if s == [] then None
    else
      var front, last := s[..|s| - 1], s[|s| - 1];
      assert s == front + [last];
      var r := NewestEligible(front);
      if Eligible(last) && (r.None? || last.createdAt >= r.value.createdAt) then Some(last) else r
  }

  /** findPreviousSnapshot: dataset@snapshot of that record, or "". */
  function PreviousSnapshot(s: seq<Info>): string {
    match NewestEligible(s)
    case None => ""
    case Some(b) => FullName(b)
  }

  /** Where a stream lands: a remote destination as given, else a file in the local directory. */
  function Landing(destination: string, id: string, extension: string): string {
    if ':' in destination then destination else destination + "/" + id + ".zfs" + extension
  }

  function Draft(inst: string, kind: Kind, host: Host, dataset: string): Info {
    Info(inst + "-" + host.timestamp, inst, kind, Running, host.now, dataset,
         "hospitus-backup-" + host.timestamp, "", "")
  }

  predicate Resolved(host: Host) { host.dataset.Some? && host.dataset.value != "" }

  /** The record one backup attempt leaves, given the instance's earlier
      records: hook and snapshot come first, then the base is chosen, then the
      stream is sent. */
  function Attempt(earlier: seq<Info>, inst: string, kind: Kind, c: Config, host: Host): Info
    requires Resolved(host)
  {
    var draft := Draft(inst, kind, host, host.dataset.value);
    if (c.preHook && !host.hookOk) || !host.snapshotOk then draft.(status := Failed)
    else
      var base := if kind == Incremental then PreviousSnapshot(earlier) else "";
      var sent := draft.(base := base, kind := if kind == Incremental && base == "" then Full else kind);
      if !host.streamOk || c.destination == "" then sent.(status := Failed)
      else sent.(status := Completed, location := Landing(c.destination, sent.id, host.extension))
  }

  /** The hook, if there is one, and the snapshot worked. */
  predicate Began(preHook: bool, host: Host) { (preHook ==> host.hookOk) && host.snapshotOk }

  /** What a record says of its own making, from what was asked and what the host
      answered: who it is, that it is complete exactly if every step worked, where
      its stream went, and what an incremental was sent against. */
  ghost predicate Reports(b: Info, earlier: seq<Info>, inst: string, kind: Kind, c: Config, host: Host)
    requires Resolved(host)
  {
    && b.id == inst + "-" + host.timestamp && b.instance == inst && b.createdAt == host.now
    && b.dataset == host.dataset.value && b.snapshot == "hospitus-backup-" + host.timestamp
    && (b.status == Completed <==> Began(c.preHook, host) && host.streamOk && c.destination != "")
    && (b.status != Completed ==> b.status == Failed && b.location == "")
    && (b.status == Completed && ':' in c.destination ==> b.location == c.destination)
    && (b.status == Completed && ':' !in c.destination ==>
          b.location == c.destination + "/" + inst + "-" + host.timestamp + ".zfs" + host.extension)
    && (kind != Incremental || !Began(c.preHook, host) ==> b.kind == kind && b.base == "")
    && (kind == Incremental && Began(c.preHook, host) ==> SentAgainst(b, earlier))
  }

  /** The newest of the earlier streams is the base; without one the backup is full. */
  ghost predicate SentAgainst(b: Info, earlier: seq<Info>) {
    || (b.kind == Full && b.base == "" && forall e :: e in earlier ==> !Eligible(e))
    || (b.kind == Incremental && exists e :: e in earlier && Eligible(e) && b.base == e.dataset + "@" + e.snapshot &&
                                             forall f :: f in earlier && Eligible(f) ==> f.createdAt <= e.createdAt)
  }

  lemma PreviousIsSentAgainst(b: Info, earlier: seq<Info>)
    requires b.base == PreviousSnapshot(earlier) && b.kind == if b.base == "" then Full else Incremental
    ensures SentAgainst(b, earlier)
  {
    var r := NewestEligible(earlier);
    if r.Some? {
      assert |FullName(r.value)| > 0;
      assert b.base == r.value.dataset + "@" + r.value.snapshot;
    }
  }

  lemma AttemptReports(earlier: seq<Info>, inst: string, kind: Kind, c: Config, host: Host)
    requires Resolved(host)
    ensures Reports(Attempt(earlier, inst, kind, c, host), earlier, inst, kind, c, host)
  {
    var b := Attempt(earlier, inst, kind, c, host);
    if kind == Incremental && Began(c.preHook, host) { PreviousIsSentAgainst(b, earlier); }
  }

  /** Likewise a snapshot's record, which has no stream. */
  ghost predicate ReportsSnapshot(b: Info, inst: string, config: Option<Config>, host: Host)
    requires Resolved(host)
  {
    && b.id == inst + "-" + host.timestamp && b.instance == inst && b.createdAt == host.now && b.kind == Snapshot
    && b.dataset == host.dataset.value && b.snapshot == "hospitus-backup-" + host.timestamp
    && b.status == (if Began(config.Some? && config.value.preHook, host) then Completed else Failed)
    && b.location == "" && b.base == ""
  }

  ghost function CreateBackup(s: State, inst: string, kind: Kind, config: Option<Config>, host: Host): State {
    if !ValidInstanceName(inst) || config.None? || !Resolved(host) then s
    else
      var b := Attempt(Listed(s.mem, inst), inst, kind, config.value, host);
      if b.status == Failed then Add(s, b)
      else Retain(Add(s, b), inst, config.value.retention, host.later, host.stuck)
  }

  ghost function CreateSnapshot(s: State, inst: string, config: Option<Config>, host: Host): State {
    if !Resolved(host) then s
    else
      var draft := Draft(inst, Snapshot, host, host.dataset.value);
      if (config.Some? && config.value.preHook && !host.hookOk) || !host.snapshotOk then Add(s, draft.(status := Failed))
      else
        var s1 := Add(s, draft.(status := Completed));
        if config.None? then s1 else Retain(s1, inst, config.value.retention, host.later, host.stuck)
  }

  // ---- runs ----

  datatype Op =
    | Backup(inst: string, kind: Kind, config: Option<Config>, host: Host)
    | TakeSnapshot(inst: string, config: Option<Config>, host: Host)
    | DeleteOne(id: string, removalFails: bool)
    | ApplyRetention(inst: string, policy: Policy, now: int, stuck: set<string>)
    | VerifyOne(id: string, intact: bool)
    | Restart

  /** IDs and snapshot names are fresh and the clock has moved on. */
  ghost predicate Fresh(s: State, inst: string, host: Host) {
    forall b :: Recorded(s.mem, b) ==>
      && b.id != inst + "-" + host.timestamp
      && b.createdAt < host.now
      && (host.dataset.Some? ==> FullName(b) != host.dataset.value + "@" + "hospitus-backup-" + host.timestamp)
  }

  ghost predicate Enabled(s: State, op: Op) {
    match op
    case Backup(inst, _, _, host) => Fresh(s, inst, host)
    case TakeSnapshot(inst, _, host) => Fresh(s, inst, host)
    case _ => true
  }

  ghost function Step(s: State, op: Op): State {
    match op
    case Backup(inst, kind, config, host) => CreateBackup(s, inst, kind, config, host)
    case TakeSnapshot(inst, config, host) => CreateSnapshot(s, inst, config, host)
    case DeleteOne(id, removalFails) => Delete(s, id, removalFails)
    case ApplyRetention(inst, policy, now, stuck) => Retain(s, inst, policy, now, stuck)
    case VerifyOne(id, intact) => Verify(s, id, intact)
    case Restart => s.(mem := Reloaded(s.rows), verified := s.storedVerified)
  }

  ghost function Run(ops: seq<Op>): State {
    if ops == [] then EMPTY else Step(Run(ops[..|ops| - 1]), ops[|ops| - 1])
  }

  ghost predicate ValidRun(ops: seq<Op>) {
    ops == [] || (ValidRun(ops[..|ops| - 1]) && Enabled(Run(ops[..|ops| - 1]), ops[|ops| - 1]))
  }

  // ---- the invariant ----

  /** A stream that can be restored from: completed, stored, full or incremental. */
  predicate Stored(b: Info) {
    b.status == Completed && b.location != "" && (b.kind == Full || b.kind == Incremental)
  }

  predicate Supports(r: Info, b: Info) {
    r.instance == b.instance && IsBaseOf(r, b) && r.createdAt < b.createdAt && Stored(r)
  }

  ghost predicate Sound(t: Table, b: Info) {
    && b.snapshot != ""
    && (b.base != "" ==> exists r :: Recorded(t, r) && Supports(r, b))
    && (b.kind == Incremental && b.base == "" ==> b.status == Failed)
  }

  ghost predicate AllSound(t: Table) {
    forall b :: Recorded(t, b) ==> Sound(t, b)
  }

  ghost predicate Chained(t: Table) {
    && AllSound(t)
    && (forall b, c :: Recorded(t, b) && Recorded(t, c) && b.id != c.id ==>
          FullName(b) != FullName(c) && b.createdAt != c.createdAt)
  }

  ghost predicate Inv(s: State) {
    Agree(s) && Chained(s.mem)
  }

  lemma ChainedBasesOlder(t: Table)
    requires ValidTable(t) && Chained(t)
    ensures BasesOlder(t)
  {
    forall k, i, j | k in t && 0 <= i < j < |t[k]| ensures t[k][i].createdAt != t[k][j].createdAt {
      assert Recorded(t, t[k][i]) && Recorded(t, t[k][j]);
    }
    forall x, y | Recorded(t, x) && Recorded(t, y) && x.instance == y.instance && IsBaseOf(y, x)
      ensures y.createdAt < x.createdAt
    {
      assert x.base == y.dataset + "@" + y.snapshot;
      assert |x.base| > 0;
      var r :| Recorded(t, r) && Supports(r, x);
      assert FullName(r) == FullName(y);
    }
  }

  lemma AddKeepsInv(s: State, b: Info)
    requires Inv(s) && !HasId(s.mem, b.id)
    requires forall c :: Recorded(s.mem, c) ==> c.createdAt < b.createdAt && FullName(c) != FullName(b)
    requires b.snapshot != "" && (b.kind == Incremental && b.base == "" ==> b.status == Failed)
    requires b.base != "" ==> exists r :: Recorded(s.mem, r) && Supports(r, b)
    ensures Inv(Add(s, b))
  {
    AppendFacts(s.mem, b);
    SaveRowFacts(s.rows, b);
    var s' := Add(s, b);
    forall c | Recorded(s'.mem, c) ensures Sound(s'.mem, c) {
      if c != b { assert Sound(s.mem, c); }
      if c.base != "" {
        var r :| Recorded(s.mem, r) && Supports(r, c);
        assert Recorded(s'.mem, r);
      }
    }
  }

  lemma RemovedKeepsInv(s: State, b: Info, removalFails: bool)
    requires Inv(s) && Recorded(s.mem, b) && !Referenced(s.mem, b)
    ensures Inv(Removed(s, b, removalFails))
  {
    AfterDeleteValid(s.mem, b, removalFails);
    WithoutDistinct(s.rows, b.id);
    var s' := Removed(s, b, removalFails);
    forall c | Recorded(s'.mem, c) ensures Sound(s'.mem, c) {
      assert Sound(s.mem, c);
      if c.base != "" {
        var r :| Recorded(s.mem, r) && Supports(r, c);
        assert r.id == b.id ==> r == b;
        assert Recorded(s'.mem, r);
      }
    }
  }

  /** A deletion takes away that one record, from memory and from the rows, if it
      is there, nothing needs it and its data could be removed; else nothing. */
  lemma DeleteTakesOne(s: State, id: string, removalFails: bool)
    requires Agree(s)
    ensures var s' := Delete(s, id, removalFails);
            var gone := HasId(s.mem, id) && !Referenced(s.mem, Lookup(s.mem, id)) && !removalFails;
            && (forall b :: Recorded(s'.mem, b) <==> Recorded(s.mem, b) && !(gone && b.id == id))
            && (forall b :: b in s'.rows <==> b in s.rows && !(gone && b.id == id))
            && s'.verified == (if gone then s.verified - {id} else s.verified)
  {
    if HasId(s.mem, id) && !Referenced(s.mem, Lookup(s.mem, id)) {
      AfterDeleteValid(s.mem, Lookup(s.mem, id), removalFails);
    }
  }

  lemma {:induction false} PassBothKeepsInv(order: seq<Info>, plan: Plan, s: State)
    requires Inv(s) && Ready(s.mem, order)
    ensures Inv(PassBoth(order, plan, s))
    ensures PassBoth(order, plan, s).mem == Pass(order, plan, s.mem)
  {
    if order != [] {
      TurnFacts(s.mem, order, plan);
      if Protected(s.mem, order[0], plan) {
        PassBothKeepsInv(order[1..], plan, s);
      } else {
        RemovedKeepsInv(s, order[0], order[0].id in plan.stuck);
        PassBothKeepsInv(order[1..], plan, Removed(s, order[0], order[0].id in plan.stuck));
      }
    }
  }

  lemma RetainKeepsInv(s: State, inst: string, p: Policy, now: int, stuck: set<string>)
    requires Inv(s)
    ensures Inv(Retain(s, inst, p, now, stuck))
    ensures Retain(s, inst, p, now, stuck).mem == Retained(s.mem, inst, p, now, stuck)
  {
    if !NoRule(p) && inst in s.mem {
      ChainedBasesOlder(s.mem);
      OrderFacts(s.mem, inst);
      var order := SortNewest(s.mem[inst]);
      PassBothKeepsInv(order, PlanFor(order, p, now, stuck), s);
    }
  }

  lemma DraftKeepsInv(s: State, inst: string, host: Host, b: Info)
    requires Inv(s) && Fresh(s, inst, host) && Resolved(host)
    requires b.id == inst + "-" + host.timestamp && b.createdAt == host.now
    requires b.dataset == host.dataset.value && b.snapshot == "hospitus-backup-" + host.timestamp
    requires b.kind == Incremental && b.base == "" ==> b.status == Failed
    requires b.base != "" ==> exists r :: Recorded(s.mem, r) && Supports(r, b)
    ensures Inv(Add(s, b))
  {
    assert FullName(b) == host.dataset.value + "@" + "hospitus-backup-" + host.timestamp;
    AddKeepsInv(s, b);
  }

  lemma PreviousSupports(s: State, inst: string, b: Info)
    requires Inv(s) && b.instance == inst && b.base == PreviousSnapshot(Listed(s.mem, inst)) && b.base != ""
    requires forall c :: Recorded(s.mem, c) ==> c.createdAt < b.createdAt && c.id != b.id
    ensures exists r :: Recorded(s.mem, r) && Supports(r, b)
  {
    var l := Listed(s.mem, inst);
    var r := NewestEligible(l).value;
    var k :| 0 <= k < |l| && l[k] == r;
    assert Recorded(s.mem, r);
    assert Sound(s.mem, r);
    assert Supports(r, b);
  }

  lemma AttemptFields(earlier: seq<Info>, inst: string, kind: Kind, c: Config, host: Host)
    requires Resolved(host)
    ensures var b := Attempt(earlier, inst, kind, c, host);
            && b.id == inst + "-" + host.timestamp && b.instance == inst && b.createdAt == host.now
            && b.dataset == host.dataset.value && b.snapshot == "hospitus-backup-" + host.timestamp
            && (b.kind == Incremental && b.base == "" ==> b.status == Failed)
            && (b.base == "" || b.base == PreviousSnapshot(earlier))
  {
  }

  lemma CreateBackupKeepsInv(s: State, inst: string, kind: Kind, config: Option<Config>, host: Host)
    requires Inv(s) && Fresh(s, inst, host)
    ensures Inv(CreateBackup(s, inst, kind, config, host))
  {
    if ValidInstanceName(inst) && config.Some? && Resolved(host) {
      var l := Listed(s.mem, inst);
      AttemptFields(l, inst, kind, config.value, host);
      var b := Attempt(l, inst, kind, config.value, host);
      AddAttemptKeepsInv(s, inst, host, b);
      RetainKeepsInv(Add(s, b), inst, config.value.retention, host.later, host.stuck);
    }
  }

  lemma AddAttemptKeepsInv(s: State, inst: string, host: Host, b: Info)
    requires Inv(s) && Fresh(s, inst, host) && Resolved(host)
    requires b.id == inst + "-" + host.timestamp && b.instance == inst && b.createdAt == host.now
    requires b.dataset == host.dataset.value && b.snapshot == "hospitus-backup-" + host.timestamp
    requires b.kind == Incremental && b.base == "" ==> b.status == Failed
    requires b.base == "" || b.base == PreviousSnapshot(Listed(s.mem, inst))
    ensures Inv(Add(s, b))
  {
    if b.base != "" { PreviousSupports(s, inst, b); }
    DraftKeepsInv(s, inst, host, b);
  }

  lemma CreateSnapshotKeepsInv(s: State, inst: string, config: Option<Config>, host: Host)
    requires Inv(s) && Fresh(s, inst, host)
    ensures Inv(CreateSnapshot(s, inst, config, host))
  {
    if Resolved(host) {
      var draft := Draft(inst, Snapshot, host, host.dataset.value);
      DraftKeepsInv(s, inst, host, draft.(status := Failed));
      DraftKeepsInv(s, inst, host, draft.(status := Completed));
      if config.Some? {
        RetainKeepsInv(Add(s, draft.(status := Completed)), inst, config.value.retention, host.later, host.stuck);
      }
    }
  }

  lemma StepKeepsInv(s: State, op: Op)
    requires Inv(s) && Enabled(s, op)
    ensures Inv(Step(s, op))
  {
    match op
    case Backup(inst, kind, config, host) => CreateBackupKeepsInv(s, inst, kind, config, host);
    case TakeSnapshot(inst, config, host) => CreateSnapshotKeepsInv(s, inst, config, host);
    case DeleteOne(id, removalFails) =>
      if HasId(s.mem, id) && !Referenced(s.mem, Lookup(s.mem, id)) {
        RemovedKeepsInv(s, Lookup(s.mem, id), removalFails);
      }
    case ApplyRetention(inst, policy, now, stuck) => RetainKeepsInv(s, inst, policy, now, stuck);
    case VerifyOne(id, intact) =>
    case Restart => RestartKeepsInv(s);
  }

  /** A restart finds again exactly the records and marks that were there. */
  lemma RestartKeepsInv(s: State)
    requires Inv(s)
    ensures Inv(Step(s, Restart)) && Step(s, Restart).verified == s.verified
    ensures forall b :: Recorded(Step(s, Restart).mem, b) <==> Recorded(s.mem, b)
  {
    ReloadedFacts(s.rows);
    var s' := Step(s, Restart);
    forall c | Recorded(s'.mem, c) ensures Sound(s'.mem, c) {
      assert Sound(s.mem, c);
      if c.base != "" {
        var r :| Recorded(s.mem, r) && Supports(r, c);
        assert Recorded(s'.mem, r);
      }
    }
  }

  lemma {:induction false} RunKeepsInv(ops: seq<Op>)
    requires ValidRun(ops)
    ensures Inv(Run(ops))
  {
    if ops != [] {
      RunKeepsInv(ops[..|ops| - 1]);
      StepKeepsInv(Run(ops[..|ops| - 1]), ops[|ops| - 1]);
    }
  }

  // ---- following BaseSnapshot ----

  /** From b, each record is recorded, is the base of the one before it, is
      older and stored; the last is a full backup with no base. */
  ghost predicate IsChain(t: Table, b: Info, chain: seq<Info>) {
    && |chain| > 0 && chain[0] == b
    && (forall k :: 0 <= k < |chain| ==> Recorded(t, chain[k]))
    && (forall k :: 0 <= k < |chain| - 1 ==> Supports(chain[k + 1], chain[k]))
    && chain[|chain| - 1].base == ""
  }

  ghost function Older(t: Table, b: Info): set<Info> {
    set c | c in Listed(t, b.instance) && c.createdAt < b.createdAt
  }

  lemma OlderShrinks(t: Table, r: Info, b: Info)
    requires Recorded(t, r) && r.instance == b.instance && r.createdAt < b.createdAt
    ensures |Older(t, r)| < |Older(t, b)|
  {
    CardinalityMonotone(Older(t, r) + {r}, Older(t, b));
  }

  lemma {:induction false} ChainExists(t: Table, b: Info) returns (chain: seq<Info>)
    requires AllSound(t) && Recorded(t, b)
    ensures IsChain(t, b, chain)
    decreases |Older(t, b)|
  {
    if b.base == "" {
      chain := [b];
    } else {
      assert Sound(t, b);
      var r :| Recorded(t, r) && Supports(r, b);
      OlderShrinks(t, r, b);
      var rest := ChainExists(t, r);
      chain := ExtendChain(t, b, r, rest);
    }
  }

  lemma ExtendChain(t: Table, b: Info, r: Info, rest: seq<Info>) returns (chain: seq<Info>)
    requires Recorded(t, b) && Supports(r, b) && IsChain(t, r, rest)
    ensures IsChain(t, b, chain)
  {
    chain := [b] + rest;
    forall k | 0 <= k < |chain| - 1 ensures Supports(chain[k + 1], chain[k]) {
      if k > 0 { assert Supports(rest[k - 1 + 1], rest[k - 1]); }
    }
  }

  lemma NothingSupportsNoBase(r: Info, b: Info)
    requires b.base == ""
    ensures !Supports(r, b)
  {
    assert |FullName(r)| > 0;
  }

  /** In every run, a record has a base to follow exactly when following it
      leads, through older recorded streams, to a stored full backup; the
      incremental records without one are failures that stored nothing. */
  lemma ChainsNeverBreak(ops: seq<Op>, b: Info)
    requires ValidRun(ops) && Recorded(Run(ops).mem, b)
    ensures b.base != "" <==>
            exists chain: seq<Info> :: IsChain(Run(ops).mem, b, chain) && |chain| > 1 &&
                            chain[|chain| - 1].kind == Full && Stored(chain[|chain| - 1])
    ensures b.kind == Incremental && b.base == "" ==> b.status == Failed
    ensures b.base != "" ==> forall r :: Recorded(Run(ops).mem, r) && FullName(r) == b.base ==> Supports(r, b)
  {
    RunKeepsInv(ops);
    var t := Run(ops).mem;
    assert Sound(t, b);
    if b.base != "" {
      var chain := ChainExists(t, b);
      var n := |chain| - 1;
      assert n > 0;
      assert Supports(chain[n - 1 + 1], chain[n - 1]);
      assert Sound(t, chain[n]);
      assert IsChain(t, b, chain);
      var r0 :| Recorded(t, r0) && Supports(r0, b);
      assert forall r :: Recorded(t, r) && FullName(r) == b.base ==> r.id == r0.id;
    } else {
      forall chain: seq<Info> | IsChain(t, b, chain) ensures |chain| == 1 {
        if |chain| > 1 {
          NothingSupportsNoBase(chain[1], chain[0]);
          assert false;
        }
      }
    }
  }

  /** What the retention theorems ask of a table holds in every run, and the
      manager's retention is the table-level one there. */
  lemma RetentionInRuns(ops: seq<Op>, inst: string, p: Policy, now: int, stuck: set<string>)
    requires ValidRun(ops)
    ensures ValidTable(Run(ops).mem) && BasesOlder(Run(ops).mem)
    ensures Run(ops + [ApplyRetention(inst, p, now, stuck)]).mem == Retained(Run(ops).mem, inst, p, now, stuck)
  {
    RunKeepsInv(ops);
    ChainedBasesOlder(Run(ops).mem);
    RetainKeepsInv(Run(ops), inst, p, now, stuck);
    var more := ops + [ApplyRetention(inst, p, now, stuck)];
    assert more[..|more| - 1] == ops;
  }

  /** A backup asked for as incremental whose hook fails is recorded as an
      incremental with nothing to follow. */
  lemma FailedHookLeavesNoBase()
    ensures exists ops, b :: ValidRun(ops) && Recorded(Run(ops).mem, b) && b.kind == Incremental && b.base == ""
  {
    var host := Host("20260101-000000", 1, 2, Some("zroot/web"), false, true, true, "", {});
    var config := Some(Config("/backup", true, Policy(0, 0, 0, 0, 0, 0)));
    var op := Backup("web", Incremental, config, host);
    var b := Draft("web", Incremental, host, "zroot/web").(status := Failed);
    assert Run([]) == EMPTY;
    assert [op][..0] == [];
    assert Enabled(EMPTY, op);
    assert ValidRun([]);
    assert ValidRun([op]);
    assert Attempt([], "web", Incremental, config.value, host) == b;
    assert Run([op]) == Add(EMPTY, b);
    assert Recorded(Run([op]).mem, b);
  }
}
