/** The instances and events tables: rows carry columns extracted from the spec
    for filtering, a handle naming the instance at its provider, and events
    that refer to them. Each statement may also fail without effect. */
module Datastore {
  import opened Text
  import opened LikeFilter

  /** JSON columns are kept decoded. */
  datatype Spec = Spec(name: string, cpus: int, memoryMB: int, osType: string, arch: string, image: string, other: string)

  datatype Handle = Handle(id: string, provider: string, metadata: map<string, Value>)

  /** Metadata values: text, or anything else. */
  datatype Value = Text(text: string) | Opaque(json: string)

  datatype Row = Row(
    name: string, provider: string, state: string, spec: Spec, handle: Handle, backup: string,
    cpus: int, memoryMB: int, osType: string, arch: string, image: string)

  datatype Event = Event(instance: string, kind: string, state: string)

  datatype DB = DB(rows: map<string, Row>, events: seq<Event>)

  const EMPTY := DB(map[], [])

  // ---- statements ----

  ghost predicate NameTaken(db: DB, name: string) {
    exists id :: id in db.rows && db.rows[id].name == name
  }

  /** An instance without a backup configuration gets an empty object. */
  function BackupColumn(backup: Option<string>): string { if backup.Some? then backup.value else "{}" }

  ghost function Insert(db: DB, id: string, name: string, provider: string, state: string, spec: Spec, handle: Handle, backup: Option<string>): DB {
    if id in db.rows || NameTaken(db, name) then db
    else db.(rows := db.rows[id := Row(name, provider, state, spec, handle, BackupColumn(backup),
                                      spec.cpus, spec.memoryMB, spec.osType, spec.arch, spec.image)])
  }

  /** Refused by the foreign key when the instance is gone. */
  function RecordEvent(db: DB, e: Event): DB {
    if e.instance !in db.rows then db else db.(events := db.events + [e])
  }

  function SetState(db: DB, id: string, state: string): DB {
    if id !in db.rows then db else db.(rows := db.rows[id := db.rows[id].(state := state)])
  }

  function SetSpec(db: DB, id: string, spec: Spec): DB {
    if id !in db.rows then db
    else db.(rows := db.rows[id := db.rows[id].(
      spec := spec, cpus := spec.cpus, memoryMB := spec.memoryMB, osType := spec.osType, arch := spec.arch, image := spec.image)])
  }

  function SetHandle(db: DB, id: string, handle: Handle): DB {
    if id !in db.rows then db else db.(rows := db.rows[id := db.rows[id].(handle := handle)])
  }

  function SetBackup(db: DB, id: string, backup: string): DB {
    if id !in db.rows then db else db.(rows := db.rows[id := db.rows[id].(backup := backup)])
  }

  function Repointed(events: seq<Event>, from: string, to: string): (r: seq<Event>)
    ensures |r| == |events|
    ensures forall i :: 0 <= i < |r| ==> r[i] == if events[i].instance == from then events[i].(instance := to) else events[i]
  {
    seq(|events|, i requires 0 <= i < |events| =>
      if events[i].instance == from then events[i].(instance := to) else events[i])
  }

  /** The new id and the new name are free for the row to take. */
  ghost predicate CanRename(db: DB, from: string, to: string) {
    from in db.rows && forall id :: id in db.rows && id != from ==> id != to && db.rows[id].name != to
  }

  /** One transaction: id, name, the name inside the spec, handle, and the events' reference. */
  ghost function Rename(db: DB, from: string, to: string, handle: Handle): DB {
    if !CanRename(db, from, to) then db
    else
      var row := db.rows[from].(name := to, spec := db.rows[from].spec.(name := to), handle := handle);
      DB((db.rows - {from})[to := row], Repointed(db.events, from, to))
  }

  function Without(events: seq<Event>, id: string): (r: seq<Event>)
    ensures forall e :: e in r <==> e in events && e.instance != id
  {
    if events == [] then []
    else if events[0].instance == id then Without(events[1..], id)
    else [events[0]] + Without(events[1..], id)
  }

  /** ON DELETE CASCADE takes the events along. */
  function Delete(db: DB, id: string): DB {
    if id !in db.rows then db else DB(db.rows - {id}, Without(db.events, id))
  }

  datatype Op =
    | DoInsert(id: string, name: string, provider: string, state: string, spec: Spec, handle: Handle, given: Option<string>)
    | DoEvent(event: Event)
    | DoState(id: string, state: string)
    | DoSpec(id: string, spec: Spec)
    | DoHandle(id: string, handle: Handle)
    | DoBackup(id: string, backup: string)
    | DoRename(from: string, to: string, handle: Handle)
    | DoDelete(id: string)
    | DoNothing // a statement that failed

  ghost function Step(db: DB, op: Op): DB {
    match op
    case DoInsert(id, name, provider, state, spec, handle, backup) => Insert(db, id, name, provider, state, spec, handle, backup)
    case DoEvent(event) => RecordEvent(db, event)
    case DoState(id, state) => SetState(db, id, state)
    case DoSpec(id, spec) => SetSpec(db, id, spec)
    case DoHandle(id, handle) => SetHandle(db, id, handle)
    case DoBackup(id, backup) => SetBackup(db, id, backup)
    case DoRename(from, to, handle) => Rename(db, from, to, handle)
    case DoDelete(id) => Delete(db, id)
    case DoNothing => db
  }

  ghost function Run(ops: seq<Op>): DB {
    if ops == [] then EMPTY else Step(Run(ops[..|ops| - 1]), ops[|ops| - 1])
  }

  // ---- what one statement leaves ----

  /** No row but this one, and no event, is any different. */
  ghost predicate OnlyRow(db: DB, db': DB, id: string) {
    && db'.events == db.events
    && (forall k :: k != id ==> (k in db'.rows <==> k in db.rows))
    && (forall k :: k != id && k in db.rows ==> db'.rows[k] == db.rows[k])
  }

  /** A new row holds what was given, and the columns what its spec says. */
  lemma InsertLeaves(db: DB, id: string, name: string, provider: string, state: string, spec: Spec, handle: Handle, backup: Option<string>)
    ensures var db' := Insert(db, id, name, provider, state, spec, handle, backup);
            if id in db.rows || NameTaken(db, name) then db' == db
            else
              && OnlyRow(db, db', id) && id in db'.rows
              && (var r := db'.rows[id];
                  && r.name == name && r.provider == provider && r.state == state && r.spec == spec && r.handle == handle
                  && (backup.Some? ==> r.backup == backup.value) && (backup.None? ==> r.backup == "{}")
                  && r.cpus == spec.cpus && r.memoryMB == spec.memoryMB && r.osType == spec.osType
                  && r.arch == spec.arch && r.image == spec.image)
  {
  }

  /** The row differs at most where this says it may. */
  ghost predicate SameRow(r: Row, s: Row, state: bool, spec: bool, handle: bool, backup: bool) {
    && r.name == s.name && r.provider == s.provider
    && (state || r.state == s.state) && (handle || r.handle == s.handle) && (backup || r.backup == s.backup)
    && (spec || (r.spec == s.spec && r.cpus == s.cpus && r.memoryMB == s.memoryMB && r.osType == s.osType
                 && r.arch == s.arch && r.image == s.image))
  }

  /** An update of a row that is there writes what it is for and nothing else; of
      one that is not, nothing. */
  lemma UpdatesLeave(db: DB, id: string, state: string, spec: Spec, handle: Handle, backup: string)
    ensures id !in db.rows ==>
              SetState(db, id, state) == SetSpec(db, id, spec) == SetHandle(db, id, handle) == SetBackup(db, id, backup) == db
    ensures id in db.rows ==>
              var s, p := SetState(db, id, state), SetSpec(db, id, spec);
              && OnlyRow(db, s, id) && id in s.rows && s.rows[id].state == state
              && SameRow(s.rows[id], db.rows[id], true, false, false, false)
              && OnlyRow(db, p, id) && id in p.rows && p.rows[id].spec == spec
              && p.rows[id].cpus == spec.cpus && p.rows[id].memoryMB == spec.memoryMB && p.rows[id].osType == spec.osType
              && p.rows[id].arch == spec.arch && p.rows[id].image == spec.image
              && SameRow(p.rows[id], db.rows[id], false, true, false, false)
    ensures id in db.rows ==>
              var h, b := SetHandle(db, id, handle), SetBackup(db, id, backup);
              && OnlyRow(db, h, id) && id in h.rows && h.rows[id].handle == handle
              && SameRow(h.rows[id], db.rows[id], false, false, true, false)
              && OnlyRow(db, b, id) && id in b.rows && b.rows[id].backup == backup
              && SameRow(b.rows[id], db.rows[id], false, false, false, true)
  {
  }

  /** A deletion takes the row and its events, and leaves every other row and the
      other events in their order. */
  lemma {:induction false} DeleteLeaves(db: DB, id: string)
    ensures id !in db.rows ==> Delete(db, id) == db
    ensures id in db.rows ==> id !in Delete(db, id).rows && OthersInOrder(db.events, Delete(db, id).events, id)
    ensures forall k :: k != id ==> (k in Delete(db, id).rows <==> k in db.rows)
    ensures forall k :: k != id && k in db.rows ==> Delete(db, id).rows[k] == db.rows[k]
  {
    WithoutInOrder(db.events, id);
  }

  /** `left` is what remains of `all` when the events of an instance are struck out. */
  ghost predicate OthersInOrder(all: seq<Event>, left: seq<Event>, id: string) {
    if all == [] then left == []
    else if all[0].instance == id then OthersInOrder(all[1..], left, id)
    else left != [] && left[0] == all[0] && OthersInOrder(all[1..], left[1..], id)
  }

  lemma {:induction false} WithoutInOrder(events: seq<Event>, id: string)
    ensures OthersInOrder(events, Without(events, id), id)
  {
    if events != [] { WithoutInOrder(events[1..], id); }
  }

  // ---- what every state keeps ----

  /** The extracted columns say what the spec says. */
  predicate InStep(r: Row) {
    r.cpus == r.spec.cpus && r.memoryMB == r.spec.memoryMB && r.osType == r.spec.osType &&
    r.arch == r.spec.arch && r.image == r.spec.image
  }

  ghost predicate Inv(db: DB) {
    && (forall id :: id in db.rows ==> InStep(db.rows[id]))
    && (forall a, b :: a in db.rows && b in db.rows && a != b ==> db.rows[a].name != db.rows[b].name)
    && (forall i :: 0 <= i < |db.events| ==> db.events[i].instance in db.rows)
  }

  lemma RenameKeepsInv(db: DB, from: string, to: string, handle: Handle)
    requires Inv(db)
    ensures Inv(Rename(db, from, to, handle))
  {
    if CanRename(db, from, to) {
      var db' := Rename(db, from, to, handle);
      forall i | 0 <= i < |db'.events| ensures db'.events[i].instance in db'.rows {
        assert db.events[i].instance in db.rows;
      }
    }
  }

  lemma DeleteKeepsInv(db: DB, id: string)
    requires Inv(db)
    ensures Inv(Delete(db, id))
  {
    var events := Without(db.events, id);
    forall i | 0 <= i < |events| ensures events[i].instance in db.rows && events[i].instance != id {
      assert events[i] in events;
    }
  }

  lemma UpdateKeepsInv(db: DB, id: string, row: Row)
    requires Inv(db) && id in db.rows && row.name == db.rows[id].name && InStep(row)
    ensures Inv(db.(rows := db.rows[id := row]))
  {
  }

  lemma StepKeepsInv(db: DB, op: Op)
    requires Inv(db)
    ensures Inv(Step(db, op))
  {
    match op
    case DoState(id, _) => if id in db.rows { UpdateKeepsInv(db, id, Step(db, op).rows[id]); }
    case DoSpec(id, _) => if id in db.rows { UpdateKeepsInv(db, id, Step(db, op).rows[id]); }
    case DoHandle(id, _) => if id in db.rows { UpdateKeepsInv(db, id, Step(db, op).rows[id]); }
    case DoBackup(id, _) => if id in db.rows { UpdateKeepsInv(db, id, Step(db, op).rows[id]); }
    case DoDelete(id) => DeleteKeepsInv(db, id);
    case DoRename(from, to, handle) => RenameKeepsInv(db, from, to, handle);
    case _ =>
  }

  lemma {:induction false} RunKeepsInv(ops: seq<Op>)
    ensures Inv(Run(ops))
  {
    if ops != [] {
      RunKeepsInv(ops[..|ops| - 1]);
      StepKeepsInv(Run(ops[..|ops| - 1]), ops[|ops| - 1]);
    }
  }

  /** Renaming carries an instance over unchanged but for its names: the events
      it had are the events it has, and what the filters see stays the same. */
  lemma RenameCarriesOver(db: DB, from: string, to: string, handle: Handle)
    requires Inv(db) && CanRename(db, from, to) && from != to
    ensures var db' := Rename(db, from, to, handle);
            && from !in db'.rows && to in db'.rows
            && db'.rows[to].spec == db.rows[from].spec.(name := to) && InStep(db'.rows[to])
            && (forall id :: id in db.rows && id != from ==> id in db'.rows && db'.rows[id] == db.rows[id])
            && (forall i :: 0 <= i < |db.events| ==>
                  (db'.events[i].instance == to <==> db.events[i].instance == from))
  {
    forall i | 0 <= i < |db.events| ensures db.events[i].instance != to {
      assert db.events[i].instance in db.rows;
      assert to !in db.rows;
    }
  }

  // ---- handles ----

  ghost predicate HandlesMatch(db: DB) {
    forall id :: id in db.rows ==> db.rows[id].handle.id == id
  }

  /** The handle the operation writes, if it writes one, names the row it ends up on. */
  ghost predicate NamesItsRow(db: DB, op: Op) {
    match op
    case DoInsert(id, name, _, _, _, handle, _) => id in db.rows || NameTaken(db, name) || handle.id == id
    case DoHandle(id, handle) => id !in db.rows || handle.id == id
    case DoRename(from, to, handle) => !CanRename(db, from, to) || handle.id == to
    case _ => true
  }

  /** Rows and handles go on agreeing exactly as long as each handle written
      names its row. The statements do not check it; their callers do. */
  lemma HandlesMatchIff(db: DB, op: Op)
    requires HandlesMatch(db)
    ensures HandlesMatch(Step(db, op)) <==> NamesItsRow(db, op)
  {
    match op
    case DoInsert(id, name, provider, state, spec, handle, backup) =>
      if id !in db.rows && !NameTaken(db, name) { assert Step(db, op).rows[id].handle == handle; }
    case DoHandle(id, handle) =>
      if id in db.rows { assert Step(db, op).rows[id].handle == handle; }
    case DoRename(from, to, handle) =>
      if CanRename(db, from, to) { assert Step(db, op).rows[to].handle == handle; }
    case DoState(id, state) =>
      if id in db.rows { assert forall k :: k in db.rows ==> Step(db, op).rows[k].handle == db.rows[k].handle; }
    case DoSpec(id, spec) =>
      if id in db.rows { assert forall k :: k in db.rows ==> Step(db, op).rows[k].handle == db.rows[k].handle; }
    case DoBackup(id, backup) =>
      if id in db.rows { assert forall k :: k in db.rows ==> Step(db, op).rows[k].handle == db.rows[k].handle; }
    case _ =>
  }

  /** Rows and handles agreed after every statement of the run. */
  ghost predicate AlwaysMatched(ops: seq<Op>) {
    HandlesMatch(Run(ops)) && (ops == [] || AlwaysMatched(ops[..|ops| - 1]))
  }

  ghost predicate AllNamed(ops: seq<Op>) {
    ops == [] || (AllNamed(ops[..|ops| - 1]) && NamesItsRow(Run(ops[..|ops| - 1]), ops[|ops| - 1]))
  }

  /** Over a whole run: rows and handles agree at every moment exactly when
      every write along the way named its row. */
  lemma {:induction false} RunHandlesIff(ops: seq<Op>)
    ensures AlwaysMatched(ops) <==> AllNamed(ops)
  {
    if ops != [] {
      var init := ops[..|ops| - 1];
      RunHandlesIff(init);
      if AlwaysMatched(init) { HandlesMatchIff(Run(init), ops[|ops| - 1]); }
    }
  }

  /** The handle written is for the id it is written under, as the daemon's own
      callers write it: the id is the handle's, or the handle the row's, or the
      handle was asked for under the new name. */
  predicate OwnHandle(op: Op) {
    match op
    case DoInsert(id, _, _, _, _, handle, _) => handle.id == id
    case DoHandle(id, handle) => handle.id == id
    case DoRename(_, to, handle) => handle.id == to
    case _ => true
  }

  /** So in every state the daemon's callers can reach, each row's handle names it. */
  lemma {:induction false} HandlesMatchInRuns(ops: seq<Op>)
    requires forall k :: 0 <= k < |ops| ==> OwnHandle(ops[k])
    ensures HandlesMatch(Run(ops))
  {
    if ops != [] {
      var init := ops[..|ops| - 1];
      HandlesMatchInRuns(init);
      HandlesMatchIff(Run(init), ops[|ops| - 1]);
    }
  }

  /** The statements themselves take any handle. */
  lemma MismatchedHandleIsStored(spec: Spec)
    ensures var op := DoInsert("a", "a", "jail", "running", spec, Handle("b", "jail", map[]), None);
            !OwnHandle(op) && HandlesMatch(EMPTY) && !HandlesMatch(Step(EMPTY, op))
  {
    var op := DoInsert("a", "a", "jail", "running", spec, Handle("b", "jail", map[]), None);
    HandlesMatchIff(EMPTY, op);
  }

  // ---- filters ----

  datatype Filter = Filter(
    provider: string, states: seq<string>,
    minCPUs: Option<int>, maxCPUs: Option<int>, minMemoryMB: Option<int>, maxMemoryMB: Option<int>,
    osType: string, arch: string, image: string)

  /** A conjunct of the WHERE clause, with its arguments. */
  datatype Cond =
    | ProviderIs(v: string) | StateIn(vs: seq<string>)
    | CpusAtLeast(n: int) | CpusAtMost(n: int) | MemoryAtLeast(n: int) | MemoryAtMost(n: int)
    | OsIs(v: string) | ArchIs(v: string) | ImageLike(v: string)

  /** SQLite's answer, from the columns alone. */
  predicate Holds(c: Cond, r: Row) {
    match c
    case ProviderIs(v) => r.provider == v
    case StateIn(vs) => r.state in vs
    case CpusAtLeast(n) => r.cpus >= n
    case CpusAtMost(n) => r.cpus <= n
    case MemoryAtLeast(n) => r.memoryMB >= n
    case MemoryAtMost(n) => r.memoryMB <= n
    case OsIs(v) => r.osType == v
    case ArchIs(v) => r.arch == v
    case ImageLike(v) => Like(v, r.image)
  }

  predicate AllHold(cs: seq<Cond>, r: Row) {
    forall i :: 0 <= i < |cs| ==> Holds(cs[i], r)
  }

  /** What the filter means for an instance, from its spec. */
  predicate Wanted(f: Filter, r: Row) {
    && (f.provider == "" || r.provider == f.provider)
    && (f.states == [] || r.state in f.states)
    && (f.minCPUs.None? || r.spec.cpus >= f.minCPUs.value)
    && (f.maxCPUs.None? || r.spec.cpus <= f.maxCPUs.value)
    && (f.minMemoryMB.None? || r.spec.memoryMB >= f.minMemoryMB.value)
    && (f.maxMemoryMB.None? || r.spec.memoryMB <= f.maxMemoryMB.value)
    && (f.osType == "" || r.spec.osType == f.osType)
    && (f.arch == "" || r.spec.arch == f.arch)
    && (f.image == "" || ContainsFold(r.spec.image, f.image))
  }

  /** " AND ..." */
  function And(cs: seq<Cond>, c: Cond): (q: seq<Cond>)
    ensures forall r :: AllHold(q, r) <==> AllHold(cs, r) && Holds(c, r)
  {
    assert forall r :: AllHold(cs + [c], r) ==> Holds((cs + [c])[|cs|], r);
    assert forall i :: 0 <= i < |cs| ==> (cs + [c])[i] == cs[i];
    cs + [c]
  }

  predicate InBounds(f: Filter, r: Row) {
    && (f.minCPUs.None? || r.cpus >= f.minCPUs.value)
    && (f.maxCPUs.None? || r.cpus <= f.maxCPUs.value)
    && (f.minMemoryMB.None? || r.memoryMB >= f.minMemoryMB.value)
    && (f.maxMemoryMB.None? || r.memoryMB <= f.maxMemoryMB.value)
  }

  method AddBounds(cs: seq<Cond>, f: Filter) returns (q: seq<Cond>)
    ensures forall r :: AllHold(q, r) <==> AllHold(cs, r) && InBounds(f, r)
  {
    q := cs;
    if f.minCPUs.Some? {
      q := And(q, CpusAtLeast(f.minCPUs.value));
    }
    if f.maxCPUs.Some? {
      q := And(q, CpusAtMost(f.maxCPUs.value));
    }
    if f.minMemoryMB.Some? {
      q := And(q, MemoryAtLeast(f.minMemoryMB.value));
    }
    if f.maxMemoryMB.Some? {
      q := And(q, MemoryAtMost(f.maxMemoryMB.value));
    }
  }

  predicate NamesMatch(f: Filter, r: Row) {
    && (f.osType == "" || r.osType == f.osType)
    && (f.arch == "" || r.arch == f.arch)
    && (f.image == "" || Like("%" + Escaped(f.image) + "%", r.image))
  }

  method AddNames(cs: seq<Cond>, f: Filter) returns (q: seq<Cond>)
    ensures forall r :: AllHold(q, r) <==> AllHold(cs, r) && NamesMatch(f, r)
  {
    q := cs;
    if f.osType != "" {
      q := And(q, OsIs(f.osType));
    }
    if f.arch != "" {
      q := And(q, ArchIs(f.arch));
    }
    if f.image != "" {
      q := And(q, ImageLike("%" + Escaped(f.image) + "%"));
    }
  }

  /** The query ListInstances builds, condition by condition, holds of a row
      exactly when its instance is wanted. */
  method BuildQuery(f: Filter) returns (cs: seq<Cond>)
    ensures forall r :: InStep(r) ==> (AllHold(cs, r) <==> Wanted(f, r))
  {
    cs := [];
    if f.provider != "" {
      cs := And(cs, ProviderIs(f.provider));
    }
    if |f.states| > 0 {
      var args: seq<string> := [];
      for i := 0 to |f.states|
        invariant args == f.states[..i]
      {
        args := args + [f.states[i]];
      }
      assert args == f.states;
      cs := And(cs, StateIn(args));
    }
    cs := AddBounds(cs, f);
    cs := AddNames(cs, f);
    forall r | InStep(r) ensures AllHold(cs, r) <==> Wanted(f, r) {
      ImageFilterIsSubstring(f.image, r.image);
    }
  }

  /** In every reachable state the columns answer a filter as the specs would. */
  lemma FiltersAnswerFromSpecs(ops: seq<Op>, f: Filter, cs: seq<Cond>)
    requires forall r :: InStep(r) ==> (AllHold(cs, r) <==> Wanted(f, r))
    ensures var db := Run(ops);
            (set id | id in db.rows && AllHold(cs, db.rows[id])) == (set id | id in db.rows && Wanted(f, db.rows[id]))
  {
    RunKeepsInv(ops);
  }

  // ---- the store's methods ----

  /** Go's Datastore. works tells whether SQLite carries the statement out. */
  class Store {
    var rows: map<string, Row>
    var events: seq<Event>

    constructor ()
      ensures Abs() == EMPTY
    {
      rows, events := map[], [];
    }

    ghost function Abs(): DB
      reads this
    {
      DB(rows, events)
    }

    /** UNIQUE(name): the row that holds a name, if any. */
    method NameHolder(name: string) returns (id: Option<string>)
      ensures id.Some? ==> id.value in rows && rows[id.value].name == name
      ensures id.None? ==> !NameTaken(Abs(), name)
    {
      var todo := rows.Keys;
      while todo != {}
        invariant todo <= rows.Keys
        invariant forall k :: k in rows && k !in todo ==> rows[k].name != name
        decreases todo
      {
        var k :| k in todo;
        if rows[k].name == name {
          return Some(k);
        }
        todo := todo - {k};
      }
      return None;
    }

    method AddEvent(e: Event, works: bool)
      modifies this`events
      ensures Abs() == Step(old(Abs()), if works then DoEvent(e) else DoNothing)
    {
      if works && e.instance in rows {
        events := events + [e];
      }
    }

    method CreateInstance(id: string, name: string, provider: string, state: string, spec: Spec, handle: Handle,
                          backup: Option<string>, works: bool, eventWorks: bool) returns (ok: bool)
      modifies this
      ensures ok <==> works && id !in old(rows) && !NameTaken(old(Abs()), name)
      ensures Abs() == if !ok then old(Abs()) else
                Step(Step(old(Abs()), DoInsert(id, name, provider, state, spec, handle, backup)),
                     if eventWorks then DoEvent(Event(id, "created", state)) else DoNothing)
    {
      var holder := NameHolder(name);
      if !works || id in rows || holder.Some? {
        return false;
      }
      var column := "{}";
      if backup.Some? {
        column := backup.value;
      }
      rows := rows[id := Row(name, provider, state, spec, handle, column,
                             spec.cpus, spec.memoryMB, spec.osType, spec.arch, spec.image)];
      AddEvent(Event(id, "created", state), eventWorks);
      return true;
    }

    method UpdateInstanceState(id: string, state: string, works: bool, eventWorks: bool) returns (ok: bool)
      modifies this
      ensures ok <==> works && id in old(rows)
      ensures Abs() == if !ok then old(Abs()) else
                Step(Step(old(Abs()), DoState(id, state)),
                     if eventWorks then DoEvent(Event(id, "updated", state)) else DoNothing)
    {
      if !works || id !in rows {
        return false;
      }
      rows := rows[id := rows[id].(state := state)];
      AddEvent(Event(id, "updated", state), eventWorks);
      return true;
    }

    method UpdateInstanceSpec(id: string, spec: Spec, works: bool) returns (ok: bool)
      modifies this
      ensures ok <==> works && id in old(rows)
      ensures Abs() == if ok then Step(old(Abs()), DoSpec(id, spec)) else old(Abs())
    {
      if !works || id !in rows {
        return false;
      }
      rows := rows[id := rows[id].(spec := spec, cpus := spec.cpus, memoryMB := spec.memoryMB,
                                   osType := spec.osType, arch := spec.arch, image := spec.image)];
      return true;
    }

    method UpdateInstanceHandle(id: string, handle: Handle, works: bool) returns (ok: bool)
      modifies this
      ensures ok <==> works && id in old(rows)
      ensures Abs() == if ok then Step(old(Abs()), DoHandle(id, handle)) else old(Abs())
    {
      if !works || id !in rows {
        return false;
      }
      rows := rows[id := rows[id].(handle := handle)];
      return true;
    }

    method RenameInstance(from: string, to: string, handle: Handle, works: bool) returns (ok: bool)
      requires Inv(Abs())
      modifies this
      ensures ok <==> works && CanRename(old(Abs()), from, to)
      ensures Abs() == if ok then Step(old(Abs()), DoRename(from, to, handle)) else old(Abs())
    {
      if !works || from !in rows {
        return false;
      }
      var holder := NameHolder(to);
      if (to in rows && to != from) || (holder.Some? && holder.value != from) {
        return false;
      }
      var spec := rows[from].spec.(name := to);
      rows := (rows - {from})[to := rows[from].(name := to, spec := spec, handle := handle)];
      events := Repointed(events, from, to);
      return true;
    }

    method DeleteInstance(id: string, works: bool) returns (ok: bool)
      modifies this
      ensures ok <==> works && id in old(rows)
      ensures Abs() == if ok then Step(old(Abs()), DoDelete(id)) else old(Abs())
    {
      if !works || id !in rows {
        return false;
      }
      rows := rows - {id};
      events := Without(events, id);
      return true;
    }
  }
}
