/** Renaming an instance: the provider renames first, then one datastore
    transaction records it, and if that is refused the provider's rename is
    undone. Many requests run at once, each step of each atomic. */
module RenameSaga {
  import opened Text
  import opened Datastore

  // ---- the handle a renamed instance carries ----

  /** An old handle's metadata minus the texts that mention the old name. */
  function Carried(previous: Handle): map<string, Value> {
    map k | k in previous.metadata && !(previous.id != "" && previous.metadata[k].Text? && Contains(previous.metadata[k].text, previous.id))
      :: previous.metadata[k]
  }

  /** renamedHandle: the provider's own answer for the new name, or the old
      handle under it. listed is what the provider's ListInstances returned. */
  method RenamedHandle(listed: Option<seq<Handle>>, previous: Handle, newName: string) returns (h: Handle)
    ensures HandleAfter(h, listed, previous, newName)
    ensures h.id == newName
    ensures listed.Some? && (exists i :: 0 <= i < |listed.value| && listed.value[i].id == newName) ==> h in listed.value
    ensures !(listed.Some? && exists i :: 0 <= i < |listed.value| && listed.value[i].id == newName) ==>
              h == Handle(newName, previous.provider, Carried(previous))
  {
    if listed.Some? {
      for i := 0 to |listed.value|
        invariant forall k :: 0 <= k < i ==> listed.value[k].id != newName
      {
        if listed.value[i].id == newName {
          return listed.value[i];
        }
      }
    }
    var kept: map<string, Value> := map[];
    var todo := previous.metadata.Keys;
    while todo != {}
      invariant todo <= previous.metadata.Keys
      invariant kept == map k | k in Carried(previous) && k !in todo :: previous.metadata[k]
      decreases todo
    {
      var k :| k in todo;
      todo := todo - {k};
      var v := previous.metadata[k];
      if previous.id != "" && v.Text? && Contains(v.text, previous.id) {
        continue;
      }
      kept := kept[k := v];
    }
    assert kept == Carried(previous);
    h := Handle(newName, previous.provider, kept);
  }

  // ---- requests, step by step ----

  datatype Phase = Looked | Checked | Renamed | Refused | Stuck | Answered(status: int)

  /** A rename request: what it read about the instance, the name it asks for,
      and how far it has come. */
  datatype Request = Request(provider: string, id: string, handle: string, to: string, phase: Phase)

  /** Each instance a provider holds, and the datastore. */
  datatype World = World(held: seq<(string, string)>, db: DB, requests: seq<Request>)

  datatype Action =
    | Look(id: string, to: string)
    | Check(r: nat)
    | RenameAtProvider(r: nat, k: nat, works: bool)
    | Record(r: nat, handle: Handle, works: bool)
    | Undo(r: nat, k: nat, works: bool)
    | Other(op: Op)

  /** Position k is the instance called `name`, and `to` is free at its provider. */
  predicate Movable(w: World, provider: string, name: string, to: string, k: nat) {
    k < |w.held| && w.held[k] == (provider, name) && (provider, to) !in w.held
  }

  predicate InPhase(w: World, r: nat, phase: Phase) {
    r < |w.requests| && w.requests[r].phase == phase
  }

  ghost predicate Enabled(w: World, a: Action) {
    match a
    case Look(id, to) => id in w.db.rows && ValidInstanceName(to)
    case Check(r) => InPhase(w, r, Looked)
    case RenameAtProvider(r, k, works) =>
      InPhase(w, r, Checked) && (works ==> Movable(w, w.requests[r].provider, w.requests[r].handle, w.requests[r].to, k))
    case Record(r, handle, _) => InPhase(w, r, Renamed) && handle.id == w.requests[r].to
    case Undo(r, k, works) =>
      InPhase(w, r, Refused) && (works ==> Movable(w, w.requests[r].provider, w.requests[r].to, w.requests[r].handle, k))
    case Other(op) =>
      match op
      case DoHandle(id, handle) => handle.id == id
      case DoState(_, _) => true
      case DoSpec(_, _) => true
      case DoBackup(_, _) => true
      case DoEvent(_) => true
      case _ => false
  }

  function At(w: World, r: nat, phase: Phase): World
    requires r < |w.requests|
  {
    w.(requests := w.requests[r := w.requests[r].(phase := phase)])
  }

  function Called(w: World, k: nat, name: string): World
    requires k < |w.held|
  {
    w.(held := w.held[k := (w.held[k].0, name)])
  }

  ghost function Step(w: World, a: Action): World
    requires Enabled(w, a)
  {
    match a
    case Look(id, to) =>
      var row := w.db.rows[id];
      w.(requests := w.requests + [Request(row.provider, id, row.handle.id, to, Looked)])
    case Check(r) =>
      At(w, r, if NameTaken(w.db, w.requests[r].to) then Answered(409) else Checked)
    case RenameAtProvider(r, k, works) =>
      if works then At(Called(w, k, w.requests[r].to), r, Renamed) else At(w, r, Answered(500))
    case Record(r, handle, works) =>
      var q := w.requests[r];
      if works && CanRename(w.db, q.id, q.to) then At(w.(db := Rename(w.db, q.id, q.to, handle)), r, Answered(200))
      else At(w, r, Refused)
    case Undo(r, k, works) =>
      if works then At(Called(w, k, w.requests[r].handle), r, Answered(500)) else At(w, r, Stuck)
    case Other(op) => w.(db := Datastore.Step(w.db, op))
  }

  ghost predicate ValidRun(w: World, run: seq<Action>)
    decreases |run|
  {
    run == [] || (Enabled(w, run[0]) && ValidRun(Step(w, run[0]), run[1..]))
  }

  ghost function Run(w: World, run: seq<Action>): World
    requires ValidRun(w, run)
    decreases |run|
  {
    if run == [] then w else Run(Step(w, run[0]), run[1..])
  }

  // ---- the balance ----

  type Key = (string, string)

  /** Instances are told apart by name alone, or by provider and name. */
  function KeyOf(byProvider: bool, provider: string, name: string): Key {
    (if byProvider then provider else "", name)
  }

  function One(hit: bool): nat { if hit then 1 else 0 }

  /** How many instances at the providers have this key. */
  function HeldCount(byProvider: bool, held: seq<(string, string)>, x: Key): nat {
    if held == [] then 0
    else
      var n := |held| - 1;
      HeldCount(byProvider, held[..n], x) + One(KeyOf(byProvider, held[n].0, held[n].1) == x)
  }

  /** How many rows have this key: ids are unique. */
  function StoredCount(byProvider: bool, db: DB, x: Key): nat {
    One(x.1 in db.rows && KeyOf(byProvider, db.rows[x.1].provider, x.1) == x)
  }

  /** The provider has renamed and the datastore does not say so. */
  predicate Open(q: Request) { q.phase.Renamed? || q.phase.Refused? || q.phase.Stuck? }

  /** Whether the old (or new) name of an open request has this key. */
  function Debt(byProvider: bool, renamed: bool, q: Request, x: Key): nat {
    One(Open(q) && KeyOf(byProvider, q.provider, if renamed then q.to else q.handle) == x)
  }

  function Debts(byProvider: bool, renamed: bool, qs: seq<Request>, x: Key): nat {
    if qs == [] then 0
    else Debts(byProvider, renamed, qs[..|qs| - 1], x) + Debt(byProvider, renamed, qs[|qs| - 1], x)
  }

  ghost predicate BalancedAt(byProvider: bool, w: World, x: Key) {
    HeldCount(byProvider, w.held, x) + Debts(byProvider, false, w.requests, x) ==
    StoredCount(byProvider, w.db, x) + Debts(byProvider, true, w.requests, x)
  }

  /** As multisets: what the providers hold plus the old names of open renames
      is what the datastore holds plus their new names. */
  ghost predicate Balanced(byProvider: bool, w: World) {
    forall x :: BalancedAt(byProvider, w, x)
  }

  /** Providers and datastore hold the same keys, each as often. */
  ghost predicate Agree(byProvider: bool, w: World) {
    forall x :: HeldCount(byProvider, w.held, x) == StoredCount(byProvider, w.db, x)
  }

  ghost predicate Inv(w: World) {
    && HandlesMatch(w.db)
    && forall r :: 0 <= r < |w.requests| ==>
         w.requests[r].handle == w.requests[r].id && (Open(w.requests[r]) ==> w.requests[r].id != w.requests[r].to)
  }

  lemma {:induction false} DebtsUpdate(byProvider: bool, renamed: bool, qs: seq<Request>, r: nat, q: Request, x: Key)
    requires r < |qs|
    ensures Debts(byProvider, renamed, qs[r := q], x) + Debt(byProvider, renamed, qs[r], x) ==
            Debts(byProvider, renamed, qs, x) + Debt(byProvider, renamed, q, x)
  {
    var n := |qs| - 1;
    if r == n {
      assert qs[r := q][..n] == qs[..n];
    } else {
      assert qs[r := q][..n] == qs[..n][r := q];
      DebtsUpdate(byProvider, renamed, qs[..n], r, q, x);
    }
  }

  lemma {:induction false} HeldUpdate(byProvider: bool, held: seq<(string, string)>, k: nat, pair: (string, string), x: Key)
    requires k < |held|
    ensures HeldCount(byProvider, held[k := pair], x) + One(KeyOf(byProvider, held[k].0, held[k].1) == x) ==
            HeldCount(byProvider, held, x) + One(KeyOf(byProvider, pair.0, pair.1) == x)
  {
    var n := |held| - 1;
    if k == n {
      assert held[k := pair][..n] == held[..n];
    } else {
      assert held[k := pair][..n] == held[..n][k := pair];
      HeldUpdate(byProvider, held[..n], k, pair, x);
    }
  }

  lemma RenamedRow(byProvider: bool, db: DB, from: string, to: string, handle: Handle, x: Key)
    requires CanRename(db, from, to) && from != to
    ensures var p := db.rows[from].provider;
            StoredCount(byProvider, Rename(db, from, to, handle), x) + One(KeyOf(byProvider, p, from) == x) ==
            StoredCount(byProvider, db, x) + One(KeyOf(byProvider, p, to) == x)
  {
  }

  // ---- every step ----

  /** The row a commit writes to belongs to the provider that was renamed at. */
  ghost predicate OwnRow(w: World, a: Action) {
    a.Record? && a.r < |w.requests| && a.works && CanRename(w.db, w.requests[a.r].id, w.requests[a.r].to) ==>
      w.db.rows[w.requests[a.r].id].provider == w.requests[a.r].provider
  }

  lemma OtherKeepsRows(w: World, op: Op)
    requires Enabled(w, Other(op)) && HandlesMatch(w.db)
    ensures HandlesMatch(Datastore.Step(w.db, op))
    ensures forall byProvider, x :: StoredCount(byProvider, Datastore.Step(w.db, op), x) == StoredCount(byProvider, w.db, x)
  {
    HandlesMatchIff(w.db, op);
    var rows := Datastore.Step(w.db, op).rows;
    assert rows.Keys == w.db.rows.Keys;
    assert forall id :: id in rows ==> rows[id].provider == w.db.rows[id].provider;
  }

  lemma StepKeepsInv(w: World, a: Action)
    requires Inv(w) && Enabled(w, a)
    ensures Inv(Step(w, a))
  {
    if a.Other? { OtherKeepsRows(w, a.op); }
  }

  /** A request changing phase, seen by both sums of debts. */
  lemma PhaseDebts(byProvider: bool, w: World, r: nat, phase: Phase, x: Key)
    requires r < |w.requests|
    ensures forall renamed :: Debts(byProvider, renamed, At(w, r, phase).requests, x) + Debt(byProvider, renamed, w.requests[r], x) ==
              Debts(byProvider, renamed, w.requests, x) + Debt(byProvider, renamed, w.requests[r].(phase := phase), x)
  {
    DebtsUpdate(byProvider, false, w.requests, r, w.requests[r].(phase := phase), x);
    DebtsUpdate(byProvider, true, w.requests, r, w.requests[r].(phase := phase), x);
  }

  lemma RenameBalance(byProvider: bool, w: World, r: nat, k: nat, x: Key)
    requires BalancedAt(byProvider, w, x) && Enabled(w, RenameAtProvider(r, k, true))
    ensures BalancedAt(byProvider, Step(w, RenameAtProvider(r, k, true)), x)
  {
    PhaseDebts(byProvider, w, r, Phase.Renamed, x);
    HeldUpdate(byProvider, w.held, k, (w.held[k].0, w.requests[r].to), x);
  }

  lemma UndoBalance(byProvider: bool, w: World, r: nat, k: nat, x: Key)
    requires BalancedAt(byProvider, w, x) && Enabled(w, Undo(r, k, true))
    ensures BalancedAt(byProvider, Step(w, Undo(r, k, true)), x)
  {
    PhaseDebts(byProvider, w, r, Answered(500), x);
    HeldUpdate(byProvider, w.held, k, (w.held[k].0, w.requests[r].handle), x);
  }

  /** A commit that finds its row shifts one count at most. */
  lemma RecordBalance(byProvider: bool, w: World, r: nat, handle: Handle, x: Key)
    requires Inv(w) && BalancedAt(byProvider, w, x) && Enabled(w, Record(r, handle, true))
    requires CanRename(w.db, w.requests[r].id, w.requests[r].to)
    ensures !byProvider || OwnRow(w, Record(r, handle, true)) ==> BalancedAt(byProvider, Step(w, Record(r, handle, true)), x)
    ensures byProvider && !OwnRow(w, Record(r, handle, true)) && x == KeyOf(true, w.requests[r].provider, w.requests[r].id) ==>
              !BalancedAt(byProvider, Step(w, Record(r, handle, true)), x)
  {
    PhaseDebts(byProvider, w, r, Answered(200), x);
    RenamedRow(byProvider, w.db, w.requests[r].id, w.requests[r].to, handle, x);
  }

  lemma LookBalance(byProvider: bool, w: World, id: string, to: string, x: Key)
    requires BalancedAt(byProvider, w, x) && Enabled(w, Look(id, to))
    ensures BalancedAt(byProvider, Step(w, Look(id, to)), x)
  {
    var qs := Step(w, Look(id, to)).requests;
    assert qs[..|w.requests|] == w.requests;
  }

  /** Phases on the same side of the rename owe the same. */
  lemma PhaseBalance(byProvider: bool, w: World, r: nat, phase: Phase, x: Key)
    requires r < |w.requests| && BalancedAt(byProvider, w, x)
    requires Open(w.requests[r]) == Open(w.requests[r].(phase := phase))
    ensures BalancedAt(byProvider, At(w, r, phase), x)
  {
    PhaseDebts(byProvider, w, r, phase, x);
  }

  lemma StepBalancedAt(byProvider: bool, w: World, a: Action, x: Key)
    requires Inv(w) && BalancedAt(byProvider, w, x) && Enabled(w, a) && (!byProvider || OwnRow(w, a))
    ensures BalancedAt(byProvider, Step(w, a), x)
  {
    match a
    case Look(id, to) => LookBalance(byProvider, w, id, to, x);
    case Check(r) => PhaseBalance(byProvider, w, r, Step(w, a).requests[r].phase, x);
    case RenameAtProvider(r, k, works) =>
      if works { RenameBalance(byProvider, w, r, k, x); } else { PhaseBalance(byProvider, w, r, Answered(500), x); }
    case Record(r, handle, works) =>
      if works && CanRename(w.db, w.requests[r].id, w.requests[r].to) {
        RecordBalance(byProvider, w, r, handle, x);
      } else {
        PhaseBalance(byProvider, w, r, Refused, x);
      }
    case Undo(r, k, works) =>
      if works { UndoBalance(byProvider, w, r, k, x); } else { PhaseBalance(byProvider, w, r, Stuck, x); }
    case Other(op) => OtherKeepsRows(w, op);
  }

  /** Every step but a commit keeps the balance; a commit keeps it counting by
      name, and counting by provider and name exactly when the row it finds is
      of the request's own provider. */
  lemma StepKeepsBalance(byProvider: bool, w: World, a: Action)
    requires Inv(w) && Balanced(byProvider, w) && Enabled(w, a)
    ensures Balanced(byProvider, Step(w, a)) <==> !byProvider || OwnRow(w, a)
  {
    if !byProvider || OwnRow(w, a) {
      forall x ensures BalancedAt(byProvider, Step(w, a), x) {
        assert BalancedAt(byProvider, w, x);
        StepBalancedAt(byProvider, w, a, x);
      }
    } else {
      var x := KeyOf(true, w.requests[a.r].provider, w.requests[a.r].id);
      assert BalancedAt(byProvider, w, x);
      RecordBalance(byProvider, w, a.r, a.handle, x);
    }
  }

  // ---- every run ----

  ghost predicate OwnRows(w: World, run: seq<Action>)
    requires ValidRun(w, run)
    decreases |run|
  {
    run == [] || (OwnRow(w, run[0]) && OwnRows(Step(w, run[0]), run[1..]))
  }

  lemma {:induction false} RunKeepsBalance(byProvider: bool, w: World, run: seq<Action>)
    requires Inv(w) && Balanced(byProvider, w) && ValidRun(w, run)
    requires byProvider ==> OwnRows(w, run)
    ensures Inv(Run(w, run)) && Balanced(byProvider, Run(w, run))
    decreases |run|
  {
    if run != [] {
      StepKeepsInv(w, run[0]);
      StepKeepsBalance(byProvider, w, run[0]);
      RunKeepsBalance(byProvider, Step(w, run[0]), run[1..]);
    }
  }

  lemma {:induction false} NoDebts(byProvider: bool, renamed: bool, qs: seq<Request>, x: Key)
    requires forall r :: 0 <= r < |qs| ==> !Open(qs[r])
    ensures Debts(byProvider, renamed, qs, x) == 0
  {
    if qs != [] {
      NoDebts(byProvider, renamed, qs[..|qs| - 1], x);
    }
  }

  lemma SettledAgree(byProvider: bool, w: World)
    requires Balanced(byProvider, w) && forall r :: 0 <= r < |w.requests| ==> !Open(w.requests[r])
    ensures Agree(byProvider, w)
  {
    forall x ensures HeldCount(byProvider, w.held, x) == StoredCount(byProvider, w.db, x) {
      assert BalancedAt(byProvider, w, x);
      NoDebts(byProvider, false, w.requests, x);
      NoDebts(byProvider, true, w.requests, x);
    }
  }

  /** Once no request is between its provider rename and its record, and no undo
      was reported failed, providers and datastore hold the same names; and the
      same instances, provider and name, if every commit found a row of its own
      provider. */
  lemma SettledStoresAgree(w: World, run: seq<Action>)
    requires Inv(w) && ValidRun(w, run) && Balanced(false, w) && Balanced(true, w)
    requires forall r :: 0 <= r < |Run(w, run).requests| ==> !Open(Run(w, run).requests[r])
    ensures Agree(false, Run(w, run))
    ensures OwnRows(w, run) ==> Agree(true, Run(w, run))
  {
    RunKeepsBalance(false, w, run);
    SettledAgree(false, Run(w, run));
    if OwnRows(w, run) {
      RunKeepsBalance(true, w, run);
      SettledAgree(true, Run(w, run));
    }
  }

  // ---- one request alone ----

  ghost predicate Leads(w: World, run: seq<Action>, end: World) {
    ValidRun(w, run) && Run(w, run) == end
  }

  lemma {:induction false} Extend(w: World, run: seq<Action>, end: World, a: Action, next: World)
    requires Leads(w, run, end) && Enabled(end, a) && Step(end, a) == next
    ensures Leads(w, run + [a], next)
    decreases |run|
  {
    if run == [] {
      assert [a][1..] == [];
      assert run + [a] == [a];
    } else {
      assert (run + [a])[1..] == run[1..] + [a];
      Extend(Step(w, run[0]), run[1..], end, a, next);
    }
  }

  /** The row a reference means: the one with that id, else one with that name. */
  predicate Refers(db: DB, ref: string, id: string) {
    id in db.rows && (id == ref || (ref !in db.rows && db.rows[id].name == ref))
  }

  /** Nothing stands in the way: no row has the name or the id, and the provider
      holds the instance and nothing under the new name. */
  ghost predicate CanBeRenamed(held: seq<(string, string)>, db: DB, id: string, to: string) {
    && id in db.rows && to !in db.rows && !NameTaken(db, to)
    && (db.rows[id].provider, id) in held && (db.rows[id].provider, to) !in held
  }

  /** The handle after a rename: one the provider lists under the new name, else
      the previous one under it, without the texts that mention the old name. */
  ghost predicate HandleAfter(h: Handle, listed: Option<seq<Handle>>, previous: Handle, to: string) {
    && h.id == to
    && (ListedAs(listed, to) ==> h in listed.value)
    && (!ListedAs(listed, to) ==>
          && h.provider == previous.provider
          && (forall k :: k in h.metadata ==> k in previous.metadata && h.metadata[k] == previous.metadata[k])
          && (forall k :: k in previous.metadata ==> (k in h.metadata <==> !MentionsName(previous.metadata[k], previous.id))))
  }

  ghost predicate ListedAs(listed: Option<seq<Handle>>, to: string) {
    listed.Some? && exists i :: 0 <= i < |listed.value| && listed.value[i].id == to
  }

  ghost predicate MentionsName(v: Value, name: string) { name != "" && v.Text? && Contains(v.text, name) }

  /** One instance of the provider has the new name, all else is as it was. */
  ghost predicate HeldAfter(before: seq<(string, string)>, held: seq<(string, string)>, provider: string, id: string, to: string) {
    exists k :: 0 <= k < |before| && before[k] == (provider, id) && held == before[k := (provider, to)]
  }

  /** The row is under its new id with the new name in it, in its spec and in its
      handle, and otherwise as it was; so are all other rows; and its events came
      with it. */
  ghost predicate RowsAfter(before: DB, db: DB, listed: Option<seq<Handle>>, id: string, to: string)
    requires id in before.rows
  {
    && id !in db.rows && to in db.rows
    && (var was, row := before.rows[id], db.rows[to];
        && row.name == to && row.spec == was.spec.(name := to) && HandleAfter(row.handle, listed, was.handle, to)
        && row.provider == was.provider && row.state == was.state && row.backup == was.backup
        && row.cpus == was.cpus && row.memoryMB == was.memoryMB && row.osType == was.osType
        && row.arch == was.arch && row.image == was.image)
    && (forall k :: k != id && k != to ==> (k in db.rows <==> k in before.rows))
    && (forall k :: k != id && k in before.rows ==> k in db.rows && db.rows[k] == before.rows[k])
    && |db.events| == |before.events|
    && (forall i :: 0 <= i < |db.events| ==> db.events[i].kind == before.events[i].kind && db.events[i].state == before.events[i].state)
    && (forall i :: 0 <= i < |db.events| ==>
          db.events[i].instance == if before.events[i].instance == id then to else before.events[i].instance)
  }

  lemma RenameGives(db: DB, id: string, to: string, handle: Handle, listed: Option<seq<Handle>>)
    requires CanRename(db, id, to) && id != to && HandleAfter(handle, listed, db.rows[id].handle, to)
    ensures RowsAfter(db, Rename(db, id, to, handle), listed, id, to)
  {
  }

  /** The providers and the datastore as a rename request works on them. */
  class Stores {
    var held: seq<(string, string)>
    var db: DB

    /** A provider's RenameInstance: refused unless the instance is there and the new name free. */
    method ProviderRename(provider: string, name: string, to: string, works: bool) returns (at: Option<nat>)
      modifies this`held
      ensures at.Some? <==> works && (provider, name) in old(held) && (provider, to) !in old(held)
      ensures at.Some? ==> at.value < |old(held)| && old(held)[at.value] == (provider, name) && held == old(held)[at.value := (provider, to)]
      ensures at.None? ==> held == old(held)
    {
      if !works || (provider, to) in held {
        return None;
      }
      for i := 0 to |held|
        invariant forall k :: 0 <= k < i ==> held[k] != (provider, name)
        invariant held == old(held)
      {
        if held[i] == (provider, name) {
          held := held[i := (provider, to)];
          return Some(i);
        }
      }
      return None;
    }

    /** lookupInstance: by id first, then by name. */
    method Lookup(ref: string) returns (id: Option<string>)
      ensures id.Some? ==> Refers(db, ref, id.value)
      ensures id.None? ==> ref !in db.rows && !NameTaken(db, ref)
    {
      if ref in db.rows {
        return Some(ref);
      }
      var todo := db.rows.Keys;
      while todo != {}
        invariant todo <= db.rows.Keys
        invariant forall k :: k in db.rows && k !in todo ==> db.rows[k].name != ref
        decreases todo
      {
        var k :| k in todo;
        if db.rows[k].name == ref {
          return Some(k);
        }
        todo := todo - {k};
      }
      return None;
    }

    /** handleRenameInstance with no other request in between is one run of the
        saga, from the stores as they were to the stores as they are, for the
        instance the reference finds; a request refused before it reads the
        instance does nothing. */
    method HandleRename(ref: string, to: string, listed: Option<seq<Handle>>,
                        renameWorks: bool, recordWorks: bool, undoWorks: bool)
      returns (status: int, ghost run: seq<Action>, ghost asked: Request)
      requires HandlesMatch(db)
      modifies this
      ensures run == [] <==> !ValidInstanceName(to) || (ref !in old(db).rows && !NameTaken(old(db), ref))
      ensures run == [] ==> status == if ValidInstanceName(to) then 404 else 400
      ensures run != [] ==> Refers(old(db), ref, asked.id) && run[0] == Look(asked.id, to) && asked.to == to
      ensures Leads(World(old(held), old(db), []), run, World(held, db, if run == [] then [] else [asked]))
      ensures run != [] ==> asked.phase == Answered(status) || (status == 500 && asked.phase == Stuck)
      ensures status in {200, 400, 404, 409, 500}
      ensures status == 409 <==> run != [] && NameTaken(old(db), to)
      ensures status == 200 <==> run != [] && CanBeRenamed(old(held), old(db), asked.id, to) && renameWorks && recordWorks
      ensures status == 200 ==>
                HeldAfter(old(held), held, old(db).rows[asked.id].provider, asked.id, to) &&
                RowsAfter(old(db), db, listed, asked.id, to)
      ensures status != 200 ==> db == old(db)
      ensures status != 200 && held != old(held) ==> asked.phase == Stuck && asked.id in old(db).rows
      ensures status != 200 && held != old(held) ==>
                HeldAfter(old(held), held, old(db).rows[asked.id].provider, asked.id, to) &&
                (undoWorks ==> (old(db).rows[asked.id].provider, asked.id) in held)
    {
      run, asked := [], Request("", "", "", "", Looked);
      ghost var start := World(held, db, []);
      if !ValidInstanceName(to) {
        return 400, run, asked;
      }
      var found := Lookup(ref);
      if found.None? {
        return 404, run, asked;
      }
      var id := found.value;
      var row := db.rows[id];
      asked := Request(row.provider, id, row.handle.id, to, Looked);
      Extend(start, run, start, Look(id, to), World(held, db, [asked]));
      run := run + [Look(id, to)];
      var taken := exists k :: k in db.rows && db.rows[k].name == to;
      ghost var before := World(held, db, [asked]);
      asked := asked.(phase := if taken then Answered(409) else Checked);
      Extend(start, run, before, Check(0), World(held, db, [asked]));
      run := run + [Check(0)];
      if taken {
        return 409, run, asked;
      }
      before := World(held, db, [asked]);
      var at := ProviderRename(row.provider, row.handle.id, to, renameWorks);
      asked := asked.(phase := if at.Some? then Phase.Renamed else Answered(500));
      ghost var move := RenameAtProvider(0, if at.Some? then at.value else 0, at.Some?);
      Extend(start, run, before, move, World(held, db, [asked]));
      run := run + [move];
      if at.None? {
        return 500, run, asked;
      }
      assert id != to;
      status, run, asked := RecordOrUndo(start, run, asked, row, listed, recordWorks, undoWorks, id, to, old(held), at.value);
    }

    /** The second half: the provider has renamed; record it, or put it back. */
    method RecordOrUndo(ghost start: World, ghost ran: seq<Action>, ghost renamed: Request, row: Row, listed: Option<seq<Handle>>,
                        recordWorks: bool, undoWorks: bool, id: string, to: string, ghost was: seq<(string, string)>, ghost at: nat)
      returns (status: int, ghost run: seq<Action>, ghost asked: Request)
      requires id != to && at < |was| && was[at] == (row.provider, id) && (row.provider, to) !in was
      requires held == was[at := (row.provider, to)]
      requires id in db.rows && row == db.rows[id] && row.handle.id == id && !NameTaken(db, to)
      requires renamed == Request(row.provider, id, id, to, Phase.Renamed)
      requires Leads(start, ran, World(held, db, [renamed]))
      modifies this
      ensures ran < run && Leads(start, run, World(held, db, [asked])) && asked.id == id && asked.to == to
      ensures asked.phase == Answered(status) || (status == 500 && asked.phase == Stuck)
      ensures status in {200, 500}
      ensures status == 200 <==> recordWorks && to !in old(db).rows
      ensures status == 200 ==> held == old(held) && RowsAfter(old(db), db, listed, id, to)
      ensures status == 500 ==> db == old(db)
      ensures status == 500 ==>
                held == was || (held == old(held) && asked.phase == Stuck && (undoWorks ==> (row.provider, id) in held))
    {
      ghost var before := World(held, db, [renamed]);
      var handle := RenamedHandle(listed, row.handle, to);
      ghost var record := Record(0, handle, recordWorks);
      run := ran + [record];
      if recordWorks && !(to in db.rows && to != id) {
        var spec := row.spec.(name := to);
        db := DB((db.rows - {id})[to := row.(name := to, spec := spec, handle := handle)], Repointed(db.events, id, to));
        asked := renamed.(phase := Answered(200));
        assert db == Rename(before.db, id, to, handle);
        RenameGives(before.db, id, to, handle, listed);
        Extend(start, ran, before, record, World(held, db, [asked]));
        return 200, run, asked;
      }
      asked := renamed.(phase := Refused);
      Extend(start, ran, before, record, World(held, db, [asked]));
      run, asked := PutBack(start, run, asked, row.provider, undoWorks, id, to, was, at);
      return 500, run, asked;
    }

    /** The provider's rename is undone, or is stuck. */
    method PutBack(ghost start: World, ghost ran: seq<Action>, ghost refused: Request, provider: string,
                   undoWorks: bool, id: string, to: string, ghost was: seq<(string, string)>, ghost at: nat)
      returns (ghost run: seq<Action>, ghost asked: Request)
      requires id != to && at < |was| && was[at] == (provider, id) && (provider, to) !in was
      requires held == was[at := (provider, to)]
      requires refused == Request(provider, id, id, to, Refused) && Leads(start, ran, World(held, db, [refused]))
      modifies this`held
      ensures ran < run && Leads(start, run, World(held, db, [asked]))
      ensures asked == refused.(phase := if held == was then Answered(500) else Stuck)
      ensures held == was || (held == old(held) && (undoWorks ==> (provider, id) in held))
    {
      ghost var before := World(held, db, [refused]);
      var back := ProviderRename(provider, to, id, undoWorks);
      asked := refused.(phase := if back.Some? then Answered(500) else Stuck);
      ghost var undo := Undo(0, if back.Some? then back.value else 0, back.Some?);
      if back.Some? {
        assert back.value == at;
        assert held == was;
      } else {
        assert held[at] != was[at];
      }
      Extend(start, ran, before, undo, World(held, db, [asked]));
      run := ran + [undo];
    }
  }

  // ---- two providers, one name ----

  function BlankSpec(name: string): Spec { Spec(name, 0, 0, "", "", "", "") }

  function BlankRow(name: string, provider: string): Row {
    Row(name, provider, "stopped", BlankSpec(name), Handle(name, provider, map[]), "{}", 0, 0, "", "", "")
  }

  lemma {:induction false} RunAppend(w: World, first: seq<Action>, second: seq<Action>)
    requires ValidRun(w, first) && ValidRun(Run(w, first), second)
    ensures ValidRun(w, first + second) && Run(w, first + second) == Run(Run(w, first), second)
    decreases |first|
  {
    if first == [] {
      assert first + second == second;
    } else {
      assert (first + second)[1..] == first[1..] + second;
      RunAppend(Step(w, first[0]), first[1..], second);
    }
  }

  lemma RunFour(w: World, a: Action, b: Action, c: Action, d: Action)
    requires Enabled(w, a) && Enabled(Step(w, a), b) && Enabled(Step(Step(w, a), b), c)
    requires Enabled(Step(Step(Step(w, a), b), c), d)
    ensures ValidRun(w, [a, b, c, d]) && Run(w, [a, b, c, d]) == Step(Step(Step(Step(w, a), b), c), d)
  {
    var w3 := Step(Step(Step(w, a), b), c);
    assert [d][1..] == [] && ValidRun(Step(w3, d), []);
    assert ValidRun(w3, [d]) && Run(w3, [d]) == Step(w3, d);
    assert [c, d][1..] == [d] && [b, c, d][1..] == [c, d] && [a, b, c, d][1..] == [b, c, d];
    assert ValidRun(Step(Step(w, a), b), [c, d]) && Run(Step(Step(w, a), b), [c, d]) == Step(w3, d);
    assert ValidRun(Step(w, a), [b, c, d]) && Run(Step(w, a), [b, c, d]) == Step(w3, d);
  }

  lemma RunTwo(w: World, a: Action, b: Action)
    requires Enabled(w, a) && Enabled(Step(w, a), b)
    ensures ValidRun(w, [a, b]) && Run(w, [a, b]) == Step(Step(w, a), b)
  {
    var w1 := Step(w, a);
    assert [b][1..] == [] && ValidRun(Step(w1, b), []);
    assert ValidRun(w1, [b]) && Run(w1, [b]) == Step(w1, b);
    assert [a, b][1..] == [b];
  }

  function Req(provider: string, id: string, to: string, phase: Phase): Request { Request(provider, id, id, to, phase) }

  function Pair(held: seq<(string, string)>, a: string, rowA: Row, b: string, rowB: Row, requests: seq<Request>): World {
    World(held, DB(map[a := rowA, b := rowB], []), requests)
  }

  const START_HELD := [("jail", "a"), ("bhyve", "x")]

  /** A jail "a" and a bhyve machine "x". */
  const SWAP0 := Pair(START_HELD, "a", BlankRow("a", "jail"), "x", BlankRow("x", "bhyve"), [])
  const SWAP1 := Pair(START_HELD, "a", BlankRow("a", "jail"), "x", BlankRow("x", "bhyve"),
                      [Req("jail", "a", "c", Checked), Req("jail", "a", "b", Checked)])
  const SWAP2 := Pair([("jail", "b"), ("bhyve", "x")], "b", BlankRow("b", "jail"), "x", BlankRow("x", "bhyve"),
                      [Req("jail", "a", "c", Checked), Req("jail", "a", "b", Answered(200)),
                       Req("jail", "b", "a", Looked), Req("bhyve", "x", "a", Looked)])
  const SWAP3 := Pair([("jail", "a"), ("bhyve", "a")], "b", BlankRow("b", "jail"), "x", BlankRow("x", "bhyve"),
                      [Req("jail", "a", "c", Checked), Req("jail", "a", "b", Answered(200)),
                       Req("jail", "b", "a", Phase.Renamed), Req("bhyve", "x", "a", Phase.Renamed)])
  const SWAP4 := Pair([("jail", "c"), ("bhyve", "a")], "b", BlankRow("b", "jail"), "a", BlankRow("a", "bhyve"),
                      [Req("jail", "a", "c", Phase.Renamed), Req("jail", "a", "b", Answered(200)),
                       Req("jail", "b", "a", Phase.Renamed), Req("bhyve", "x", "a", Answered(200))])
  const SWAP5 := Pair([("jail", "c"), ("bhyve", "a")], "a", BlankRow("a", "jail"),
                      "c", BlankRow("c", "bhyve").(handle := Handle("c", "jail", map[])),
                      [Req("jail", "a", "c", Answered(200)), Req("jail", "a", "b", Answered(200)),
                       Req("jail", "b", "a", Answered(200)), Req("bhyve", "x", "a", Answered(200))])

  const PLAN1 := [Look("a", "c"), Check(0), Look("a", "b"), Check(1)]
  const PLAN2 := [RenameAtProvider(1, 0, true), Record(1, Handle("b", "jail", map[]), true), Look("b", "a"), Look("x", "a")]
  const PLAN3 := [Check(2), Check(3), RenameAtProvider(2, 0, true), RenameAtProvider(3, 1, true)]
  const PLAN4 := [Record(3, Handle("a", "bhyve", map[]), true), RenameAtProvider(0, 0, true)]
  const PLAN5 := [Record(0, Handle("c", "jail", map[]), true), Record(2, Handle("a", "jail", map[]), true)]

  lemma SwapOne()
    ensures ValidRun(SWAP0, PLAN1) && Run(SWAP0, PLAN1) == SWAP1
  {
    var w := Step(SWAP0, PLAN1[0]);
    assert w.requests == [Req("jail", "a", "c", Looked)];
    w := Step(w, PLAN1[1]);
    assert w.requests == [Req("jail", "a", "c", Checked)];
    w := Step(w, PLAN1[2]);
    assert w.requests == [Req("jail", "a", "c", Checked), Req("jail", "a", "b", Looked)];
    w := Step(w, PLAN1[3]);
    assert w == SWAP1;
    RunFour(SWAP0, PLAN1[0], PLAN1[1], PLAN1[2], PLAN1[3]);
  }

  lemma SwapTwo()
    ensures ValidRun(SWAP1, PLAN2) && Run(SWAP1, PLAN2) == SWAP2
  {
    var w1 := Step(SWAP1, PLAN2[0]);
    assert w1.held == [("jail", "b"), ("bhyve", "x")];
    assert w1.requests == [Req("jail", "a", "c", Checked), Req("jail", "a", "b", Phase.Renamed)];
    var w2 := Step(w1, PLAN2[1]);
    assert w2.db == SWAP2.db;
    assert w2.requests == [Req("jail", "a", "c", Checked), Req("jail", "a", "b", Answered(200))];
    var w3 := Step(w2, PLAN2[2]);
    var w4 := Step(w3, PLAN2[3]);
    assert w4 == SWAP2;
    RunFour(SWAP1, PLAN2[0], PLAN2[1], PLAN2[2], PLAN2[3]);
  }

  lemma SwapThree()
    ensures ValidRun(SWAP2, PLAN3) && Run(SWAP2, PLAN3) == SWAP3
  {
    var w1 := Step(SWAP2, PLAN3[0]);
    assert w1.requests == SWAP2.requests[2 := Req("jail", "b", "a", Checked)];
    var w2 := Step(w1, PLAN3[1]);
    assert w2.requests == w1.requests[3 := Req("bhyve", "x", "a", Checked)];
    var w3 := Step(w2, PLAN3[2]);
    assert w3.held == [("jail", "a"), ("bhyve", "x")];
    var w4 := Step(w3, PLAN3[3]);
    assert w4 == SWAP3;
    RunFour(SWAP2, PLAN3[0], PLAN3[1], PLAN3[2], PLAN3[3]);
  }

  lemma SwapFour()
    ensures ValidRun(SWAP3, PLAN4) && Run(SWAP3, PLAN4) == SWAP4
  {
    var w1 := Step(SWAP3, PLAN4[0]);
    assert w1.db.rows == map["b" := BlankRow("b", "jail"), "a" := BlankRow("a", "bhyve")];
    assert w1.requests == SWAP3.requests[3 := Req("bhyve", "x", "a", Answered(200))];
    var w2 := Step(w1, PLAN4[1]);
    assert w2 == SWAP4;
    RunTwo(SWAP3, PLAN4[0], PLAN4[1]);
  }

  lemma SwapFive()
    ensures ValidRun(SWAP4, PLAN5) && Run(SWAP4, PLAN5) == SWAP5
  {
    var w1 := Step(SWAP4, PLAN5[0]);
    assert w1.db.rows == map["b" := BlankRow("b", "jail"), "c" := SWAP5.db.rows["c"]];
    assert w1.requests == SWAP4.requests[0 := Req("jail", "a", "c", Answered(200))];
    var w2 := Step(w1, PLAN5[1]);
    assert w2.db.rows == SWAP5.db.rows;
    assert w2 == SWAP5;
    RunTwo(SWAP4, PLAN5[0], PLAN5[1]);
  }

  const PLAN := PLAN1 + PLAN2 + PLAN3 + PLAN4 + PLAN5

  lemma SwapRun()
    ensures ValidRun(SWAP0, PLAN) && Run(SWAP0, PLAN) == SWAP5
  {
    SwapOne();
    SwapTwo();
    RunAppend(SWAP0, PLAN1, PLAN2);
    SwapThree();
    RunAppend(SWAP0, PLAN1 + PLAN2, PLAN3);
    SwapFour();
    RunAppend(SWAP0, PLAN1 + PLAN2 + PLAN3, PLAN4);
    SwapFive();
    RunAppend(SWAP0, PLAN1 + PLAN2 + PLAN3 + PLAN4, PLAN5);
  }

  lemma TwoHeld(byProvider: bool, held: seq<(string, string)>, x: Key)
    requires |held| == 2
    ensures HeldCount(byProvider, held, x) ==
            One(KeyOf(byProvider, held[0].0, held[0].1) == x) + One(KeyOf(byProvider, held[1].0, held[1].1) == x)
  {
    var front := held[..1];
    assert front[..0] == [];
    assert HeldCount(byProvider, front, x) == One(KeyOf(byProvider, held[0].0, held[0].1) == x);
  }

  lemma SwapStart()
    ensures Inv(SWAP0) && Balanced(false, SWAP0) && Balanced(true, SWAP0)
  {
    forall byProvider, x ensures BalancedAt(byProvider, SWAP0, x) {
      TwoHeld(byProvider, SWAP0.held, x);
    }
  }

  /** A request to rename the jail, read before the jail was renamed away and
      back, commits to the row the bhyve machine has meanwhile taken. Every
      request is answered 200 and the names agree, yet each row now names the
      other provider's machine: agreement by provider needs OwnRow. */
  lemma StaleRequestSwapsProviders()
    ensures Inv(SWAP0) && Balanced(false, SWAP0) && Balanced(true, SWAP0) && ValidRun(SWAP0, PLAN)
    ensures forall r :: 0 <= r < |Run(SWAP0, PLAN).requests| ==> Run(SWAP0, PLAN).requests[r].phase == Answered(200)
    ensures Agree(false, Run(SWAP0, PLAN)) && !Agree(true, Run(SWAP0, PLAN))
  {
    SwapStart();
    SwapRun();
    forall x ensures HeldCount(false, SWAP5.held, x) == StoredCount(false, SWAP5.db, x) {
      TwoHeld(false, SWAP5.held, x);
    }
    TwoHeld(true, SWAP5.held, ("jail", "c"));
    assert HeldCount(true, SWAP5.held, ("jail", "c")) != StoredCount(true, SWAP5.db, ("jail", "c"));
  }
}
