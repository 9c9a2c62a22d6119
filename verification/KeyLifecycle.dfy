/** API keys created at runtime live in memory and in the datastore. Creating
    and revoking touch the two one after the other; the store may fail, the
    daemon may crash and restart between any two steps. One handler at a time. */
module KeyLifecycle {
  import opened Text
  import KeyManager

  datatype Key = Key(hash: string, expires: Option<int>, permissions: seq<string>)

  /** What the running handler has still to do. */
  datatype Handler =
    | Idle
    | Adding(id: string)      // in memory, not yet saved
    | Saved(id: string)       // saved, not yet answered
    | Unsaved(id: string)     // saving failed, to be taken out of memory
    | Finding(id: string)     // not in memory: is it stored?
    | Deleting(id: string)    // row to be deleted
    | Deleted(id: string)     // row deleted, not yet answered

  /** Memory, rows, the handler under way, and what callers have been told:
      the keys answered 201, the IDs whose revocation was begun, and those
      answered 200. unloaded are the rows the last restart failed to read;
      used are the IDs ever spoken of. */
  datatype State = State(
    up: bool, mem: map<string, Key>, store: map<string, Key>, handler: Handler, unloaded: set<string>,
    created: map<string, Key>, begun: set<string>, revoked: set<string>, used: set<string>)

  const START := State(true, map[], map[], Idle, {}, map[], {}, {}, {})

  /** works: the store reports success. applied: a statement reported as failed
      took effect all the same. */
  datatype Action =
    | StartCreate(id: string, key: Key)
    | Save(works: bool, applied: bool)
    | TakeBack
    | Answer201
    | StartRevoke(id: string)
    | ListRows(works: bool)
    | DeleteRow(works: bool, applied: bool)
    | Answer200
    | Crash
    | Restart(listWorks: bool)

  predicate Enabled(s: State, a: Action) {
    match a
    case StartCreate(id, _) => s.up && s.handler.Idle? && id !in s.used
    case Save(_, _) => s.handler.Adding?
    case TakeBack => s.handler.Unsaved?
    case Answer201 => s.handler.Saved?
    case StartRevoke(_) => s.up && s.handler.Idle?
    case ListRows(_) => s.handler.Finding?
    case DeleteRow(_, _) => s.handler.Deleting?
    case Answer200 => s.handler.Deleted?
    case Crash => s.up
    case Restart(_) => !s.up
  }

  function Step(s: State, a: Action): State
    requires Enabled(s, a)
  {
    match a
    case StartCreate(id, key) => s.(mem := s.mem[id := key], handler := Adding(id), used := s.used + {id})
    case Save(works, applied) =>
      var id := s.handler.id;
      if id !in s.mem then s.(handler := Unsaved(id))
      else s.(store := if works || applied then s.store[id := s.mem[id]] else s.store,
              handler := if works then Saved(id) else Unsaved(id))
    case TakeBack => s.(mem := s.mem - {s.handler.id}, handler := Idle)
    case Answer201 =>
      var id := s.handler.id;
      s.(handler := Idle, created := if id in s.mem then s.created[id := s.mem[id]] else s.created)
    case StartRevoke(id) =>
      s.(mem := s.mem - {id}, begun := s.begun + {id}, used := s.used + {id},
         handler := if id in s.mem then Deleting(id) else Finding(id))
    case ListRows(works) =>
      s.(handler := if works && s.handler.id in s.store then Deleting(s.handler.id) else Idle)
    case DeleteRow(works, applied) =>
      s.(store := if works || applied then s.store - {s.handler.id} else s.store,
         handler := if works then Deleted(s.handler.id) else Idle)
    case Answer200 => s.(handler := Idle, revoked := s.revoked + {s.handler.id})
    case Crash => s.(up := false, mem := map[], handler := Idle)
    case Restart(listWorks) =>
      s.(up := true, mem := if listWorks then s.store else map[], unloaded := if listWorks then {} else s.store.Keys)
  }

  ghost predicate ValidRun(s: State, run: seq<Action>)
    decreases |run|
  {
    run == [] || (Enabled(s, run[0]) && ValidRun(Step(s, run[0]), run[1..]))
  }

  ghost function Run(s: State, run: seq<Action>): State
    requires ValidRun(s, run)
    decreases |run|
  {
    if run == [] then s else Run(Step(s, run[0]), run[1..])
  }

  /** The daemon would let this key in now. */
  predicate Accepts(s: State, id: string, now: int) {
    s.up && id in s.mem && !KeyManager.Expired(s.mem[id].expires, now)
  }

  // ---- what every state keeps ----

  ghost predicate HandlerOk(s: State) {
    match s.handler
    case Idle => true
    case Adding(id) => s.up && id in s.mem && id !in s.begun && id !in s.created && id in s.used
    case Saved(id) => s.up && id in s.mem && id in s.store && s.store[id] == s.mem[id] && id !in s.begun && id !in s.created && id !in s.unloaded
    case Unsaved(id) => s.up && id !in s.begun && id !in s.created
    case Finding(id) => s.up && id in s.begun && id !in s.mem
    case Deleting(id) => s.up && id in s.begun && id !in s.mem
    case Deleted(id) => s.up && id in s.begun && id !in s.mem && id !in s.store
  }

  ghost predicate IdOk(s: State, id: string) {
    && (id in s.mem || id in s.store || id in s.created || id in s.begun || id in s.unloaded ==> id in s.used)
    && (id in s.revoked ==> id in s.begun && id !in s.mem && id !in s.store)
    && (id in s.created && id !in s.begun ==> id in s.store && s.store[id] == s.created[id])
    && (id in s.created && id !in s.begun && s.up ==>
          if id in s.unloaded then id !in s.mem else id in s.mem && s.mem[id] == s.created[id])
    && (id in s.mem && !(s.handler.Adding? && s.handler.id == id) && !(s.handler.Unsaved? && s.handler.id == id) ==>
          id !in s.unloaded)
    && (s.handler.Adding? && s.handler.id == id ==> id !in s.unloaded)
  }

  ghost predicate Inv(s: State) {
    HandlerOk(s) && (!s.up ==> s.mem == map[]) && forall id :: IdOk(s, id)
  }

  lemma StepKeepsId(s: State, a: Action, id: string)
    requires Inv(s) && Enabled(s, a)
    ensures IdOk(Step(s, a), id)
  {
    assert IdOk(s, id);
    if !s.handler.Idle? { assert IdOk(s, s.handler.id); }
    if a.StartCreate? || a.StartRevoke? { assert IdOk(s, a.id); }
  }

  lemma StepKeepsInv(s: State, a: Action)
    requires Inv(s) && Enabled(s, a)
    ensures Inv(Step(s, a))
  {
    forall id ensures IdOk(Step(s, a), id) {
      StepKeepsId(s, a, id);
    }
    if !s.handler.Idle? { assert IdOk(s, s.handler.id); }
    if a.StartCreate? || a.StartRevoke? { assert IdOk(s, a.id); }
  }

  lemma {:induction false} RunKeepsInv(s: State, run: seq<Action>)
    requires Inv(s) && ValidRun(s, run)
    ensures Inv(Run(s, run))
    ensures s.revoked <= Run(s, run).revoked
    ensures forall id :: id in s.created && id !in Run(s, run).begun ==>
              id in Run(s, run).created && Run(s, run).created[id] == s.created[id] && id !in s.begun
    decreases |run|
  {
    if run != [] {
      StepKeepsInv(s, run[0]);
      var s1 := Step(s, run[0]);
      if s.handler.Saved? { assert HandlerOk(s); }
      RunKeepsInv(s1, run[1..]);
      assert Run(s, run) == Run(s1, run[1..]);
      StepGrows(s, run[0]);
      BegunGrows(s1, run[1..]);
    }
  }

  lemma StepGrows(s: State, a: Action)
    requires Inv(s) && Enabled(s, a)
    ensures s.revoked <= Step(s, a).revoked && s.begun <= Step(s, a).begun
    ensures forall id :: id in s.created ==> id in Step(s, a).created && Step(s, a).created[id] == s.created[id]
  {
  }

  lemma {:induction false} BegunGrows(s: State, run: seq<Action>)
    requires Inv(s) && ValidRun(s, run)
    ensures s.begun <= Run(s, run).begun
    decreases |run|
  {
    if run != [] {
      StepGrows(s, run[0]);
      StepKeepsInv(s, run[0]);
      BegunGrows(Step(s, run[0]), run[1..]);
    }
  }

  // ---- the promises ----

  /** A key whose revocation was answered 200 is never let in again, through
      any later handlers, store failures, crashes and restarts. */
  lemma RevokedStaysOut(first: seq<Action>, id: string, later: seq<Action>, now: int)
    requires ValidRun(START, first) && id in Run(START, first).revoked
    requires ValidRun(Run(START, first), later)
    ensures !Accepts(Run(Run(START, first), later), id, now)
  {
    RunKeepsInv(START, first);
    RunKeepsInv(Run(START, first), later);
    assert IdOk(Run(Run(START, first), later), id);
  }

  /** A key whose creation was answered 201 stays stored, as created, until its
      revocation is begun; and while the daemon is up it is let in exactly when
      it has not expired and the last restart managed to read it. */
  lemma CreatedSurvives(first: seq<Action>, id: string, later: seq<Action>, now: int)
    requires ValidRun(START, first) && id in Run(START, first).created
    requires ValidRun(Run(START, first), later) && id !in Run(Run(START, first), later).begun
    ensures var s, key := Run(Run(START, first), later), Run(START, first).created[id];
            && id in s.store && s.store[id] == key
            && (s.up ==> (Accepts(s, id, now) <==> id !in s.unloaded && !KeyManager.Expired(key.expires, now)))
  {
    RunKeepsInv(START, first);
    RunKeepsInv(Run(START, first), later);
    assert IdOk(Run(Run(START, first), later), id);
  }

  /** From any state between handlers, one revocation with a working store takes
      an ID out of both stores and is answered 200 if it was in either, 404 if
      in neither. */
  lemma RetryFinishesRevocation(s: State, id: string)
    requires Inv(s) && s.up && s.handler.Idle?
    ensures var run := if id in s.mem then [StartRevoke(id), DeleteRow(true, true), Answer200]
                       else if id in s.store then [StartRevoke(id), ListRows(true), DeleteRow(true, true), Answer200]
                       else [StartRevoke(id), ListRows(true)];
            && ValidRun(s, run)
            && var s' := Run(s, run);
               id !in s'.mem && id !in s'.store && s'.handler.Idle? &&
               (id in s'.revoked <==> id in s.revoked || id in s.mem || id in s.store)
  {
    var s1 := Step(s, StartRevoke(id));
    if id in s.mem {
      var s2 := Step(s1, DeleteRow(true, true));
      ThreeSteps(s, StartRevoke(id), DeleteRow(true, true), Answer200);
    } else {
      var s2 := Step(s1, ListRows(true));
      if id in s.store {
        var s3 := Step(s2, DeleteRow(true, true));
        ThreeSteps(s1, ListRows(true), DeleteRow(true, true), Answer200);
        assert [StartRevoke(id), ListRows(true), DeleteRow(true, true), Answer200][1..] == [ListRows(true), DeleteRow(true, true), Answer200];
      } else {
        assert [ListRows(true)][1..] == [];
        assert ValidRun(s1, [ListRows(true)]);
        assert [StartRevoke(id), ListRows(true)][1..] == [ListRows(true)];
      }
    }
  }

  lemma ThreeSteps(s: State, a: Action, b: Action, c: Action)
    requires Enabled(s, a) && Enabled(Step(s, a), b) && Enabled(Step(Step(s, a), b), c)
    ensures ValidRun(s, [a, b, c]) && Run(s, [a, b, c]) == Step(Step(Step(s, a), b), c)
  {
    var s2 := Step(Step(s, a), b);
    assert [c][1..] == [] && ValidRun(Step(s2, c), []);
    assert ValidRun(s2, [c]) && Run(s2, [c]) == Step(s2, c);
    assert [b, c][1..] == [c] && [a, b, c][1..] == [b, c];
    assert ValidRun(Step(s, a), [b, c]) && Run(Step(s, a), [b, c]) == Step(s2, c);
  }

  /** One restart that cannot list the rows shuts out a key answered 201. */
  lemma FailedReloadShutsOut(id: string, key: Key, now: int)
    ensures var run := [StartCreate(id, key), Save(true, true), Answer201];
            var again := [Crash, Restart(false)];
            && ValidRun(START, run) && id in Run(START, run).created && ValidRun(Run(START, run), again)
            && id !in Run(Run(START, run), again).begun && !Accepts(Run(Run(START, run), again), id, now)
  {
    ThreeSteps(START, StartCreate(id, key), Save(true, true), Answer201);
    var s := Run(START, [StartCreate(id, key), Save(true, true), Answer201]);
    var s1 := Step(s, Crash);
    assert [Restart(false)][1..] == [];
    assert ValidRun(s1, [Restart(false)]) && Run(s1, [Restart(false)]) == Step(s1, Restart(false));
    assert [Crash, Restart(false)][1..] == [Restart(false)];
  }

  // ---- the handlers ----

  ghost predicate Leads(s: State, run: seq<Action>, end: State) {
    ValidRun(s, run) && Run(s, run) == end
  }

  lemma {:induction false} Extend(s: State, run: seq<Action>, end: State, a: Action)
    requires Leads(s, run, end) && Enabled(end, a)
    ensures Leads(s, run + [a], Step(end, a))
    decreases |run|
  {
    if run == [] {
      assert [a][1..] == [];
      assert run + [a] == [a];
    } else {
      assert (run + [a])[1..] == run[1..] + [a];
      Extend(Step(s, run[0]), run[1..], end, a);
    }
  }

  /** The daemon's two copies of the keys. */
  class KeyServer {
    var mem: map<string, Key>
    var store: map<string, Key>

    ghost predicate Shows(s: State)
      reads this
    {
      s.up && s.handler.Idle? && s.mem == mem && s.store == store
    }

    /** handleCreateAuthKey, uninterrupted, is a run of the steps above; it
        answers 201 exactly when the key ends up among the created ones. */
    method HandleCreate(ghost s: State, id: string, key: Key, saveWorks: bool, saveApplied: bool)
      returns (status: int, ghost run: seq<Action>, ghost s': State)
      requires Shows(s) && Inv(s) && id !in s.used
      modifies this
      ensures Leads(s, run, s') && Shows(s')
      ensures s'.created == if status == 201 then s.created[id := key] else s.created
      ensures status == if saveWorks then 201 else 500
      ensures mem == if saveWorks then old(mem)[id := key] else old(mem)
      ensures store == if saveWorks || saveApplied then old(store)[id := key] else old(store)
    {
      assert IdOk(s, id);
      run, s' := [], s;
      mem := mem[id := key];
      Extend(s, run, s', StartCreate(id, key));
      run, s' := run + [StartCreate(id, key)], Step(s', StartCreate(id, key));
      if saveWorks || saveApplied {
        store := store[id := mem[id]];
      }
      Extend(s, run, s', Save(saveWorks, saveApplied));
      run, s' := run + [Save(saveWorks, saveApplied)], Step(s', Save(saveWorks, saveApplied));
      if !saveWorks {
        mem := mem - {id};
        Extend(s, run, s', TakeBack);
        run, s' := run + [TakeBack], Step(s', TakeBack);
        return 500, run, s';
      }
      Extend(s, run, s', Answer201);
      run, s' := run + [Answer201], Step(s', Answer201);
      return 201, run, s';
    }

    /** handleRevokeAuthKey, uninterrupted: memory first, then the row. It
        answers 200 exactly when the ID joins the revoked ones. */
    method HandleRevoke(ghost s: State, id: string, listWorks: bool, deleteWorks: bool, deleteApplied: bool)
      returns (status: int, ghost run: seq<Action>, ghost s': State)
      requires Shows(s) && Inv(s)
      modifies this
      ensures Leads(s, run, s') && Shows(s') && id !in mem
      ensures s'.revoked == if status == 200 then s.revoked + {id} else s.revoked
      ensures status == 200 <==> deleteWorks && (id in s.mem || (listWorks && id in s.store))
      ensures status == 404 <==> listWorks && id !in s.mem && id !in s.store
      ensures status in {200, 404, 500} && mem == old(mem) - {id}
      ensures var reached := id in s.mem || (listWorks && id in s.store);
              store == if reached && (deleteWorks || deleteApplied) then old(store) - {id} else old(store)
    {
      run, s' := [StartRevoke(id)], Step(s, StartRevoke(id));
      assert [] + [StartRevoke(id)] == run;
      Extend(s, [], s, StartRevoke(id));
      var inMemory := id in mem;
      if inMemory {
        mem := mem - {id};
      }
      assert mem == s.mem - {id};
      var stored := false;
      if !inMemory {
        Extend(s, run, s', ListRows(listWorks));
        run, s' := run + [ListRows(listWorks)], Step(s', ListRows(listWorks));
        if !listWorks {
          return 500, run, s';
        }
        stored := id in store;
      }
      if inMemory || stored {
        if deleteWorks || deleteApplied {
          store := store - {id};
        }
        Extend(s, run, s', DeleteRow(deleteWorks, deleteApplied));
        run, s' := run + [DeleteRow(deleteWorks, deleteApplied)], Step(s', DeleteRow(deleteWorks, deleteApplied));
        if !deleteWorks {
          return 500, run, s';
        }
      }
      if !inMemory && !stored {
        return 404, run, s';
      }
      Extend(s, run, s', Answer200);
      run, s' := run + [Answer200], Step(s', Answer200);
      return 200, run, s';
    }
  }
}
