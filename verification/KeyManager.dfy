/** The API key manager. Validation compares under a read lock, drops it, and
    confirms under the write lock; keys may be added, replaced, revoked or
    given an expiry in between. */
module KeyManager {
  import opened Text

  /** bcrypt: whether a stored hash was made from a key. */
  type Matches = (string, string) -> bool

  /** time.Now().After(*ExpiresAt); a key without an expiry never expires. */
  predicate Expired(expires: Option<int>, now: int) {
    expires.Some? && now > expires.value
  }

  // ---- the manager and its key objects ----

  /** What a caller gets: a copy, sharing nothing with the stored key. */
  datatype KeyCopy = KeyCopy(id: string, name: string, hash: string, expires: Option<int>, lastUsed: int, permissions: seq<string>)

  class APIKey {
    const id: string
    const name: string
    const hash: string
    var expires: Option<int>
    var lastUsed: int
    var permissions: seq<string>

    constructor (id: string, name: string, hash: string, expires: Option<int>, permissions: seq<string>)
      ensures this.id == id && this.name == name && this.hash == hash && this.expires == expires
      ensures this.permissions == permissions && lastUsed == 0
    {
      this.id, this.name, this.hash := id, name, hash;
      this.expires, this.permissions, this.lastUsed := expires, permissions, 0;
    }

    function Copy(): KeyCopy
      reads this
    {
      KeyCopy(id, name, hash, expires, lastUsed, permissions)
    }
  }

  /** Some stored key matches, and no stored match has expired. */
  ghost predicate Usable(matches: Matches, key: string, keys: map<string, APIKey>, expired: set<string>) {
    && (exists id :: id in keys && matches(keys[id].hash, key))
    && (forall id :: id in keys && matches(keys[id].hash, key) ==> id !in expired)
  }

  class AuthManager {
    var keys: map<string, APIKey>

    /** Every key sits under its own ID. */
    ghost predicate Valid()
      reads this
    {
      forall id :: id in keys ==> keys[id].id == id
    }

    constructor ()
      ensures Valid() && keys == map[]
    {
      keys := map[];
    }

    /** AddAPIKey and LoadAPIKey: a new object takes the ID, whatever held it before. */
    method Put(id: string, name: string, hash: string, permissions: seq<string>, expires: Option<int>)
      requires Valid()
      modifies this
      ensures Valid() && id in keys && fresh(keys[id]) && keys == old(keys)[id := keys[id]]
      ensures keys[id].Copy() == KeyCopy(id, name, hash, expires, 0, permissions)
    {
      var k := new APIKey(id, name, hash, expires, permissions);
      keys := keys[id := k];
    }

    method RevokeAPIKey(id: string) returns (ok: bool)
      requires Valid()
      modifies this
      ensures Valid() && ok == (id in old(keys)) && keys == old(keys) - {id}
    {
      if id !in keys {
        assert keys == keys - {id};
        return false;
      }
      keys := keys - {id};
      return true;
    }

    method SetKeyExpiry(id: string, expires: Option<int>) returns (ok: bool)
      requires Valid()
      modifies keys.Values
      ensures ok == (id in keys)
      ensures ok ==> keys[id].Copy() == old(keys[id].Copy()).(expires := expires)
      ensures forall other :: other in keys && other != id ==> keys[other].Copy() == old(keys[other].Copy())
    {
      if id !in keys {
        return false;
      }
      keys[id].expires := expires;
      return true;
    }

    /** First critical section: the first match of a scan in map order, if any. */
    method Match(matches: Matches, key: string, now: int) returns (matched: Option<APIKey>, expired: bool)
      requires Valid()
      ensures matched.Some? ==> matched.value in keys.Values && matches(matched.value.hash, key) &&
                                expired == Expired(matched.value.expires, now)
      ensures matched.None? ==> forall id :: id in keys ==> !matches(keys[id].hash, key)
    {
      matched, expired := None, false;
      var todo := keys.Keys;
      while todo != {}
        invariant todo <= keys.Keys
        invariant forall id :: id in keys && id !in todo ==> !matches(keys[id].hash, key)
        decreases todo
      {
        var id :| id in todo;
        if matches(keys[id].hash, key) {
          return Some(keys[id]), Expired(keys[id].expires, now);
        }
        todo := todo - {id};
      }
    }

    /** Second critical section: the object that matched must still be the one
        under its ID, and unexpired. */
    method Confirm(matched: APIKey, now: int) returns (r: Option<KeyCopy>)
      requires Valid()
      modifies matched
      ensures r.Some? <==> matched.id in keys && keys[matched.id] == matched && !Expired(old(matched.expires), now)
      ensures r.Some? ==> r.value == matched.Copy()
      ensures matched.Copy() == if r.Some? then old(matched.Copy()).(lastUsed := now) else old(matched.Copy())
    {
      if matched.id !in keys || keys[matched.id] != matched {
        return None;
      }
      if Expired(matched.expires, now) {
        return None;
      }
      matched.lastUsed := now;
      return Some(matched.Copy());
    }

    /** ValidateAPIKey with nobody in between. */
    method ValidateAPIKey(matches: Matches, key: string, now: int, later: int) returns (r: Option<KeyCopy>)
      requires Valid() && now <= later
      modifies keys.Values
      ensures r.Some? ==> r.value.id in keys && matches(r.value.hash, key) && !Expired(r.value.expires, later) &&
                          r.value == keys[r.value.id].Copy() && r.value.lastUsed == later
      ensures key == "" || (forall id :: id in keys ==> !matches(keys[id].hash, key)) ==> r.None?
      ensures key != "" && Usable(matches, key, old(keys), old(set id | id in keys && Expired(keys[id].expires, later))) ==> r.Some?
      ensures keys == old(keys)
    {
      if key == "" {
        return None;
      }
      var matched, expired := Match(matches, key, now);
      if matched.None? || expired {
        return None;
      }
      r := Confirm(matched.value, later);
    }
  }

  // ---- validations interleaved with everything else ----

  /** A key object; its position in the heap is its identity. Its ID and hash
      never change, its expiry may. */
  datatype Key = Key(id: string, hash: string, expires: Option<int>)

  datatype Stage = Begun | Held(matched: nat) | Refused | Accepted(matched: nat)

  datatype Call = Call(key: string, stage: Stage)

  datatype State = State(now: int, heap: seq<Key>, keys: map<string, nat>, calls: seq<Call>)

  const START := State(0, [], map[], [])

  datatype Action =
    | Tick(passed: nat)
    | Put(id: string, hash: string, expires: Option<int>)
    | Revoke(id: string)
    | SetExpiry(id: string, expires: Option<int>)
    | Begin(key: string)
    | Scan(c: nat, found: Option<nat>)
    | Confirm(c: nat)

  /** A scan finds some stored match, or nothing when there is none. */
  ghost predicate MayFind(matches: Matches, s: State, key: string, found: Option<nat>) {
    match found
    case Some(o) => o in s.keys.Values && o < |s.heap| && matches(s.heap[o].hash, key)
    case None => forall id :: id in s.keys && s.keys[id] < |s.heap| ==> !matches(s.heap[s.keys[id]].hash, key)
  }

  ghost predicate Enabled(matches: Matches, s: State, a: Action) {
    match a
    case Scan(c, found) => c < |s.calls| && s.calls[c].stage.Begun? && MayFind(matches, s, s.calls[c].key, found)
    case Confirm(c) => c < |s.calls| && s.calls[c].stage.Held? && s.calls[c].stage.matched < |s.heap|
    case _ => true
  }

  /** The object is stored under its own ID and unexpired, now. */
  predicate Current(s: State, o: nat) {
    o < |s.heap| && s.heap[o].id in s.keys && s.keys[s.heap[o].id] == o && !Expired(s.heap[o].expires, s.now)
  }

  function SetStage(s: State, c: nat, stage: Stage): State
    requires c < |s.calls|
  {
    s.(calls := s.calls[c := s.calls[c].(stage := stage)])
  }

  ghost function Step(matches: Matches, s: State, a: Action): State
    requires Enabled(matches, s, a)
  {
    match a
    case Tick(passed) => s.(now := s.now + passed)
    case Put(id, hash, expires) => s.(heap := s.heap + [Key(id, hash, expires)], keys := s.keys[id := |s.heap|])
    case Revoke(id) => s.(keys := s.keys - {id})
    case SetExpiry(id, expires) =>
      if id in s.keys && s.keys[id] < |s.heap|
      then s.(heap := s.heap[s.keys[id] := s.heap[s.keys[id]].(expires := expires)]) else s
    case Begin(key) => s.(calls := s.calls + [Call(key, if key == "" then Refused else Begun)])
    case Scan(c, found) =>
      SetStage(s, c, if found.None? || Expired(s.heap[found.value].expires, s.now) then Refused else Held(found.value))
    case Confirm(c) =>
      var o := s.calls[c].stage.matched;
      SetStage(s, c, if Current(s, o) then Accepted(o) else Refused)
  }

  ghost predicate ValidRun(matches: Matches, run: seq<Action>)
    decreases |run|, 0
  {
    run == [] || (ValidRun(matches, run[..|run| - 1]) && Enabled(matches, Run(matches, run[..|run| - 1]), run[|run| - 1]))
  }

  ghost function Run(matches: Matches, run: seq<Action>): State
    requires ValidRun(matches, run)
    decreases |run|, 1
  {
    if run == [] then START else Step(matches, Run(matches, run[..|run| - 1]), run[|run| - 1])
  }

  // ---- histories ----

  /** Where an ID was last put or revoked. */
  function LastWrite(run: seq<Action>, id: string): Option<nat> {
    if run == [] then None
    else
      var n := |run| - 1;
      if (run[n].Put? || run[n].Revoke?) && run[n].id == id then Some(n) else LastWrite(run[..n], id)
  }

  /** The expiry an ID was last given, by putting it or by setting it. */
  function LastExpiry(run: seq<Action>, id: string): Option<int> {
    if run == [] then None
    else
      var n := |run| - 1;
      if (run[n].Put? || run[n].SetExpiry?) && run[n].id == id then run[n].expires else LastExpiry(run[..n], id)
  }

  /** How many objects a run has made, and so which one its next Put makes. */
  function Puts(run: seq<Action>): nat {
    if run == [] then 0 else Puts(run[..|run| - 1]) + if run[|run| - 1].Put? then 1 else 0
  }

  /** An ID is stored exactly when its last write was a Put, and then it names
      the object that Put made, with the expiry the ID was last given; hashes and
      IDs of objects never change. */
  ghost predicate Inv(matches: Matches, run: seq<Action>, s: State) {
    && |s.heap| == Puts(run)
    && (forall id :: id in s.keys ==> s.keys[id] < |s.heap| && s.heap[s.keys[id]].id == id)
    && (forall id :: StoredAsWritten(run, s, id))
    && (forall c :: 0 <= c < |s.calls| ==> CallOk(matches, s, s.calls[c]))
  }

  ghost predicate CallOk(matches: Matches, s: State, call: Call) {
    && (call.stage.Begun? || call.stage.Held? ==> call.key != "")
    && (call.stage.Held? ==> call.stage.matched < |s.heap| && matches(s.heap[call.stage.matched].hash, call.key))
  }

  ghost predicate StoredAsWritten(run: seq<Action>, s: State, id: string) {
    match LastWrite(run, id)
    case None => id !in s.keys
    case Some(n) =>
      if n < |run| && run[n].Put? then
        id in s.keys && s.keys[id] == Puts(run[..n]) < |s.heap| && s.heap[s.keys[id]].hash == run[n].hash &&
        s.heap[s.keys[id]].expires == LastExpiry(run, id)
      else id !in s.keys
  }

  lemma LastWriteBefore(run: seq<Action>, id: string)
    ensures LastWrite(run, id).Some? ==> LastWrite(run, id).value < |run|
  {
  }

  lemma StepKeepsWritten(matches: Matches, run: seq<Action>, s: State, a: Action, id: string)
    requires |s.heap| == Puts(run) && StoredAsWritten(run, s, id) && Enabled(matches, s, a)
    requires forall k :: k in s.keys ==> s.keys[k] < |s.heap| && s.heap[s.keys[k]].id == k
    ensures StoredAsWritten(run + [a], Step(matches, s, a), id)
  {
    var next := run + [a];
    assert next[..|run|] == run;
    LastWriteBefore(run, id);
    if !((a.Put? || a.Revoke?) && a.id == id) && LastWrite(run, id).Some? {
      var n := LastWrite(run, id).value;
      assert next[n] == run[n] && next[..n] == run[..n];
    }
  }

  lemma StepKeepsInv(matches: Matches, run: seq<Action>, s: State, a: Action)
    requires Inv(matches, run, s) && Enabled(matches, s, a)
    ensures Inv(matches, run + [a], Step(matches, s, a))
  {
    assert (run + [a])[..|run|] == run;
    forall id ensures StoredAsWritten(run + [a], Step(matches, s, a), id) {
      assert StoredAsWritten(run, s, id);
      StepKeepsWritten(matches, run, s, a, id);
    }
    var s' := Step(matches, s, a);
    forall c | 0 <= c < |s'.calls| ensures CallOk(matches, s', s'.calls[c]) {
      if c < |s.calls| { assert CallOk(matches, s, s.calls[c]); }
    }
  }

  lemma {:induction false} RunKeepsInv(matches: Matches, run: seq<Action>)
    requires ValidRun(matches, run)
    ensures Inv(matches, run, Run(matches, run))
  {
    if run != [] {
      var n := |run| - 1;
      RunKeepsInv(matches, run[..n]);
      StepKeepsInv(matches, run[..n], Run(matches, run[..n]), run[n]);
      assert run[..n] + [run[n]] == run;
    }
  }

  /** Whatever happens between its two critical sections, a validation that
      succeeds does so at an instant when the object that matched is the one
      stored under its ID and has not expired; the last write of that ID so far
      is a Put, of this very object, with a hash that matches the key; and the
      expiry the ID was last given has not passed. So no validation succeeds for
      an ID whose last write was a revocation, nor with a key its ID no longer
      has, nor after an expiry set meanwhile. */
  lemma AcceptedKeyIsCurrent(matches: Matches, run: seq<Action>, c: nat)
    requires ValidRun(matches, run + [Confirm(c)])
    requires c < |Run(matches, run + [Confirm(c)]).calls| && Run(matches, run + [Confirm(c)]).calls[c].stage.Accepted?
    ensures ValidRun(matches, run)
    ensures var s := Run(matches, run);
            var o := Run(matches, run + [Confirm(c)]).calls[c].stage.matched;
            && Current(s, o) && c < |s.calls| && s.calls[c].key != "" && matches(s.heap[o].hash, s.calls[c].key)
            && var w := LastWrite(run, s.heap[o].id);
               w.Some? && w.value < |run| && run[w.value].Put? &&
               o == Puts(run[..w.value]) && matches(run[w.value].hash, s.calls[c].key) &&
               (LastExpiry(run, s.heap[o].id).None? || s.now <= LastExpiry(run, s.heap[o].id).value)
  {
    var next := run + [Confirm(c)];
    assert next[..|run|] == run && next[|run|] == Confirm(c);
    RunKeepsInv(matches, run);
    var s := Run(matches, run);
    assert CallOk(matches, s, s.calls[c]);
    var o := s.calls[c].stage.matched;
    assert StoredAsWritten(run, s, s.heap[o].id);
  }
}
