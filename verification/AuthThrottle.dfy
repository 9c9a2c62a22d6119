/** The credential throttle: a token bucket per client address is peeked,
    verified against and spent under a sharded lock, while requests without a
    key spend from the same bucket outside the lock and a sweeper evicts full
    buckets. Times are seconds and tokens are exact reals. */
module AuthThrottle {
  import opened Text

  const BURST: real := 3.0
  const RATE: real := 5.0 / 60.0

  // ---- one limiter ----

  datatype Bucket = Bucket(tokens: real, last: real)

  function Level(b: Bucket, now: real): real {
    var t := b.tokens + (now - b.last) * RATE;
    if t > BURST then BURST else t
  }

  /** What may still be spent; an address without a limiter would get a full one. */
  function Left(b: Option<Bucket>, now: real): real {
    if b.Some? then Level(b.value, now) else BURST
  }

  function Created(b: Option<Bucket>, now: real): Bucket {
    if b.Some? then b.value else Bucket(BURST, now)
  }

  predicate CanSpend(b: Option<Bucket>, now: real) { Left(b, now) >= 1.0 }

  /** From this instant on, the same can be spent. */
  ghost predicate SameFrom(a: Option<Bucket>, b: Option<Bucket>, start: real) {
    forall t :: t >= start ==> Left(a, t) == Left(b, t)
  }

  /** What may be spent never shrinks by waiting, and grows by five tokens a
      minute up to three. */
  lemma LevelGrows(b: Option<Bucket>, now: real, later: real)
    requires now <= later
    ensures Left(b, now) <= Left(b, later) <= 3.0
    ensures Left(b, now) <= 3.0
    ensures b.Some? && Left(b, later) < 3.0 ==> Left(b, later) == Left(b, now) + (later - now) * (5.0 / 60.0)
  {
    if b.Some? {
      assert (later - b.value.last) * RATE == (now - b.value.last) * RATE + (later - now) * RATE;
      assert (later - now) * RATE >= 0.0;
    }
  }

  /** limiter.Allow: takes one token if there is one. */
  function Allowed(b: Option<Bucket>, now: real): Bucket {
    if CanSpend(b, now) then Bucket(Left(b, now) - 1.0, now) else Created(b, now)
  }

  /** A sweep forgets a limiter that has recovered to full. */
  predicate Stale(b: Bucket, now: real) { Level(b, now) >= BURST }

  // ---- the table of limiters ----

  type Limiters = map<string, Bucket>

  function Find(l: Limiters, ip: string): Option<Bucket> {
    if ip in l then Some(l[ip]) else None
  }

  class AuthLimiters {
    var limiters: Limiters

    method GetOrCreate(ip: string, now: real) returns (b: Bucket)
      modifies this
      ensures b == Created(Find(old(limiters), ip), now)
      ensures limiters == old(limiters)[ip := b]
    {
      if ip !in limiters {
        limiters := limiters[ip := Bucket(BURST, now)];
      }
      b := limiters[ip];
      assert limiters == old(limiters)[ip := b];
    }

    method Allow(ip: string, now: real) returns (ok: bool)
      modifies this
      ensures ok == CanSpend(Find(old(limiters), ip), now)
      ensures limiters == old(limiters)[ip := Allowed(Find(old(limiters), ip), now)]
    {
      var b := GetOrCreate(ip, now);
      var level := Level(b, now);
      ok := level >= 1.0;
      if ok {
        limiters := limiters[ip := Bucket(level - 1.0, now)];
      }
    }

    method Exhausted(ip: string, now: real) returns (empty: bool)
      modifies this
      ensures empty == !CanSpend(Find(old(limiters), ip), now)
      ensures limiters == old(limiters)[ip := Created(Find(old(limiters), ip), now)]
    {
      var b := GetOrCreate(ip, now);
      empty := Level(b, now) < 1.0;
    }

    /** verify: peek, try once more if empty, authenticate, and spend on failure.
        The three clock readings are the instants of the limiter calls; asked
        tells whether the key was verified at all. In tokens: a valid key with a
        token left costs nothing and is let in; a wrong one costs exactly one;
        nobody is asked for exactly when neither look finds a token; and a valid
        key let in on the second look costs the one token that look took. */
    method Verify(ip: string, known: bool, peekAt: real, againAt: real, chargeAt: real) returns (limited: bool, asked: bool)
      requires peekAt <= againAt <= chargeAt
      modifies this
      ensures limiters.Keys == old(limiters).Keys + {ip}
      ensures forall other :: other in old(limiters) && other != ip ==> limiters[other] == old(limiters)[other]
      ensures var c := Client(Find(old(limiters), ip), [], [], Out);
              var (c', turnedAway) := VerifiedAlone(c, known, peekAt, againAt, chargeAt);
              Find(limiters, ip) == c'.bucket && limited == turnedAway
      ensures asked <==> Left(Find(old(limiters), ip), peekAt) >= 1.0 || Left(Find(old(limiters), ip), againAt) >= 1.0
      ensures !asked ==> limited
      ensures !asked || (known && Left(Find(old(limiters), ip), peekAt) >= 1.0) ==>
                SameFrom(Find(old(limiters), ip), Find(limiters, ip), againAt)
      ensures known && asked ==> !limited
      ensures known && asked && Left(Find(old(limiters), ip), peekAt) < 1.0 ==>
                Left(Find(limiters, ip), againAt) == Left(Find(old(limiters), ip), againAt) - 1.0
      ensures !known && Left(Find(old(limiters), ip), peekAt) >= 1.0 ==>
                !limited && Left(Find(limiters, ip), chargeAt) == Left(Find(old(limiters), ip), chargeAt) - 1.0
      ensures !known && asked && Left(Find(old(limiters), ip), peekAt) < 1.0 ==>
                var left := Left(Find(old(limiters), ip), againAt) - 1.0 + (chargeAt - againAt) * (5.0 / 60.0);
                (limited <==> left < 1.0) &&
                Left(Find(limiters, ip), chargeAt) == if left < 1.0 then left else (if left > 3.0 then 3.0 else left) - 1.0
    {
      var empty := Exhausted(ip, peekAt);
      LevelGrows(Find(old(limiters), ip), peekAt, againAt);
      LevelGrows(Find(old(limiters), ip), againAt, chargeAt);
      if empty {
        var ok := Allow(ip, againAt);
        if !ok {
          return true, false;
        }
      }
      limited, asked := false, true;
      if !known {
        var ok := Allow(ip, chargeAt);
        limited := !ok;
      }
    }

    /** cleanupRateLimiters: drop every limiter that has recovered to full. */
    method Sweep(now: real)
      modifies this
      ensures limiters == map ip | ip in old(limiters) && !Stale(old(limiters)[ip], now) :: old(limiters)[ip]
      ensures forall ip :: ip in limiters <==> ip in old(limiters) && Left(Find(old(limiters), ip), now) < 3.0
    {
      var todo := limiters.Keys;
      while todo != {}
        invariant todo <= old(limiters).Keys
        invariant limiters == map ip | ip in old(limiters) && (ip in todo || !Stale(old(limiters)[ip], now)) :: old(limiters)[ip]
        decreases todo
      {
        var ip :| ip in todo;
        if Level(limiters[ip], now) >= BURST {
          limiters := limiters - {ip};
        }
        todo := todo - {ip};
      }
    }
  }

  // ---- one address, step by step ----

  /** Where an address's verification stands: none in progress, lock taken,
      told there is no token, verifying, or turned down with its token still to
      be spent. since is how many tokens the address had spent when the lock
      was taken. */
  datatype Stage =
    | Out
    | Entered(since: nat)
    | SawNone(since: nat)
    | Verifying(since: nat)
    | TurnedDown(since: nat)

  /** The lock window of one failed verification, as positions in the sequence
      of tokens the address has spent. */
  datatype Window = Window(from: nat, till: nat)

  /** An address: its limiter, when it spent each token, its failed
      verifications, and the one in progress. */
  datatype Client = Client(bucket: Option<Bucket>, spent: seq<real>, failures: seq<Window>, stage: Stage)

  const STRANGER := Client(None, [], [], Out)

  function Spend(c: Client, now: real): Client {
    c.(bucket := Some(Allowed(c.bucket, now)),
       spent := if CanSpend(c.bucket, now) then c.spent + [now] else c.spent)
  }

  datatype Move = Keyless | Enter | Peek | TryAgain | Authenticate(known: bool) | Charge

  predicate Allows(c: Client, m: Move) {
    match m
    case Keyless => true
    case Enter => c.stage.Out?
    case Peek => c.stage.Entered?
    case TryAgain => c.stage.SawNone?
    case Authenticate(_) => c.stage.Verifying?
    case Charge => c.stage.TurnedDown?
  }

  function Moved(c: Client, m: Move, now: real): Client
    requires Allows(c, m)
  {
    match m
    case Keyless => Spend(c, now)
    case Enter => c.(stage := Entered(|c.spent|))
    case Peek =>
      c.(bucket := Some(Created(c.bucket, now)),
         stage := if CanSpend(c.bucket, now) then Verifying(c.stage.since) else SawNone(c.stage.since))
    case TryAgain =>
      Spend(c, now).(stage := if CanSpend(c.bucket, now) then Verifying(c.stage.since) else Out)
    case Authenticate(known) =>
      c.(stage := if known then Out else TurnedDown(c.stage.since))
    case Charge =>
      var c1 := Spend(c, now);
      c1.(failures := c1.failures + [Window(c.stage.since, |c1.spent|)], stage := Out)
  }

  /** The moves of one verification with nobody interfering, and whether it is answered 429. */
  function VerifiedAlone(c: Client, known: bool, peekAt: real, againAt: real, chargeAt: real): (Client, bool)
    requires c.stage.Out?
  {
    var c1 := Moved(Moved(c, Enter, peekAt), Peek, peekAt);
    var c2 := if c1.stage.SawNone? then Moved(c1, TryAgain, againAt) else c1;
    if c2.stage.Out? then (c2, true)
    else
      var c3 := Moved(c2, Authenticate(known), againAt);
      if known then (c3, false) else (Moved(c3, Charge, chargeAt), !CanSpend(c3.bucket, chargeAt))
  }

  function Swept(c: Client, now: real): Client {
    if c.bucket.Some? && Stale(c.bucket.value, now) then c.(bucket := None) else c
  }

  /** Failed verifications: finished ones and the one still to be charged. */
  function Failures(c: Client): nat {
    |c.failures| + if c.stage.TurnedDown? then 1 else 0
  }

  // ---- what an address keeps ----

  /** Windows hold at least one spent token each and follow one another. */
  ghost predicate Ordered(w: seq<Window>, n: nat) {
    && (forall i :: 0 <= i < |w| ==> w[i].from < w[i].till <= n)
    && (forall i, j :: 0 <= i < j < |w| ==> w[i].till <= w[j].from)
  }

  ghost predicate BucketOk(b: Option<Bucket>, now: real) {
    b.Some? ==> b.value.last <= now && 0.0 <= b.value.tokens <= BURST
  }

  /** Each failed verification has a token of its own, spent inside its lock
      window; one under way has a token spent inside its window or still finds
      one in the bucket. */
  ghost predicate Accounted(c: Client, now: real) {
    && BucketOk(c.bucket, now)
    && Ordered(c.failures, |c.spent|)
    && (!c.stage.Out? ==> c.stage.since <= |c.spent|)
    && (!c.stage.Out? ==> forall i :: 0 <= i < |c.failures| ==> c.failures[i].till <= c.stage.since)
    && (c.stage.Verifying? || c.stage.TurnedDown? ==> c.stage.since < |c.spent| || CanSpend(c.bucket, now))
  }

  lemma LeftBounds(b: Option<Bucket>, now: real)
    requires BucketOk(b, now)
    ensures 0.0 <= Left(b, now) <= BURST
  {
    if b.Some? { assert (now - b.value.last) * RATE >= 0.0; }
  }

  /** Spending moves exactly what it takes from the bucket to the record. */
  lemma SpendConserves(c: Client, now: real)
    requires BucketOk(c.bucket, now)
    ensures BucketOk(Spend(c, now).bucket, now)
    ensures |Spend(c, now).spent| as real + Left(Spend(c, now).bucket, now) == |c.spent| as real + Left(c.bucket, now)
    ensures |Spend(c, now).spent| == |c.spent| + if CanSpend(c.bucket, now) then 1 else 0
  {
    LeftBounds(c.bucket, now);
  }

  lemma MoveKeepsAccounted(c: Client, m: Move, now: real)
    requires Accounted(c, now) && Allows(c, m)
    ensures Accounted(Moved(c, m, now), now)
  {
    SpendConserves(c, now);
  }

  lemma WaitKeepsAccounted(c: Client, now: real, later: real)
    requires Accounted(c, now) && now <= later
    ensures Accounted(c, later)
    ensures Left(c.bucket, now) <= Left(c.bucket, later) <= Left(c.bucket, now) + RATE * (later - now)
  {
    if c.bucket.Some? {
      var b := c.bucket.value;
      assert (later - b.last) * RATE == (now - b.last) * RATE + (later - now) * RATE;
      assert (later - now) * RATE >= 0.0;
    }
  }

  /** Forgetting a full limiter changes nothing anyone can spend. */
  lemma SweepKeepsAccounted(c: Client, now: real)
    requires Accounted(c, now)
    ensures Accounted(Swept(c, now), now) && Left(Swept(c, now).bucket, now) == Left(c.bucket, now)
  {
    LeftBounds(c.bucket, now);
  }

  // ---- all addresses together ----

  /** The verification lock an address hashes to. */
  type Shards = string -> nat

  datatype State = State(now: real, clients: map<string, Client>, locks: map<nat, string>)

  const START := State(0.0, map[], map[])

  function At(s: State, ip: string): Client { if ip in s.clients then s.clients[ip] else STRANGER }

  datatype Action = Wait(seconds: real) | Act(ip: string, move: Move) | Evict

  predicate Enabled(shard: Shards, s: State, a: Action) {
    match a
    case Wait(seconds) => seconds >= 0.0
    case Act(ip, m) => Allows(At(s, ip), m) && (m.Enter? ==> shard(ip) !in s.locks)
    case Evict => true
  }

  function Step(shard: Shards, s: State, a: Action): State
    requires Enabled(shard, s, a)
  {
    match a
    case Wait(seconds) => s.(now := s.now + seconds)
    case Evict => s.(clients := map ip | ip in s.clients :: Swept(s.clients[ip], s.now))
    case Act(ip, m) =>
      var c := Moved(At(s, ip), m, s.now);
      s.(clients := s.clients[ip := c],
         locks := if c.stage.Out? && !At(s, ip).stage.Out? then s.locks - {shard(ip)}
                  else if m.Enter? then s.locks[shard(ip) := ip]
                  else s.locks)
  }

  ghost predicate ValidRun(shard: Shards, s: State, run: seq<Action>)
    decreases |run|
  {
    run == [] || (Enabled(shard, s, run[0]) && ValidRun(shard, Step(shard, s, run[0]), run[1..]))
  }

  ghost function Run(shard: Shards, s: State, run: seq<Action>): State
    requires ValidRun(shard, s, run)
    decreases |run|
  {
    if run == [] then s else Run(shard, Step(shard, s, run[0]), run[1..])
  }

  /** A lock is held by exactly the address that is verifying behind it. */
  ghost predicate LocksOk(shard: Shards, s: State) {
    && (forall ip :: !At(s, ip).stage.Out? <==> shard(ip) in s.locks && s.locks[shard(ip)] == ip)
    && (forall k :: k in s.locks ==> shard(s.locks[k]) == k)
  }

  ghost predicate Inv(shard: Shards, s: State) {
    LocksOk(shard, s) && forall ip :: Accounted(At(s, ip), s.now)
  }

  lemma StepKeepsLocks(shard: Shards, s: State, a: Action)
    requires LocksOk(shard, s) && Enabled(shard, s, a)
    ensures LocksOk(shard, Step(shard, s, a))
  {
    var s' := Step(shard, s, a);
    if a.Act? {
      var c, c' := At(s, a.ip), At(s', a.ip);
      assert c' == Moved(c, a.move, s.now);
      assert c'.stage.Out? && !c.stage.Out? ==> s'.locks == s.locks - {shard(a.ip)};
      assert !c'.stage.Out? && c.stage.Out? ==> s'.locks == s.locks[shard(a.ip) := a.ip];
      assert c'.stage.Out? == c.stage.Out? ==> s'.locks == s.locks;
    } else {
      assert forall ip :: At(s', ip).stage == At(s, ip).stage;
    }
  }

  lemma StepKeepsInv(shard: Shards, s: State, a: Action)
    requires Inv(shard, s) && Enabled(shard, s, a)
    ensures Inv(shard, Step(shard, s, a))
  {
    StepKeepsLocks(shard, s, a);
    var s' := Step(shard, s, a);
    forall ip ensures Accounted(At(s', ip), s'.now) {
      StepOn(shard, s, a, ip);
    }
  }

  /** What one step does to one address. */
  lemma StepOn(shard: Shards, s: State, a: Action, ip: string)
    requires Inv(shard, s) && Enabled(shard, s, a)
    ensures Accounted(At(Step(shard, s, a), ip), Step(shard, s, a).now)
    ensures a.Act? && a.ip == ip ==> At(Step(shard, s, a), ip) == Moved(At(s, ip), a.move, s.now)
    ensures a.Act? && a.ip != ip ==> At(Step(shard, s, a), ip) == At(s, ip)
    ensures a.Wait? ==> At(Step(shard, s, a), ip) == At(s, ip)
    ensures a.Evict? ==> At(Step(shard, s, a), ip) == Swept(At(s, ip), s.now)
  {
    assert Accounted(At(s, ip), s.now);
    match a
    case Wait(seconds) => WaitKeepsAccounted(At(s, ip), s.now, s.now + seconds);
    case Evict => SweepKeepsAccounted(At(s, ip), s.now);
    case Act(other, m) => if other == ip { MoveKeepsAccounted(At(s, ip), m, s.now); }
  }

  // ---- the bound ----

  /** The verification open at the earlier moment is still open. */
  ghost predicate StillOpen(c0: Client, c: Client) {
    !c0.stage.Out? && !c.stage.Out? && c.stage.since == c0.stage.since && |c.failures| == |c0.failures|
  }

  /** Every failure charged since has a token spent since in its window. */
  ghost predicate Paid(c0: Client, c: Client) {
    && (forall i :: |c0.failures| <= i < |c.failures| ==> c.failures[i].till > |c0.spent|)
    && (!c.stage.Out? ==> c.stage.since >= |c0.spent|)
  }

  /** The first failure charged since had its token before, and found none left:
      from then on there was less than one token to start with. */
  ghost predicate OnCredit(c0: Client, now0: real, c: Client, now: real) {
    && (forall i :: |c0.failures| < i < |c.failures| ==> c.failures[i].from >= |c0.spent|)
    && (!c.stage.Out? ==> c.stage.since >= |c0.spent|)
    && (|c.spent| - |c0.spent|) as real + Left(c.bucket, now) <= 1.0 + RATE * (now - now0)
  }

  /** An address's account since an earlier moment: what was spent since plus
      what is left is covered by what was left then plus the refill, and the
      failures since then are accounted for in one of three ways. */
  ghost predicate Since(c0: Client, now0: real, c: Client, now: real) {
    && |c0.spent| <= |c.spent| && |c0.failures| <= |c.failures| && now0 <= now
    && (|c.spent| - |c0.spent|) as real + Left(c.bucket, now) <= Left(c0.bucket, now0) + RATE * (now - now0)
    && (StillOpen(c0, c) || Paid(c0, c) || (!c0.stage.Out? && OnCredit(c0, now0, c, now)))
  }

  /** Charging the verification that was open at the earlier moment. */
  lemma ChargeKeepsSince(c0: Client, now0: real, c: Client, now: real)
    requires Accounted(c, now) && Since(c0, now0, c, now) && StillOpen(c0, c) && c.stage.TurnedDown?
    ensures Since(c0, now0, Moved(c, Charge, now), now)
  {
    SpendConserves(c, now);
    var c' := Moved(c, Charge, now);
    assert RATE * (now - now0) >= 0.0;
    if CanSpend(c.bucket, now) || |c.spent| > |c0.spent| {
      assert Paid(c0, c');
    } else {
      assert OnCredit(c0, now0, c', now);
    }
  }

  lemma MoveKeepsSince(c0: Client, now0: real, c: Client, m: Move, now: real)
    requires Accounted(c, now) && Since(c0, now0, c, now) && Allows(c, m)
    ensures Since(c0, now0, Moved(c, m, now), now)
  {
    SpendConserves(c, now);
    var c' := Moved(c, m, now);
    if StillOpen(c0, c) {
      if m.Charge? { ChargeKeepsSince(c0, now0, c, now); } else { assert StillOpen(c0, c') || Paid(c0, c'); }
    } else if Paid(c0, c) {
      assert Paid(c0, c');
    } else {
      assert OnCredit(c0, now0, c', now);
    }
  }

  lemma StepKeepsSince(shard: Shards, c0: Client, now0: real, s: State, a: Action, ip: string)
    requires Inv(shard, s) && Enabled(shard, s, a) && Since(c0, now0, At(s, ip), s.now)
    ensures Since(c0, now0, At(Step(shard, s, a), ip), Step(shard, s, a).now)
  {
    StepOn(shard, s, a, ip);
    var c := At(s, ip);
    match a
    case Wait(seconds) =>
      WaitKeepsAccounted(c, s.now, s.now + seconds);
      assert RATE * (s.now + seconds - now0) == RATE * (s.now - now0) + RATE * seconds;
    case Evict => SweepKeepsAccounted(c, s.now);
    case Act(other, m) => if other == ip { MoveKeepsSince(c0, now0, c, m, s.now); }
  }

  lemma {:induction false} RunKeepsSince(shard: Shards, c0: Client, now0: real, s: State, run: seq<Action>, ip: string)
    requires Inv(shard, s) && ValidRun(shard, s, run) && Since(c0, now0, At(s, ip), s.now)
    ensures Inv(shard, Run(shard, s, run)) && Since(c0, now0, At(Run(shard, s, run), ip), Run(shard, s, run).now)
    decreases |run|
  {
    if run != [] {
      StepKeepsInv(shard, s, run[0]);
      StepKeepsSince(shard, c0, now0, s, run[0], ip);
      RunKeepsSince(shard, c0, now0, Step(shard, s, run[0]), run[1..], ip);
    }
  }

  /** Disjoint non-empty windows inside [lo, hi) number at most hi - lo. */
  lemma {:induction false} WindowsFit(w: seq<Window>, start: nat, lo: nat, hi: nat)
    requires start <= |w| && Ordered(w, hi) && lo <= hi
    requires forall i :: start <= i < |w| ==> w[i].from >= lo
    ensures |w| - start <= hi - lo
    decreases |w|
  {
    if start < |w| {
      WindowsFit(w[..|w| - 1], start, lo, w[|w| - 1].from);
    }
  }

  /** Windows that all reach past lo number at most hi - lo, even if the first
      began before it. */
  lemma WindowsReach(w: seq<Window>, start: nat, lo: nat, hi: nat)
    requires start <= |w| && Ordered(w, hi) && lo <= hi
    requires forall i :: start <= i < |w| ==> w[i].till > lo
    ensures |w| - start <= hi - lo
  {
    if start < |w| {
      forall i | start + 1 <= i < |w| ensures w[i].from >= w[start].till {
      }
      WindowsFit(w, start + 1, w[start].till, hi);
    }
  }

  /** The windows of the failures, and of one still to be charged if a token has
      been spent inside it already. */
  function Windows(c: Client): seq<Window> {
    c.failures + if c.stage.TurnedDown? && c.stage.since < |c.spent| then [Window(c.stage.since, |c.spent|)] else []
  }

  /** Failures, counting the one still to be charged, are at most the windows
      with a token and what is left. */
  lemma PendingCovered(c: Client, now: real)
    requires Accounted(c, now)
    ensures Ordered(Windows(c), |c.spent|)
    ensures Failures(c) as real <= |Windows(c)| as real + Left(c.bucket, now)
  {
    LeftBounds(c.bucket, now);
  }

  lemma PaidFailures(c0: Client, c: Client, now: real)
    requires Accounted(c, now) && |c0.spent| <= |c.spent| && |c0.failures| <= |c.failures| && Paid(c0, c)
    ensures (Failures(c) - Failures(c0)) as real <= (|c.spent| - |c0.spent|) as real + Left(c.bucket, now)
  {
    PendingCovered(c, now);
    WindowsReach(Windows(c), |c0.failures|, |c0.spent|, |c.spent|);
  }

  lemma CreditFailures(c0: Client, now0: real, c: Client, now: real)
    requires Accounted(c, now) && |c0.spent| <= |c.spent| && |c0.failures| <= |c.failures| && OnCredit(c0, now0, c, now)
    ensures (Failures(c) - Failures(c0)) as real <= 2.0 + RATE * (now - now0)
  {
    PendingCovered(c, now);
    LeftBounds(c.bucket, now);
    var w := Windows(c);
    if |c0.failures| < |w| {
      forall i | |c0.failures| < i < |w| ensures w[i].from >= |c0.spent| {
        assert i < |c.failures| ==> w[i] == c.failures[i];
      }
      WindowsFit(w, |c0.failures| + 1, |c0.spent|, |c.spent|);
    }
  }

  /** The failures since c0, counting the one still to be charged: covered by
      the tokens spent since and left if nothing was under way then, and within
      the bound in any case. */
  lemma FailuresCovered(c0: Client, now0: real, c: Client, now: real)
    requires BucketOk(c0.bucket, now0) && Accounted(c, now) && Since(c0, now0, c, now)
    ensures c0.stage.Out? ==>
              (Failures(c) - Failures(c0)) as real <= (|c.spent| - |c0.spent|) as real + Left(c.bucket, now)
    ensures (Failures(c) - Failures(c0)) as real <= BURST + RATE * (now - now0)
  {
    LeftBounds(c0.bucket, now0);
    assert RATE * (now - now0) >= 0.0;
    if Paid(c0, c) {
      PaidFailures(c0, c, now);
    } else if OnCredit(c0, now0, c, now) {
      CreditFailures(c0, now0, c, now);
    }
  }

  /** Over any interleaving, from any reachable moment on, whatever was under way
      then, the failed verifications of an address within T seconds number at
      most BURST + RATE * T. */
  lemma FailuresBounded(shard: Shards, s0: State, run: seq<Action>, ip: string)
    requires Inv(shard, s0) && ValidRun(shard, s0, run)
    ensures var s := Run(shard, s0, run);
            (Failures(At(s, ip)) - Failures(At(s0, ip))) as real <= BURST + RATE * (s.now - s0.now)
  {
    var c0 := At(s0, ip);
    assert Accounted(c0, s0.now);
    RunKeepsSince(shard, c0, s0.now, s0, run, ip);
    var s := Run(shard, s0, run);
    assert Accounted(At(s, ip), s.now);
    FailuresCovered(c0, s0.now, At(s, ip), s.now);
  }

  /** From startup on, every failed verification has a token of its own, spent
      inside its lock window, and no two windows of an address overlap. */
  lemma EveryFailureHasItsToken(shard: Shards, run: seq<Action>, ip: string)
    requires ValidRun(shard, START, run)
    ensures var c := At(Run(shard, START, run), ip);
            Ordered(c.failures, |c.spent|) && Inv(shard, Run(shard, START, run))
  {
    assert Inv(shard, START);
    RunKeepsSince(shard, STRANGER, 0.0, START, run, ip);
    assert Accounted(At(Run(shard, START, run), ip), Run(shard, START, run).now);
  }

  /** In every run at most one verification per lock is in progress. */
  lemma OneVerificationPerLock(shard: Shards, run: seq<Action>, ip: string, other: string)
    requires ValidRun(shard, START, run) && shard(ip) == shard(other)
    ensures var s := Run(shard, START, run);
            !At(s, ip).stage.Out? && !At(s, other).stage.Out? ==> ip == other
  {
    EveryFailureHasItsToken(shard, run, ip);
  }

  /** The bound in figures: three failures at once, and five more a minute. */
  lemma FailuresInFigures(shard: Shards, s0: State, run: seq<Action>, ip: string)
    requires Inv(shard, s0) && ValidRun(shard, s0, run)
    ensures var s := Run(shard, s0, run);
            (Failures(At(s, ip)) - Failures(At(s0, ip))) as real <= 3.0 + 5.0 * (s.now - s0.now) / 60.0
  {
    FailuresBounded(shard, s0, run, ip);
  }

  // ---- valid keys are not throttled ----

  /** Every request from the address carries a key, and the key is valid. */
  ghost predicate OnlyValidKeys(run: seq<Action>, ip: string) {
    forall i :: 0 <= i < |run| && run[i].Act? && run[i].ip == ip ==>
      run[i].move != Keyless && run[i].move != Authenticate(false)
  }

  /** A token is left and no request of the address has found otherwise. */
  ghost predicate Welcome(c: Client, now: real) {
    Left(c.bucket, now) >= 1.0 && !c.stage.SawNone? && !c.stage.TurnedDown?
  }

  lemma StepKeepsWelcome(shard: Shards, s: State, a: Action, ip: string)
    requires Inv(shard, s) && Enabled(shard, s, a) && Welcome(At(s, ip), s.now)
    requires a.Act? && a.ip == ip ==> a.move != Keyless && a.move != Authenticate(false)
    ensures var s' := Step(shard, s, a);
            Welcome(At(s', ip), s'.now) && At(s', ip).spent == At(s, ip).spent && At(s', ip).failures == At(s, ip).failures
  {
    StepOn(shard, s, a, ip);
    match a
    case Wait(seconds) => LevelGrows(At(s, ip).bucket, s.now, s.now + seconds);
    case Evict => SweepKeepsAccounted(At(s, ip), s.now);
    case Act(_, _) =>
  }

  /** Whatever other addresses do, an address that only presents valid keys and
      has a token left is never turned away and spends nothing. */
  lemma {:induction false} ValidKeysAreLetIn(shard: Shards, s: State, run: seq<Action>, ip: string)
    requires Inv(shard, s) && ValidRun(shard, s, run) && OnlyValidKeys(run, ip) && Welcome(At(s, ip), s.now)
    ensures var s' := Run(shard, s, run);
            Welcome(At(s', ip), s'.now) && At(s', ip).spent == At(s, ip).spent && At(s', ip).failures == At(s, ip).failures
    decreases |run|
  {
    if run != [] {
      StepKeepsInv(shard, s, run[0]);
      StepKeepsWelcome(shard, s, run[0], ip);
      assert forall i :: 0 <= i < |run[1..]| ==> run[1..][i] == run[i + 1];
      ValidKeysAreLetIn(shard, Step(shard, s, run[0]), run[1..], ip);
    }
  }

  /** So from startup on such an address is never limited at all. */
  lemma ValidKeysAreNeverLimited(shard: Shards, run: seq<Action>, ip: string)
    requires ValidRun(shard, START, run) && OnlyValidKeys(run, ip)
    ensures var c := At(Run(shard, START, run), ip);
            c.spent == [] && c.failures == [] && !c.stage.SawNone? && !c.stage.TurnedDown?
  {
    assert Inv(shard, START) && Welcome(STRANGER, 0.0);
    ValidKeysAreLetIn(shard, START, run, ip);
  }
}
