/** Backup schedules: one stop channel per scheduled instance, made when a
    schedule starts and closed when it is replaced, removed or stopped.
    Closing a channel twice would panic the daemon. */
module Schedules {
  import opened Text

  /** time.ParseDuration, in nanoseconds; None where it reports an error. */
  type DurationParser = string -> Option<int>

  const HOUR_NS := 3_600_000_000_000

  function LowerChar(c: char): char {
    if 'A' <= c <= 'Z' then (c as int + 32) as char else c
  }

  function Lower(s: string): (r: string)
    ensures |r| == |s|
  {
    seq(|s|, i requires 0 <= i < |s| => LowerChar(s[i]))
  }

  /** The interval of a schedule, or 0 for one that cannot be used. */
  function ParseSchedule(parse: DurationParser, schedule: string): (interval: nat)
    ensures interval > 0 <==> Lower(schedule) in {"hourly", "daily", "weekly", "monthly"} ||
                              (parse(schedule).Some? && parse(schedule).value > 0)
    ensures Lower(schedule) == "hourly" ==> interval == 3600 * 1_000_000_000
    ensures Lower(schedule) == "daily" ==> interval == 86400 * 1_000_000_000
    ensures Lower(schedule) == "weekly" ==> interval == 604800 * 1_000_000_000
    ensures Lower(schedule) == "monthly" ==> interval == 2592000 * 1_000_000_000
    ensures interval > 0 && Lower(schedule) !in {"hourly", "daily", "weekly", "monthly"} ==> parse(schedule) == Some(interval)
  {
    var word := Lower(schedule);
    if word == "hourly" then HOUR_NS
    else if word == "daily" then 24 * HOUR_NS
    else if word == "weekly" then 7 * 24 * HOUR_NS
    else if word == "monthly" then 30 * 24 * HOUR_NS
    else
      match parse(schedule)
      case None => 0
      case Some(d) => if d <= 0 then 0 else d
  }

  /** compressionOk is the verdict of ValidateCompression on the configuration. */
  datatype Config = Config(enabled: bool, schedule: string, compressionOk: bool)

  predicate Scheduled(c: Config) { c.enabled && c.schedule != "" }

  /** Channels are numbered as they are made; each one made has a goroutine
      waiting on it. closed counts the close calls per channel. */
  datatype State = State(
    configs: map<string, Config>, schedules: map<string, nat>, made: nat, closed: multiset<nat>)

  const START := State(map[], map[], 0, multiset{})

  function StopOne(s: State, inst: string): State {
    if inst !in s.schedules then s
    else s.(schedules := s.schedules - {inst}, closed := s.closed + multiset{s.schedules[inst]})
  }

  predicate Refused(parse: DurationParser, inst: string, config: Option<Config>) {
    config.None? || !ValidInstanceName(inst) || !config.value.compressionOk ||
    (Scheduled(config.value) && ParseSchedule(parse, config.value.schedule) == 0)
  }

  function Configured(parse: DurationParser, s: State, inst: string, config: Option<Config>, persisted: bool): State {
    if Refused(parse, inst, config) then s
    else
      var s1 := StopOne(s, inst);
      var s2 := s1.(configs := s1.configs[inst := config.value]);
      if persisted && Scheduled(config.value) then Started(s2, inst) else s2
  }

  function Unconfigured(s: State, inst: string): State {
    var s1 := StopOne(s, inst);
    s1.(configs := s1.configs - {inst})
  }

  function StopAll(s: State): State {
    s.(schedules := map[], closed := s.closed + multiset(s.schedules.Values))
  }

  datatype Op =
    | DoConfigure(inst: string, config: Option<Config>, persisted: bool)
    | DoRemove(inst: string)
    | DoStop

  function Step(parse: DurationParser, s: State, op: Op): State {
    match op
    case DoConfigure(inst, config, persisted) => Configured(parse, s, inst, config, persisted)
    case DoRemove(inst) => Unconfigured(s, inst)
    case DoStop => StopAll(s)
  }

  function Run(parse: DurationParser, ops: seq<Op>): State {
    if ops == [] then START else Step(parse, Run(parse, ops[..|ops| - 1]), ops[|ops| - 1])
  }

  /** Every channel made is in the table exactly while open, and has been closed
      once otherwise; no two instances share one; every schedule in the table
      has a usable configuration. */
  ghost predicate Inv(parse: DurationParser, s: State) {
    && (forall inst :: inst in s.schedules ==> s.schedules[inst] < s.made)
    && (forall a, b :: a in s.schedules && b in s.schedules && a != b ==> s.schedules[a] != s.schedules[b])
    && (forall ch: nat :: s.closed[ch] == if ch < s.made && ch !in s.schedules.Values then 1 else 0)
    && (forall inst :: inst in s.schedules ==>
          inst in s.configs && Scheduled(s.configs[inst]) && ParseSchedule(parse, s.configs[inst].schedule) > 0)
  }

  lemma StopOneKeepsInv(parse: DurationParser, s: State, inst: string)
    requires Inv(parse, s)
    ensures Inv(parse, StopOne(s, inst))
  {
    if inst in s.schedules {
      var s' := StopOne(s, inst);
      forall ch: nat ensures ch in s'.schedules.Values <==> ch in s.schedules.Values && ch != s.schedules[inst] {
        if ch in s.schedules.Values && ch != s.schedules[inst] {
          var k :| k in s.schedules && s.schedules[k] == ch;
          assert k in s'.schedules;
        }
      }
    }
  }

  /** Storing a configuration under an instance with no schedule, and starting one. */
  function Started(s: State, inst: string): State {
    s.(schedules := s.schedules[inst := s.made], made := s.made + 1)
  }

  lemma StartedKeepsInv(parse: DurationParser, s: State, inst: string)
    requires Inv(parse, s) && inst !in s.schedules
    requires inst in s.configs && Scheduled(s.configs[inst]) && ParseSchedule(parse, s.configs[inst].schedule) > 0
    ensures Inv(parse, Started(s, inst))
  {
    var s' := Started(s, inst);
    forall ch: nat ensures ch in s'.schedules.Values <==> ch in s.schedules.Values || ch == s.made {
      if ch in s.schedules.Values {
        var k :| k in s.schedules && s.schedules[k] == ch;
        assert k in s'.schedules && s'.schedules[k] == ch;
      }
      assert inst in s'.schedules;
    }
  }

  lemma ConfigureKeepsInv(parse: DurationParser, s: State, inst: string, config: Option<Config>, persisted: bool)
    requires Inv(parse, s)
    ensures Inv(parse, Configured(parse, s, inst, config, persisted))
  {
    if !Refused(parse, inst, config) {
      StopOneKeepsInv(parse, s, inst);
      var s1 := StopOne(s, inst);
      var s2 := s1.(configs := s1.configs[inst := config.value]);
      assert Inv(parse, s2);
      if persisted && Scheduled(config.value) {
        StartedKeepsInv(parse, s2, inst);
      }
    }
  }

  /** A configuration is accepted if it is there, its instance's name and its
      compression are valid, and a schedule it enables can be used. */
  predicate Acceptable(parse: DurationParser, inst: string, config: Option<Config>) {
    && config.Some? && ValidInstanceName(inst) && config.value.compressionOk
    && (config.value.enabled && config.value.schedule != "" ==> ParseSchedule(parse, config.value.schedule) > 0)
  }

  /** Configuring an instance: nothing changes unless it is acceptable; then it is
      stored, the channel it had is closed, a new one is in the table exactly if
      it was persisted with a schedule that is enabled, and no other instance is
      affected. */
  lemma ConfigureLeaves(parse: DurationParser, s: State, inst: string, config: Option<Config>, persisted: bool)
    ensures var s' := Configured(parse, s, inst, config, persisted);
            && (!Acceptable(parse, inst, config) ==> s' == s)
            && (Acceptable(parse, inst, config) ==>
                  && s'.configs == s.configs[inst := config.value]
                  && (inst in s'.schedules <==> persisted && config.value.enabled && config.value.schedule != "")
                  && (inst in s'.schedules ==> s'.schedules[inst] == s.made)
                  && s'.made == s.made + (if inst in s'.schedules then 1 else 0)
                  && s'.closed == s.closed + (if inst in s.schedules then multiset{s.schedules[inst]} else multiset{}))
            && (forall k :: k != inst ==> (k in s'.schedules <==> k in s.schedules))
            && (forall k :: k != inst && k in s.schedules ==> s'.schedules[k] == s.schedules[k])
  {
  }

  /** Removing a configuration closes its instance's channel and forgets both;
      stopping closes every open channel and forgets no configuration. */
  lemma RemoveAndStopLeave(s: State, inst: string)
    ensures Unconfigured(s, inst) ==
            State(s.configs - {inst}, s.schedules - {inst}, s.made,
                  s.closed + (if inst in s.schedules then multiset{s.schedules[inst]} else multiset{}))
    ensures StopAll(s).schedules == map[] && StopAll(s).configs == s.configs && StopAll(s).made == s.made
  {
  }

  lemma StopAllKeepsInv(parse: DurationParser, s: State)
    requires Inv(parse, s)
    ensures Inv(parse, StopAll(s))
  {
  }

  /** With an empty table, which channels were closed follows from how many were made. */
  lemma ClosedWhenEmpty(parse: DurationParser, s: State, r: State)
    requires Inv(parse, s) && Inv(parse, r) && s.made == r.made && s.schedules == map[] && r.schedules == map[]
    ensures s.closed == r.closed
  {
    assert forall ch: nat :: s.closed[ch] == r.closed[ch];
  }

  lemma {:induction false} RunKeepsInv(parse: DurationParser, ops: seq<Op>)
    ensures Inv(parse, Run(parse, ops))
  {
    if ops != [] {
      var s := Run(parse, ops[..|ops| - 1]);
      RunKeepsInv(parse, ops[..|ops| - 1]);
      match ops[|ops| - 1]
      case DoConfigure(inst, config, persisted) => ConfigureKeepsInv(parse, s, inst, config, persisted);
      case DoRemove(inst) => StopOneKeepsInv(parse, s, inst);
      case DoStop => StopAllKeepsInv(parse, s);
    }
  }

  /** Over any run a channel is closed at most once, and exactly when it has left
      the table; after Stop every goroutine ever started has a closed channel. */
  lemma ChannelsCloseOnce(parse: DurationParser, ops: seq<Op>, ch: nat)
    requires ch < Run(parse, ops).made
    ensures Run(parse, ops).closed[ch] <= 1
    ensures Run(parse, ops).closed[ch] == 0 <==> exists inst :: inst in Run(parse, ops).schedules && Run(parse, ops).schedules[inst] == ch
    ensures Run(parse, ops + [DoStop]).schedules == map[] && Run(parse, ops + [DoStop]).closed[ch] == 1
  {
    RunKeepsInv(parse, ops);
    RunKeepsInv(parse, ops + [DoStop]);
    assert (ops + [DoStop])[..|ops|] == ops;
  }

  class ScheduleTable {
    const parse: DurationParser
    var configs: map<string, Config>
    var schedules: map<string, nat>
    var made: nat
    ghost var closed: multiset<nat>

    constructor (parse: DurationParser)
      ensures this.parse == parse && Abs() == START
    {
      this.parse := parse;
      configs, schedules, made, closed := map[], map[], 0, multiset{};
    }

    ghost function Abs(): State
      reads this
    {
      State.State(configs, schedules, made, closed)
    }

    /** close(stop): the caller must know the channel is open. */
    method Close(ch: nat)
      requires ch < made && closed[ch] == 0
      modifies this`closed
      ensures closed == old(closed) + multiset{ch}
    {
      closed := closed + multiset{ch};
    }

    method StopExisting(inst: string)
      requires Inv(parse, Abs())
      modifies this
      ensures Abs() == StopOne(old(Abs()), inst)
    {
      if inst in schedules {
        Close(schedules[inst]);
        schedules := schedules - {inst};
      }
    }

    method Configure(inst: string, config: Option<Config>, persisted: bool) returns (ok: bool)
      requires Inv(parse, Abs())
      modifies this
      ensures Inv(parse, Abs())
      ensures Abs() == Configured(parse, old(Abs()), inst, config, persisted)
      ensures ok <==> !Refused(parse, inst, config) && persisted
    {
      if config.None? || !ValidInstanceName(inst) {
        return false;
      }
      var c := config.value;
      if c.enabled && c.schedule != "" && ParseSchedule(parse, c.schedule) == 0 {
        return false;
      }
      if !c.compressionOk {
        return false;
      }
      ConfigureKeepsInv(parse, Abs(), inst, config, persisted);
      StopExisting(inst);
      configs := configs[inst := c];
      if !persisted {
        return false;
      }
      if c.enabled && c.schedule != "" {
        schedules := schedules[inst := made];
        made := made + 1;
      }
      return true;
    }

    method RemoveConfig(inst: string)
      requires Inv(parse, Abs())
      modifies this
      ensures Inv(parse, Abs())
      ensures Abs() == Unconfigured(old(Abs()), inst)
    {
      StopOneKeepsInv(parse, Abs(), inst);
      StopExisting(inst);
      configs := configs - {inst};
    }

    method Stop()
      requires Inv(parse, Abs())
      modifies this
      ensures Inv(parse, Abs())
      ensures Abs() == StopAll(old(Abs()))
    {
      ghost var start := Abs();
      while schedules != map[]
        invariant Inv(parse, Abs())
        invariant configs == start.configs && made == start.made
        decreases schedules.Keys
      {
        var inst :| inst in schedules.Keys;
        StopOneKeepsInv(parse, Abs(), inst);
        ghost var next := StopOne(Abs(), inst);
        Close(schedules[inst]);
        schedules := schedules - {inst};
        assert Abs() == next;
      }
      StopAllKeepsInv(parse, start);
      ClosedWhenEmpty(parse, Abs(), StopAll(start));
    }
  }
}
