/**
 * The round engine of the current app, `GameService`: a countdown to the
 * next round, a round of events drawn from a weighted pool of blueprints when
 * it runs out, and timed blueprints that interrupt the countdown when the
 * session clock reaches their second.
 *
 * The repeating one-second timer is a flag, `timerActive`, and an explicit
 * `Tick` for each firing. The two random draws (`Int.random`, `shuffled()`)
 * are nondeterministic choices within the bounds the library promises.
 */
module GameServices {
  import opened Strings
  import opened EventFrequencies
  import opened Blueprints
  import opened Events
  import opened Configurations
  import opened GameStates

  // ---------------------------------------------------------------------
  // The round pool

  /**
   * How many copies of `b` one listing of it puts into the round pool: its
   * frequency's weight for a single or repeatable blueprint not yet used,
   * none for a used one or a timed one.
   */
  function Weight(b: EventBlueprint, used: set<EventBlueprint>): nat
  {
    if b in used then 0
    else match b.kind
      case Single(f) => RawValue(f)
      case Repeatable(f) => RawValue(f)
      case Timed(_, _) => 0
  }

  function Copies<T>(b: T, n: nat): (r: seq<T>)
    ensures |r| == n && forall x :: x in r ==> x == b
  {
    if n == 0 then [] else Copies(b, n - 1) + [b]
  }

  /** `roundEventBlueprints`: the blueprints in order, each repeated `Weight` times. */
  function RoundPool(blueprints: seq<EventBlueprint>, used: set<EventBlueprint>): seq<EventBlueprint>
  {
    if blueprints == [] then []
    else
      var last := blueprints[|blueprints| - 1];
      RoundPool(blueprints[..|blueprints| - 1], used) + Copies(last, Weight(last, used))
  }

  lemma {:induction false} CopiesCount<T>(b: T, n: nat, x: T)
    ensures multiset(Copies(b, n))[x] == if x == b then n else 0
  {
    if n > 0 {
      CopiesCount(b, n - 1, x);
    }
  }

  /**
   * The pool holds each blueprint exactly `Weight` times per listing: a
   * single or repeatable blueprint not yet used as often as its frequency's
   * raw value, a used or timed blueprint never.
   */
  lemma {:induction false} RoundPoolCount(blueprints: seq<EventBlueprint>, used: set<EventBlueprint>, x: EventBlueprint)
    ensures multiset(RoundPool(blueprints, used))[x] == multiset(blueprints)[x] * Weight(x, used)
  {
    if blueprints != [] {
      var n := |blueprints| - 1;
      RoundPoolCount(blueprints[..n], used, x);
      RoundPoolStep(blueprints, used, x);
      AddListing(multiset(RoundPool(blueprints, used))[x], multiset(RoundPool(blueprints[..n], used))[x],
        multiset(blueprints)[x], multiset(blueprints[..n])[x], Weight(x, used));
    }
  }

  /** Listing one more blueprint adds its copies to the pool and one to its count. */
  lemma RoundPoolStep(blueprints: seq<EventBlueprint>, used: set<EventBlueprint>, x: EventBlueprint)
    requires blueprints != []
    ensures var n := |blueprints| - 1;
      && multiset(RoundPool(blueprints, used))[x]
         == multiset(RoundPool(blueprints[..n], used))[x] + (if blueprints[n] == x then Weight(x, used) else 0)
      && multiset(blueprints)[x] == multiset(blueprints[..n])[x] + (if blueprints[n] == x then 1 else 0)
  {
    var n := |blueprints| - 1;
    var last := blueprints[n];
    assert multiset(RoundPool(blueprints, used))
      == multiset(RoundPool(blueprints[..n], used)) + multiset(Copies(last, Weight(last, used)));
    CopiesCount(last, Weight(last, used), x);
    SnocCount(blueprints, x);
  }

  /** The last element of a sequence is counted once more than in the sequence without it. */
  lemma SnocCount<T>(s: seq<T>, x: T)
    requires s != []
    ensures multiset(s)[x] == multiset(s[..|s| - 1])[x] + (if s[|s| - 1] == x then 1 else 0)
  {
    assert s == s[..|s| - 1] + [s[|s| - 1]];
  }

  /** One more listing adds one weight's worth of copies. */
  lemma AddListing(p: int, p0: int, c: int, c0: int, w: int)
    requires p0 == c0 * w
    requires (p == p0 + w && c == c0 + 1) || (p == p0 && c == c0)
    ensures p == c * w
  {
    if c == c0 + 1 && p == p0 + w {
      assert (c0 + 1) * w == c0 * w + w;
    }
  }

  /** A blueprint is in the pool exactly when it is listed and has a positive weight. */
  lemma RoundPoolMembers(blueprints: seq<EventBlueprint>, used: set<EventBlueprint>, x: EventBlueprint)
    ensures x in RoundPool(blueprints, used) <==> x in blueprints && Weight(x, used) > 0
  {
    RoundPoolCount(blueprints, used, x);
    assert x in RoundPool(blueprints, used) <==> x in multiset(RoundPool(blueprints, used));
    assert x in blueprints <==> x in multiset(blueprints);
  }

  // ---------------------------------------------------------------------
  // Timed blueprints

  /** The second at which `b` fires, if it is an enabled timed blueprint. */
  function Trigger(b: EventBlueprint): Option<int>
  {
    match b.kind
    case Timed(time, isEnabled) => if isEnabled then Some(time) else None
    case _ => None
  }

  /** `Dictionary(uniqueKeysWithValues:)` traps on a repeated key. */
  predicate DistinctTriggers(blueprints: seq<EventBlueprint>)
  {
    forall i, j :: 0 <= i < j < |blueprints| && Trigger(blueprints[i]).Some? ==> Trigger(blueprints[j]) != Trigger(blueprints[i])
  }

  /** `timedEventBlueprints`: trigger second to blueprint, for the enabled timed blueprints. */
  function TimedTable(blueprints: seq<EventBlueprint>): (table: map<int, EventBlueprint>)
    requires DistinctTriggers(blueprints)
    ensures forall t :: t in table ==> table[t] in blueprints && Trigger(table[t]) == Some(t)
    ensures forall b :: b in blueprints && Trigger(b).Some? ==> Trigger(b).value in table && table[Trigger(b).value] == b
  {
    if blueprints == [] then map[]
    else
      var rest := blueprints[1..];
      TriggersTail(blueprints);
      var table := TimedTable(rest);
      var b := blueprints[0];
      match Trigger(b)
      case None => table
      case Some(t) =>
        assert t !in table;
        table[t := b]
  }

  /** The rest of the list has distinct seconds too, none of them the first blueprint's. */
  lemma TriggersTail(blueprints: seq<EventBlueprint>)
    requires blueprints != [] && DistinctTriggers(blueprints)
    ensures DistinctTriggers(blueprints[1..])
    ensures forall x :: x in blueprints <==> x == blueprints[0] || x in blueprints[1..]
    ensures Trigger(blueprints[0]).Some? ==> forall x :: x in blueprints[1..] && Trigger(x).Some? ==> Trigger(x) != Trigger(blueprints[0])
  {
    var rest := blueprints[1..];
    forall i, j | 0 <= i < j < |rest| && Trigger(rest[i]).Some? ensures Trigger(rest[j]) != Trigger(rest[i]) {
      assert rest[i] == blueprints[i + 1] && rest[j] == blueprints[j + 1];
    }
    assert blueprints == [blueprints[0]] + rest;
    forall x | x in rest && Trigger(x).Some? && Trigger(blueprints[0]).Some? ensures Trigger(x) != Trigger(blueprints[0]) {
      var k :| 0 <= k < |rest| && rest[k] == x;
      assert blueprints[k + 1] == x;
    }
  }

  // ---------------------------------------------------------------------
  // When a round can be drawn

  /** The single blueprints that can still be drawn. */
  function FreshSingles(blueprints: seq<EventBlueprint>, used: set<EventBlueprint>): set<EventBlueprint>
  {
    set b | b in blueprints && b.kind.Single? && Weight(b, used) > 0
  }

  /** A repeatable blueprint with a positive weight keeps the pool non-empty forever. */
  predicate HasLiveRepeatable(blueprints: seq<EventBlueprint>, used: set<EventBlueprint>)
  {
    exists b :: b in blueprints && b.kind.Repeatable? && Weight(b, used) > 0
  }

  /**
   * No draw of a round of `count` events finds the pool empty, whatever is
   * drawn: some repeatable blueprint has a positive weight, or there are at
   * least `count` fresh single blueprints (each draw uses up one at most).
   */
  predicate CanDraw(blueprints: seq<EventBlueprint>, used: set<EventBlueprint>, count: int)
  {
    HasLiveRepeatable(blueprints, used) || |FreshSingles(blueprints, used)| >= count
  }

  /** The set after one draw of `b`: singles are remembered. */
  function AfterDraw(used: set<EventBlueprint>, b: EventBlueprint): set<EventBlueprint>
  {
    if b.kind.Single? then used + {b} else used
  }

  lemma PoolNonEmpty(blueprints: seq<EventBlueprint>, used: set<EventBlueprint>, count: int)
    requires CanDraw(blueprints, used, count) && count >= 1
    ensures |RoundPool(blueprints, used)| > 0
  {
    var b: EventBlueprint;
    if HasLiveRepeatable(blueprints, used) {
      b :| b in blueprints && b.kind.Repeatable? && Weight(b, used) > 0;
    } else {
      b :| b in FreshSingles(blueprints, used);
    }
    RoundPoolMembers(blueprints, used, b);
  }

  /** A draw from the pool leaves enough for the remaining draws. */
  lemma DrawKeepsCanDraw(blueprints: seq<EventBlueprint>, used: set<EventBlueprint>, count: int, b: EventBlueprint)
    requires CanDraw(blueprints, used, count) && b in RoundPool(blueprints, used)
    ensures CanDraw(blueprints, AfterDraw(used, b), count - 1)
  {
    var used' := AfterDraw(used, b);
    if HasLiveRepeatable(blueprints, used) {
      var r :| r in blueprints && r.kind.Repeatable? && Weight(r, used) > 0;
      assert Weight(r, used') > 0;
    } else if b.kind.Single? {
      RoundPoolMembers(blueprints, used, b);
      assert FreshSingles(blueprints, used') == FreshSingles(blueprints, used) - {b};
    } else {
      assert FreshSingles(blueprints, used') == FreshSingles(blueprints, used);
    }
  }

  /** `used` after drawing `drawn` in order. */
  function UsedAfter(used: set<EventBlueprint>, drawn: seq<EventBlueprint>): set<EventBlueprint>
    decreases |drawn|
  {
    if drawn == [] then used else UsedAfter(AfterDraw(used, drawn[0]), drawn[1..])
  }

  /** Each blueprint in `drawn` was in the pool at the moment it was drawn. */
  predicate ValidDraws(blueprints: seq<EventBlueprint>, used: set<EventBlueprint>, drawn: seq<EventBlueprint>)
    decreases |drawn|
  {
    drawn != [] ==>
      && drawn[0] in RoundPool(blueprints, used)
      && ValidDraws(blueprints, AfterDraw(used, drawn[0]), drawn[1..])
  }

  lemma {:induction false} ValidDrawsAppend(blueprints: seq<EventBlueprint>, used: set<EventBlueprint>, drawn: seq<EventBlueprint>, b: EventBlueprint)
    requires ValidDraws(blueprints, used, drawn)
    requires b in RoundPool(blueprints, UsedAfter(used, drawn))
    ensures ValidDraws(blueprints, used, drawn + [b])
    ensures UsedAfter(used, drawn + [b]) == AfterDraw(UsedAfter(used, drawn), b)
    decreases |drawn|
  {
    if drawn == [] {
      assert [b][1..] == [];
    } else {
      assert (drawn + [b])[1..] == drawn[1..] + [b];
      ValidDrawsAppend(blueprints, AfterDraw(used, drawn[0]), drawn[1..], b);
    }
  }

  /** `used` only grows, and the drawn singles are in it. */
  lemma {:induction false} UsedAfterGrows(used: set<EventBlueprint>, drawn: seq<EventBlueprint>)
    ensures used <= UsedAfter(used, drawn)
    ensures forall b :: b in drawn && b.kind.Single? ==> b in UsedAfter(used, drawn)
    decreases |drawn|
  {
    if drawn != [] {
      UsedAfterGrows(AfterDraw(used, drawn[0]), drawn[1..]);
    }
  }

  /**
   * What the draws guarantee: nothing drawn was used before, nothing drawn is
   * timed or has frequency off, and a single blueprint is drawn at most once.
   */
  lemma {:induction false} DrawsRespectUse(blueprints: seq<EventBlueprint>, used: set<EventBlueprint>, drawn: seq<EventBlueprint>)
    requires ValidDraws(blueprints, used, drawn)
    ensures forall k :: 0 <= k < |drawn| ==> drawn[k] in blueprints && drawn[k] !in used && !drawn[k].kind.Timed? && drawn[k].kind.frequency != Off
    ensures forall i, j :: 0 <= i < j < |drawn| && drawn[i].kind.Single? ==> drawn[j] != drawn[i]
    decreases |drawn|
  {
    if drawn != [] {
      var b := drawn[0];
      var used' := AfterDraw(used, b);
      RoundPoolMembers(blueprints, used, b);
      DrawsRespectUse(blueprints, used', drawn[1..]);
      forall k | 0 <= k < |drawn| ensures drawn[k] in blueprints && drawn[k] !in used && !drawn[k].kind.Timed? && drawn[k].kind.frequency != Off {
        if k > 0 {
          assert drawn[k] == drawn[1..][k - 1];
        }
      }
      forall i, j | 0 <= i < j < |drawn| && drawn[i].kind.Single? ensures drawn[j] != drawn[i] {
        assert drawn[j] == drawn[1..][j - 1];
        if i > 0 {
          assert drawn[i] == drawn[1..][i - 1];
        }
      }
    }
  }

  /**
   * Across two rounds of the same session (the second drawing from the used
   * set the first one left), a single blueprint drawn in the first round is
   * never drawn in the second.
   */
  lemma SinglesNotRedrawn(blueprints: seq<EventBlueprint>, used: set<EventBlueprint>,
                          first: seq<EventBlueprint>, second: seq<EventBlueprint>)
    requires ValidDraws(blueprints, used, first)
    requires ValidDraws(blueprints, UsedAfter(used, first), second)
    ensures forall i, j :: 0 <= i < |first| && 0 <= j < |second| && first[i].kind.Single? ==> second[j] != first[i]
  {
    UsedAfterGrows(used, first);
    DrawsRespectUse(blueprints, UsedAfter(used, first), second);
  }

  /** Each event is an instance of the blueprint beside it. */
  ghost predicate InstancesOf(events: seq<Event<EventType>>, drawn: seq<EventBlueprint>, players: seq<string>)
  {
    |events| == |drawn| && forall k :: 0 <= k < |drawn| ==> IsInstance(events[k], drawn[k], players)
  }

  lemma InstancesOfStep(events: seq<Event<EventType>>, drawn: seq<EventBlueprint>, players: seq<string>,
                        e: Event<EventType>, b: EventBlueprint)
    requires InstancesOf(events, drawn, players) && IsInstance(e, b, players)
    ensures InstancesOf(events + [e], drawn + [b], players)
  {
  }

  // ---------------------------------------------------------------------
  // The service

  /** Seconds in strictly increasing order, none after `now`. */
  ghost predicate FiredBy(firings: seq<int>, now: int)
  {
    && (forall i, j :: 0 <= i < j < |firings| ==> firings[i] < firings[j])
    && (forall i :: 0 <= i < |firings| ==> firings[i] <= now)
  }

  /** A second later, the firings so far, and the firing at that second, are still in order. */
  lemma FiredByLater(firings: seq<int>, now: int)
    requires FiredBy(firings, now)
    ensures FiredBy(firings, now + 1) && FiredBy(firings + [now + 1], now + 1)
  {
  }

  class GameService {
    var gameTime: int
    var roundRemainingTime: int
    var state: GameState<EventType>
    var timerActive: bool
    var usedSingleBlueprints: set<EventBlueprint>
    /** The session seconds at which a timed blueprint fired, oldest first. */
    ghost var timedFirings: seq<int>
    const configurationService: ConfigurationService<Configuration>

    /** The session clock only counts up, and each second fires at most one timed blueprint. */
    ghost predicate Valid()
      reads this`gameTime, this`timedFirings
    {
      && gameTime >= 0
      && FiredBy(timedFirings, gameTime)
    }

    function Config(): Configuration
      reads configurationService
    {
      configurationService.configuration
    }

    /** What drawing a round needs: at least one event, a pool that lasts the round, valid ranges. */
    ghost predicate RoundReady()
      reads this`usedSingleBlueprints, configurationService
    {
      && Config().eventsPerRound >= 1
      && CanDraw(Config().blueprints, usedSingleBlueprints, Config().eventsPerRound)
      && (forall b :: b in Config().blueprints ==> HasValidRange(b))
    }

    /** What firing a timed blueprint needs: one blueprint per second, valid ranges. */
    ghost predicate TimedReady()
      reads configurationService
    {
      && DistinctTriggers(Config().blueprints)
      && (forall b :: b in Config().blueprints ==> HasValidRange(b))
    }

    constructor(service: ConfigurationService<Configuration>)
      ensures Valid() && configurationService == service
      ensures gameTime == 0 && roundRemainingTime == 0 && state == Idle
      ensures !timerActive && usedSingleBlueprints == {} && timedFirings == []
    {
      configurationService := service;
      gameTime := 0;
      roundRemainingTime := 0;
      state := Idle;
      timerActive := false;
      usedSingleBlueprints := {};
      timedFirings := [];
    }

    /** `roundEventBlueprints`, the loop over the configured blueprints. */
    method RoundEventBlueprints() returns (pool: seq<EventBlueprint>)
      ensures pool == RoundPool(Config().blueprints, usedSingleBlueprints)
    {
      var blueprints := configurationService.configuration.blueprints;
      pool := [];
      var i := 0;
      while i < |blueprints|
        invariant 0 <= i <= |blueprints|
        invariant pool == RoundPool(blueprints[..i], usedSingleBlueprints)
      {
        var b := blueprints[i];
        assert blueprints[..i + 1][..i] == blueprints[..i];
        if b !in usedSingleBlueprints {
          match b.kind
          case Single(f) => pool := pool + Copies(b, RawValue(f));
          case Repeatable(f) => pool := pool + Copies(b, RawValue(f));
          case Timed(_, _) =>
        }
        i := i + 1;
      }
      assert blueprints[..i] == blueprints;
    }

    /** `stop`: invalidate the timer, clear the countdown, go idle. */
    method Stop()
      modifies this`timerActive, this`roundRemainingTime, this`state
      ensures roundRemainingTime == 0 && state == Idle && !timerActive
      ensures gameTime == old(gameTime) && usedSingleBlueprints == old(usedSingleBlueprints)
      ensures timedFirings == old(timedFirings)
    {
      timerActive := false;
      roundRemainingTime := 0;
      state := Idle;
    }

    /** `reset`: back to idle after the events were shown; nothing else changes. */
    method Reset()
      modifies this`state
      ensures state == Idle
      ensures gameTime == old(gameTime) && roundRemainingTime == old(roundRemainingTime)
      ensures timerActive == old(timerActive) && usedSingleBlueprints == old(usedSingleBlueprints)
      ensures timedFirings == old(timedFirings)
    {
      state := Idle;
    }

    /** `start`: stop, draw the round length from the configured range, count down. */
    method Start()
      requires Valid()
      requires Config().minRoundTime <= Config().maxRoundTime
      modifies this
      ensures Valid()
      ensures Config().minRoundTime <= roundRemainingTime <= Config().maxRoundTime
      ensures state == Countdown(roundRemainingTime) && timerActive
      ensures gameTime == old(gameTime) && usedSingleBlueprints == old(usedSingleBlueprints)
      ensures timedFirings == old(timedFirings)
    {
      Stop();
      var config := configurationService.configuration;
      var r :| config.minRoundTime <= r <= config.maxRoundTime;
      roundRemainingTime := r;
      state := Countdown(r);
      timerActive := true;
    }

    /** `generateEvent(from:)`. */
    method GenerateEvent(b: EventBlueprint) returns (e: Event<EventType>)
      requires HasValidRange(b)
      ensures IsInstance(e, b, Config().players)
    {
      var config := configurationService.configuration;
      e := MakeEvent(b, config.players);
    }

    /**
     * `generateRoundEvents`: `eventsPerRound` draws, each from the pool as it
     * stands after the previous draws; a drawn single blueprint is
     * remembered in `usedSingleBlueprints`. `drawn` names the blueprint
     * behind each event.
     */
    method GenerateRoundEvents() returns (events: seq<Event<EventType>>, ghost drawn: seq<EventBlueprint>)
      requires Config().eventsPerRound >= 1
      requires CanDraw(Config().blueprints, usedSingleBlueprints, Config().eventsPerRound)
      requires forall b :: b in Config().blueprints ==> HasValidRange(b)
      modifies this`usedSingleBlueprints
      ensures |events| == |drawn| == Config().eventsPerRound
      ensures ValidDraws(Config().blueprints, old(usedSingleBlueprints), drawn)
      ensures usedSingleBlueprints == UsedAfter(old(usedSingleBlueprints), drawn)
      ensures forall k :: 0 <= k < |events| ==> IsInstance(events[k], drawn[k], Config().players)
    {
      var config := configurationService.configuration;
      ghost var used0 := usedSingleBlueprints;
      events := [];
      drawn := [];
      var n := 0;
      while n < config.eventsPerRound
        invariant 0 <= n <= config.eventsPerRound
        invariant |drawn| == n
        invariant ValidDraws(config.blueprints, used0, drawn)
        invariant usedSingleBlueprints == UsedAfter(used0, drawn)
        invariant CanDraw(config.blueprints, usedSingleBlueprints, config.eventsPerRound - n)
        invariant InstancesOf(events, drawn, config.players)
      {
        var pool := RoundEventBlueprints();
        PoolNonEmpty(config.blueprints, usedSingleBlueprints, config.eventsPerRound - n);
        var index :| 0 <= index < |pool|;
        var b := pool[index];
        RoundPoolMembers(config.blueprints, usedSingleBlueprints, b);
        var e := GenerateEvent(b);
        DrawKeepsCanDraw(config.blueprints, usedSingleBlueprints, config.eventsPerRound - n, b);
        ValidDrawsAppend(config.blueprints, used0, drawn, b);
        InstancesOfStep(events, drawn, config.players, e, b);
        if b.kind.Single? {
          usedSingleBlueprints := usedSingleBlueprints + {b};
        }
        events := events + [e];
        drawn := drawn + [b];
        n := n + 1;
      }
    }

    /**
     * `handleTimerIncrement`: one second passes. The end of the countdown
     * wins over a timed blueprint due at the same second.
     */
    method Tick() returns (ghost drawn: seq<EventBlueprint>)
      requires Valid() && timerActive
      requires roundRemainingTime == 1 ==> RoundReady()
      requires roundRemainingTime != 1 ==> TimedReady()
      modifies this`gameTime, this`roundRemainingTime, this`state, this`timerActive, this`usedSingleBlueprints, this`timedFirings
      ensures Valid()
      ensures gameTime == old(gameTime) + 1
      ensures old(roundRemainingTime) == 1 ==>
        && roundRemainingTime == 0 && !timerActive
        && state.Events? && |state.events| == |drawn| == Config().eventsPerRound
        && ValidDraws(Config().blueprints, old(usedSingleBlueprints), drawn)
        && usedSingleBlueprints == UsedAfter(old(usedSingleBlueprints), drawn)
        && (forall k :: 0 <= k < |drawn| ==> IsInstance(state.events[k], drawn[k], Config().players))
        && timedFirings == old(timedFirings)
      ensures old(roundRemainingTime) != 1 && gameTime in TimedTable(Config().blueprints) ==>
        && roundRemainingTime == 0 && !timerActive
        && state.Events? && |state.events| == 1
        && IsInstance(state.events[0], TimedTable(Config().blueprints)[gameTime], Config().players)
        && usedSingleBlueprints == old(usedSingleBlueprints)
        && timedFirings == old(timedFirings) + [gameTime]
      ensures old(roundRemainingTime) != 1 && gameTime !in TimedTable(Config().blueprints) ==>
        && roundRemainingTime == old(roundRemainingTime) - 1 && timerActive
        && state == Countdown(roundRemainingTime)
        && usedSingleBlueprints == old(usedSingleBlueprints)
        && timedFirings == old(timedFirings)
    {
      FiredByLater(timedFirings, gameTime);
      gameTime := gameTime + 1;
      roundRemainingTime := roundRemainingTime - 1;
      state := Countdown(roundRemainingTime);
      drawn := [];
      if roundRemainingTime == 0 {
        drawn := EndRound();
      } else {
        var table := TimedTable(configurationService.configuration.blueprints);
        if gameTime in table {
          FireTimed(table[gameTime]);
        }
      }
    }

    /** The countdown reached zero: stop and show a round of drawn events. */
    method EndRound() returns (ghost drawn: seq<EventBlueprint>)
      requires RoundReady()
      modifies this`timerActive, this`roundRemainingTime, this`state, this`usedSingleBlueprints
      ensures roundRemainingTime == 0 && !timerActive
      ensures state.Events? && |state.events| == |drawn| == Config().eventsPerRound
      ensures ValidDraws(Config().blueprints, old(usedSingleBlueprints), drawn)
      ensures usedSingleBlueprints == UsedAfter(old(usedSingleBlueprints), drawn)
      ensures forall k :: 0 <= k < |drawn| ==> IsInstance(state.events[k], drawn[k], Config().players)
    {
      Stop();
      var events;
      events, drawn := GenerateRoundEvents();
      state := Events(events);
    }

    /** A timed blueprint is due: stop, show its event, and note the second. */
    method FireTimed(b: EventBlueprint)
      requires HasValidRange(b)
      modifies this`timerActive, this`roundRemainingTime, this`state, this`timedFirings
      ensures roundRemainingTime == 0 && !timerActive
      ensures state.Events? && |state.events| == 1 && IsInstance(state.events[0], b, Config().players)
      ensures timedFirings == old(timedFirings) + [gameTime]
    {
      Stop();
      var e := GenerateEvent(b);
      state := Events([e]);
      timedFirings := timedFirings + [gameTime];
    }
  }

  /** Since the clock never goes back, a timed blueprint fires at most once per second of the session. */
  lemma FiringsAreDistinct(s: GameService)
    requires s.Valid()
    ensures forall i, j :: 0 <= i < j < |s.timedFirings| ==> s.timedFirings[i] != s.timedFirings[j]
  {
  }
}
