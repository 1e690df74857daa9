/**
 * The two engines of the intermediate version: `GameService` and `Game`.
 * Both build the round pool once, when they are created, and draw from it
 * in place: a drawn single blueprint is removed from the pool, a repeatable
 * one stays. A timed blueprint has no enable flag in this version.
 */
module LegacyEngines {
  import opened Strings
  import opened EventFrequencies
  import Blueprints
  import opened Events
  import opened GameStates
  import Configurations
  import GameServices

  /** `EventType` of this version. */
  datatype EventType =
    | Single
    | Repeatable(frequency: EventFrequency)
    | Timed(time: int)

  type LegacyBlueprint = Blueprints.Blueprint<EventType>

  /** `Configuration` of this version; the speaker voice is not part of this model. */
  datatype Configuration = Configuration(
    eventsPerRound: int,
    maxRoundTime: int,
    minRoundTime: int,
    players: seq<string>,
    showCountdown: bool)

  predicate AllValidRanges(bs: seq<LegacyBlueprint>)
  {
    forall b :: b in bs ==> Blueprints.HasValidRange(b)
  }

  // ---------------------------------------------------------------------
  // The pool built at creation

  /** Copies of `b` in the initial pool: one for a single, the weight for a repeatable, none for a timed one. */
  function InitialWeight(b: LegacyBlueprint): nat
  {
    match b.kind
    case Single => 1
    case Repeatable(f) => RawValue(f)
    case Timed(_) => 0
  }

  function InitialPool(bs: seq<LegacyBlueprint>): seq<LegacyBlueprint>
  {
    if bs == [] then []
    else
      var last := bs[|bs| - 1];
      InitialPool(bs[..|bs| - 1]) + GameServices.Copies(last, InitialWeight(last))
  }

  /** The initializer's loop over the blueprints. */
  method BuildPool(bs: seq<LegacyBlueprint>) returns (pool: seq<LegacyBlueprint>)
    ensures pool == InitialPool(bs)
  {
    pool := [];
    var i := 0;
    while i < |bs|
      invariant 0 <= i <= |bs|
      invariant pool == InitialPool(bs[..i])
    {
      var b := bs[i];
      assert bs[..i + 1][..i] == bs[..i];
      match b.kind {
        case Single => pool := pool + [b];
        case Repeatable(f) => pool := pool + GameServices.Copies(b, RawValue(f));
        case Timed(_) =>
      }
      i := i + 1;
    }
    assert bs[..i] == bs;
  }

  /** Each listing of a single blueprint gives one pool entry, of a repeatable one its weight, of a timed one none. */
  lemma {:induction false} InitialPoolCount(bs: seq<LegacyBlueprint>, x: LegacyBlueprint)
    ensures multiset(InitialPool(bs))[x] == multiset(bs)[x] * InitialWeight(x)
  {
    if bs != [] {
      var n := |bs| - 1;
      InitialPoolCount(bs[..n], x);
      InitialPoolStep(bs, x);
      GameServices.AddListing(multiset(InitialPool(bs))[x], multiset(InitialPool(bs[..n]))[x],
        multiset(bs)[x], multiset(bs[..n])[x], InitialWeight(x));
    }
  }

  /** Listing one more blueprint adds its entries to the pool and one to its count. */
  lemma InitialPoolStep(bs: seq<LegacyBlueprint>, x: LegacyBlueprint)
    requires bs != []
    ensures var n := |bs| - 1;
      && multiset(InitialPool(bs))[x] == multiset(InitialPool(bs[..n]))[x] + (if bs[n] == x then InitialWeight(x) else 0)
      && multiset(bs)[x] == multiset(bs[..n])[x] + (if bs[n] == x then 1 else 0)
  {
    var n := |bs| - 1;
    var last := bs[n];
    assert multiset(InitialPool(bs))
      == multiset(InitialPool(bs[..n])) + multiset(GameServices.Copies(last, InitialWeight(last)));
    GameServices.CopiesCount(last, InitialWeight(last), x);
    GameServices.SnocCount(bs, x);
  }

  /** No single blueprint occurs twice. */
  ghost predicate SinglesOnce(pool: seq<LegacyBlueprint>)
  {
    forall x: LegacyBlueprint :: x.kind.Single? ==> multiset(pool)[x] <= 1
  }

  lemma InitialPoolSinglesOnce(bs: seq<LegacyBlueprint>)
    requires SinglesOnce(bs)
    ensures SinglesOnce(InitialPool(bs))
  {
    forall x: LegacyBlueprint | x.kind.Single? ensures multiset(InitialPool(bs))[x] <= 1 {
      InitialPoolCount(bs, x);
    }
  }

  lemma InitialPoolRanges(bs: seq<LegacyBlueprint>)
    requires AllValidRanges(bs)
    ensures AllValidRanges(InitialPool(bs))
  {
    forall b | b in InitialPool(bs) ensures Blueprints.HasValidRange(b) {
      InitialPoolCount(bs, b);
      assert b in multiset(InitialPool(bs));
      assert b in multiset(bs);
    }
  }

  // ---------------------------------------------------------------------
  // The timed table built at creation

  function Trigger(b: LegacyBlueprint): Option<int>
  {
    if b.kind.Timed? then Some(b.kind.time) else None
  }

  /** `Dictionary(uniqueKeysWithValues:)` traps on a repeated key. */
  predicate DistinctTriggers(bs: seq<LegacyBlueprint>)
  {
    forall i, j :: 0 <= i < j < |bs| && Trigger(bs[i]).Some? ==> Trigger(bs[j]) != Trigger(bs[i])
  }

  /** `timedEvents`: every timed blueprint keyed by its second. */
  function TimedTable(bs: seq<LegacyBlueprint>): (table: map<int, LegacyBlueprint>)
    requires DistinctTriggers(bs)
    ensures forall t :: t in table ==> table[t] in bs && Trigger(table[t]) == Some(t)
    ensures forall b :: b in bs && Trigger(b).Some? ==> Trigger(b).value in table && table[Trigger(b).value] == b
  {
    if bs == [] then map[]
    else
      var rest := bs[1..];
      TriggersTail(bs);
      var table := TimedTable(rest);
      var b := bs[0];
      match Trigger(b)
      case None => table
      case Some(t) =>
        assert t !in table;
        table[t := b]
  }

  /** The rest of the list has distinct seconds too, none of them the first blueprint's. */
  lemma TriggersTail(bs: seq<LegacyBlueprint>)
    requires bs != [] && DistinctTriggers(bs)
    ensures DistinctTriggers(bs[1..])
    ensures forall x :: x in bs <==> x == bs[0] || x in bs[1..]
    ensures Trigger(bs[0]).Some? ==> forall x :: x in bs[1..] && Trigger(x).Some? ==> Trigger(x) != Trigger(bs[0])
  {
    var rest := bs[1..];
    forall i, j | 0 <= i < j < |rest| && Trigger(rest[i]).Some? ensures Trigger(rest[j]) != Trigger(rest[i]) {
      assert rest[i] == bs[i + 1] && rest[j] == bs[j + 1];
    }
    assert bs == [bs[0]] + rest;
    forall x | x in rest && Trigger(x).Some? && Trigger(bs[0]).Some? ensures Trigger(x) != Trigger(bs[0]) {
      var k :| 0 <= k < |rest| && rest[k] == x;
      assert bs[k + 1] == x;
    }
  }

  // ---------------------------------------------------------------------
  // Drawing in place

  /** No draw of `count` events finds the pool empty: an entry that is never removed, or enough entries. */
  predicate Feasible(pool: seq<LegacyBlueprint>, count: int)
  {
    (exists k :: 0 <= k < |pool| && !pool[k].kind.Single?) || |pool| >= count
  }

  /** The single blueprints of `drawn`, in order. */
  function SinglesOf(drawn: seq<LegacyBlueprint>): seq<LegacyBlueprint>
  {
    if drawn == [] then []
    else
      var last := drawn[|drawn| - 1];
      SinglesOf(drawn[..|drawn| - 1]) + (if last.kind.Single? then [last] else [])
  }

  lemma {:induction false} SinglesOfCount(drawn: seq<LegacyBlueprint>, x: LegacyBlueprint)
    ensures multiset(SinglesOf(drawn))[x] == if x.kind.Single? then multiset(drawn)[x] else 0
  {
    if drawn != [] {
      var n := |drawn| - 1;
      SinglesOfCount(drawn[..n], x);
      assert drawn == drawn[..n] + [drawn[n]];
    }
  }

  lemma RemoveAt<T>(s: seq<T>, i: nat)
    requires i < |s|
    ensures multiset(s[..i] + s[i + 1..]) + multiset{s[i]} == multiset(s)
  {
    assert s == s[..i] + [s[i]] + s[i + 1..];
  }

  lemma TwoIndices<T>(s: seq<T>, i: nat, j: nat)
    requires i < j < |s| && s[i] == s[j]
    ensures multiset(s)[s[i]] >= 2
  {
    assert s == s[..i] + [s[i]] + s[i + 1..j] + [s[j]] + s[j + 1..];
  }

  /** One draw: a random pool entry becomes an event; a single entry is removed from the pool. */
  method DrawFromPool(pool: seq<LegacyBlueprint>, players: seq<string>) returns (e: Event<EventType>, rest: seq<LegacyBlueprint>, ghost index: nat)
    requires |pool| > 0 && AllValidRanges(pool)
    ensures index < |pool| && IsInstance(e, pool[index], players)
    ensures rest == if pool[index].kind == Single then pool[..index] + pool[index + 1..] else pool
  {
    var i :| 0 <= i < |pool|;
    index := i;
    var b := pool[i];
    e := MakeEvent(b, players);
    rest := pool;
    if b.kind == Single {
      rest := rest[..i] + rest[i + 1..];
    }
  }

  /** What one draw does to the pool: exactly the drawn single leaves it, and the remaining draws stay feasible. */
  lemma DrawStep(pool: seq<LegacyBlueprint>, rest: seq<LegacyBlueprint>, drawn: seq<LegacyBlueprint>, i: nat, left: int)
    requires i < |rest| && Feasible(rest, left)
    requires multiset(pool) == multiset(rest) + multiset(SinglesOf(drawn))
    ensures var rest' := if rest[i].kind == Single then rest[..i] + rest[i + 1..] else rest;
      && multiset(pool) == multiset(rest') + multiset(SinglesOf(drawn + [rest[i]]))
      && Feasible(rest', left - 1)
      && (forall b :: b in rest' ==> b in rest)
  {
    var b := rest[i];
    SinglesOfAppend(drawn, b);
    if b.kind == Single {
      RemoveAt(rest, i);
      RemoveAtKeepsOthers(rest, i);
      FeasibleAfterRemoval(rest, i, left);
    }
  }

  /** Taking away a single-use blueprint leaves a pool that can serve one draw fewer. */
  lemma FeasibleAfterRemoval(rest: seq<LegacyBlueprint>, i: nat, left: int)
    requires i < |rest| && rest[i].kind.Single? && Feasible(rest, left)
    ensures Feasible(rest[..i] + rest[i + 1..], left - 1)
  {
    if exists k :: 0 <= k < |rest| && !rest[k].kind.Single? {
      var k :| 0 <= k < |rest| && !rest[k].kind.Single?;
      RemoveAtIndex(rest, i, k);
    }
  }

  lemma SinglesOfAppend(drawn: seq<LegacyBlueprint>, b: LegacyBlueprint)
    ensures SinglesOf(drawn + [b]) == SinglesOf(drawn) + (if b.kind.Single? then [b] else [])
  {
    assert (drawn + [b])[..|drawn|] == drawn;
  }

  /** Removing an entry keeps every other entry, and adds none. */
  lemma RemoveAtKeepsOthers<T>(s: seq<T>, i: nat)
    requires i < |s|
    ensures forall x :: x in s[..i] + s[i + 1..] ==> x in s
  {
    forall x | x in s[..i] + s[i + 1..] ensures x in s {
      assert x in s[..i] || x in s[i + 1..];
    }
  }

  /** Where an entry other than the removed one ends up. */
  lemma RemoveAtIndex<T>(s: seq<T>, i: nat, k: nat)
    requires i < |s| && k < |s| && k != i
    ensures k < i ==> (s[..i] + s[i + 1..])[k] == s[k]
    ensures k > i ==> (s[..i] + s[i + 1..])[k - 1] == s[k]
  {
  }

  /**
   * `generateRoundEvents` of both engines: `count` draws, each from the
   * pool left by the previous ones. What leaves the pool is exactly the
   * single blueprints drawn.
   */
  method GenerateFromPool(pool: seq<LegacyBlueprint>, count: int, players: seq<string>)
      returns (events: seq<Event<EventType>>, rest: seq<LegacyBlueprint>, ghost drawn: seq<LegacyBlueprint>)
    requires count >= 1 && Feasible(pool, count) && AllValidRanges(pool)
    ensures |events| == |drawn| == count
    ensures multiset(pool) == multiset(rest) + multiset(SinglesOf(drawn))
    ensures forall k :: 0 <= k < count ==> drawn[k] in pool && IsInstance(events[k], drawn[k], players)
    ensures forall b :: b in rest ==> b in pool
  {
    events := [];
    rest := pool;
    drawn := [];
    var n := 0;
    while n < count
      invariant 0 <= n <= count
      invariant |events| == |drawn| == n
      invariant multiset(pool) == multiset(rest) + multiset(SinglesOf(drawn))
      invariant forall b :: b in rest ==> b in pool
      invariant InstancesOf(events, drawn, pool, players)
      invariant Feasible(rest, count - n)
    {
      var e, rest', i := DrawFromPool(rest, players);
      DrawStep(pool, rest, drawn, i, count - n);
      assert rest[i] in pool;
      InstancesOfStep(events, drawn, pool, players, e, rest[i]);
      events := events + [e];
      drawn := drawn + [rest[i]];
      rest := rest';
      n := n + 1;
    }
  }

  /** Each event is an instance of the drawn blueprint beside it, a blueprint of the pool. */
  ghost predicate InstancesOf(events: seq<Event<EventType>>, drawn: seq<LegacyBlueprint>, pool: seq<LegacyBlueprint>, players: seq<string>)
  {
    |events| == |drawn| &&
    forall k :: 0 <= k < |drawn| ==> drawn[k] in pool && IsInstance(events[k], drawn[k], players)
  }

  lemma InstancesOfStep(events: seq<Event<EventType>>, drawn: seq<LegacyBlueprint>, pool: seq<LegacyBlueprint>, players: seq<string>,
                        e: Event<EventType>, b: LegacyBlueprint)
    requires InstancesOf(events, drawn, pool, players) && b in pool && IsInstance(e, b, players)
    ensures InstancesOf(events + [e], drawn + [b], pool, players)
  {
  }

  /**
   * When the pool listed each single blueprint at most once, it still does,
   * a drawn single is gone from it, and no single is drawn twice.
   */
  lemma DrawnSinglesGone(pool: seq<LegacyBlueprint>, rest: seq<LegacyBlueprint>, drawn: seq<LegacyBlueprint>)
    requires SinglesOnce(pool)
    requires multiset(pool) == multiset(rest) + multiset(SinglesOf(drawn))
    ensures SinglesOnce(rest)
    ensures forall k :: 0 <= k < |drawn| && drawn[k].kind.Single? ==> drawn[k] !in rest
    ensures forall i, j :: 0 <= i < j < |drawn| && drawn[i].kind.Single? ==> drawn[j] != drawn[i]
  {
    forall x: LegacyBlueprint | x.kind.Single? ensures multiset(rest)[x] <= 1 {
      assert multiset(pool)[x] == multiset(rest)[x] + multiset(SinglesOf(drawn))[x];
    }
    forall k | 0 <= k < |drawn| && drawn[k].kind.Single? ensures drawn[k] !in rest {
      var x := drawn[k];
      SinglesOfCount(drawn, x);
      assert x in multiset(drawn);
      assert multiset(pool)[x] == multiset(rest)[x] + multiset(SinglesOf(drawn))[x];
    }
    forall i, j | 0 <= i < j < |drawn| && drawn[i].kind.Single? ensures drawn[j] != drawn[i] {
      var x := drawn[i];
      SinglesOfCount(drawn, x);
      if drawn[j] == x {
        TwoIndices(drawn, i, j);
      }
      assert multiset(pool)[x] == multiset(rest)[x] + multiset(SinglesOf(drawn))[x];
    }
  }

  /**
   * Across two rounds of the same session (the second drawing from the pool
   * the first one left), a single blueprint drawn in the first round is
   * never drawn in the second.
   */
  lemma SinglesNotRedrawn(pool: seq<LegacyBlueprint>, rest: seq<LegacyBlueprint>,
                          first: seq<LegacyBlueprint>, second: seq<LegacyBlueprint>)
    requires SinglesOnce(pool)
    requires multiset(pool) == multiset(rest) + multiset(SinglesOf(first))
    requires forall j :: 0 <= j < |second| ==> second[j] in rest
    ensures forall i, j :: 0 <= i < |first| && 0 <= j < |second| && first[i].kind.Single? ==> second[j] != first[i]
  {
    DrawnSinglesGone(pool, rest, first);
  }

  // ---------------------------------------------------------------------
  // `GameService` of this version

  class GameService {
    var gameTime: int
    var roundEvents: seq<LegacyBlueprint>
    var roundRemainingTime: int
    var state: GameState<EventType>
    const timedEvents: map<int, LegacyBlueprint>
    var timerActive: bool
    const configurationService: Configurations.ConfigurationService<Configuration>

    ghost predicate Valid()
      reads this`gameTime, this`roundEvents
    {
      && gameTime >= 0
      && SinglesOnce(roundEvents)
      && AllValidRanges(roundEvents)
      && (forall t :: t in timedEvents ==> Blueprints.HasValidRange(timedEvents[t]))
    }

    function Config(): Configuration
      reads configurationService
    {
      configurationService.configuration
    }

    constructor(eventBlueprints: seq<LegacyBlueprint>, service: Configurations.ConfigurationService<Configuration>)
      requires DistinctTriggers(eventBlueprints) && SinglesOnce(eventBlueprints) && AllValidRanges(eventBlueprints)
      ensures Valid() && configurationService == service
      ensures roundEvents == InitialPool(eventBlueprints) && timedEvents == TimedTable(eventBlueprints)
      ensures gameTime == 0 && roundRemainingTime == 0 && state == Idle && !timerActive
    {
      configurationService := service;
      var pool := BuildPool(eventBlueprints);
      roundEvents := pool;
      timedEvents := TimedTable(eventBlueprints);
      gameTime := 0;
      roundRemainingTime := 0;
      state := Idle;
      timerActive := false;
      InitialPoolSinglesOnce(eventBlueprints);
      InitialPoolRanges(eventBlueprints);
    }

    method Stop()
      modifies this`timerActive, this`roundRemainingTime, this`state
      ensures roundRemainingTime == 0 && state == Idle && !timerActive
      ensures gameTime == old(gameTime) && roundEvents == old(roundEvents)
    {
      timerActive := false;
      roundRemainingTime := 0;
      state := Idle;
    }

    method Reset()
      modifies this`state
      ensures state == Idle
      ensures gameTime == old(gameTime) && roundRemainingTime == old(roundRemainingTime)
      ensures timerActive == old(timerActive) && roundEvents == old(roundEvents)
    {
      state := Idle;
    }

    method Start()
      requires Valid()
      requires Config().minRoundTime <= Config().maxRoundTime
      modifies this
      ensures Valid()
      ensures Config().minRoundTime <= roundRemainingTime <= Config().maxRoundTime
      ensures state == Countdown(roundRemainingTime) && timerActive
      ensures gameTime == old(gameTime) && roundEvents == old(roundEvents)
    {
      Stop();
      var config := configurationService.configuration;
      var r :| config.minRoundTime <= r <= config.maxRoundTime;
      roundRemainingTime := r;
      state := Countdown(r);
      timerActive := true;
    }

    method GenerateRoundEvents() returns (events: seq<Event<EventType>>, ghost drawn: seq<LegacyBlueprint>)
      requires Valid()
      requires Config().eventsPerRound >= 1 && Feasible(roundEvents, Config().eventsPerRound)
      modifies this`roundEvents
      ensures Valid()
      ensures |events| == |drawn| == Config().eventsPerRound
      ensures multiset(old(roundEvents)) == multiset(roundEvents) + multiset(SinglesOf(drawn))
      ensures forall k :: 0 <= k < |drawn| ==> drawn[k] in old(roundEvents) && IsInstance(events[k], drawn[k], Config().players)
      ensures forall k :: 0 <= k < |drawn| && drawn[k].kind.Single? ==> drawn[k] !in roundEvents
    {
      var config := configurationService.configuration;
      var rest;
      events, rest, drawn := GenerateFromPool(roundEvents, config.eventsPerRound, config.players);
      DrawnSinglesGone(roundEvents, rest, drawn);
      roundEvents := rest;
    }

    method Tick() returns (ghost drawn: seq<LegacyBlueprint>)
      requires Valid() && timerActive
      requires roundRemainingTime == 1 ==> Config().eventsPerRound >= 1 && Feasible(roundEvents, Config().eventsPerRound)
      modifies this`gameTime, this`roundRemainingTime, this`state, this`timerActive, this`roundEvents
      ensures Valid()
      ensures gameTime == old(gameTime) + 1
      ensures old(roundRemainingTime) == 1 ==>
        && roundRemainingTime == 0 && !timerActive
        && state.Events? && |state.events| == |drawn| == Config().eventsPerRound
        && multiset(old(roundEvents)) == multiset(roundEvents) + multiset(SinglesOf(drawn))
        && (forall k :: 0 <= k < |drawn| ==> drawn[k] in old(roundEvents) && IsInstance(state.events[k], drawn[k], Config().players))
        && (forall k :: 0 <= k < |drawn| && drawn[k].kind.Single? ==> drawn[k] !in roundEvents)
      ensures old(roundRemainingTime) != 1 && gameTime in timedEvents ==>
        && roundRemainingTime == 0 && !timerActive
        && state.Events? && |state.events| == 1
        && IsInstance(state.events[0], timedEvents[gameTime], Config().players)
        && roundEvents == old(roundEvents)
      ensures old(roundRemainingTime) != 1 && gameTime !in timedEvents ==>
        && roundRemainingTime == old(roundRemainingTime) - 1 && timerActive
        && state == Countdown(roundRemainingTime) && roundEvents == old(roundEvents)
    {
      gameTime := gameTime + 1;
      roundRemainingTime := roundRemainingTime - 1;
      state := Countdown(roundRemainingTime);
      drawn := [];
      if roundRemainingTime == 0 {
        drawn := EndRound();
      } else if gameTime in timedEvents {
        Stop();
        var config := configurationService.configuration;
        var e := MakeEvent(timedEvents[gameTime], config.players);
        state := Events([e]);
      }
    }

    /** The countdown reached zero: stop and show a round of drawn events. */
    method EndRound() returns (ghost drawn: seq<LegacyBlueprint>)
      requires Valid() && Config().eventsPerRound >= 1 && Feasible(roundEvents, Config().eventsPerRound)
      modifies this`timerActive, this`roundRemainingTime, this`state, this`roundEvents
      ensures Valid() && roundRemainingTime == 0 && !timerActive
      ensures state.Events? && |state.events| == |drawn| == Config().eventsPerRound
      ensures multiset(old(roundEvents)) == multiset(roundEvents) + multiset(SinglesOf(drawn))
      ensures forall k :: 0 <= k < |drawn| ==> drawn[k] in old(roundEvents) && IsInstance(state.events[k], drawn[k], Config().players)
      ensures forall k :: 0 <= k < |drawn| && drawn[k].kind.Single? ==> drawn[k] !in roundEvents
    {
      Stop();
      var events;
      events, drawn := GenerateRoundEvents();
      state := Events(events);
    }
  }

  // ---------------------------------------------------------------------
  // `Game`

  class Game {
    var activeEvents: seq<Event<EventType>>
    var configuration: Configuration
    var gameTime: int
    var roundEvents: seq<LegacyBlueprint>
    var roundRemainingTime: int
    const timedEvents: map<int, LegacyBlueprint>
    /** `countdownIsActive`: the timer is scheduled and valid. */
    var timerActive: bool

    ghost predicate Valid()
      reads this`gameTime, this`roundEvents
    {
      && gameTime >= 0
      && SinglesOnce(roundEvents)
      && AllValidRanges(roundEvents)
      && (forall t :: t in timedEvents ==> Blueprints.HasValidRange(timedEvents[t]))
    }

    constructor(eventBlueprints: seq<LegacyBlueprint>, configuration: Configuration)
      requires DistinctTriggers(eventBlueprints) && SinglesOnce(eventBlueprints) && AllValidRanges(eventBlueprints)
      ensures Valid() && this.configuration == configuration
      ensures roundEvents == InitialPool(eventBlueprints) && timedEvents == TimedTable(eventBlueprints)
      ensures activeEvents == [] && gameTime == 0 && roundRemainingTime == 0 && !timerActive
    {
      this.configuration := configuration;
      var pool := BuildPool(eventBlueprints);
      roundEvents := pool;
      timedEvents := TimedTable(eventBlueprints);
      activeEvents := [];
      gameTime := 0;
      roundRemainingTime := 0;
      timerActive := false;
      InitialPoolSinglesOnce(eventBlueprints);
      InitialPoolRanges(eventBlueprints);
    }

    /** `startCountdown`: nothing happens while a countdown runs. */
    method StartCountdown()
      requires !timerActive ==> configuration.minRoundTime <= configuration.maxRoundTime
      modifies this
      ensures old(timerActive) ==> roundRemainingTime == old(roundRemainingTime) && timerActive
      ensures !old(timerActive) ==>
        configuration.minRoundTime <= roundRemainingTime <= configuration.maxRoundTime && timerActive
      ensures activeEvents == old(activeEvents) && gameTime == old(gameTime) && roundEvents == old(roundEvents)
      ensures configuration == old(configuration)
    {
      if timerActive {
        return;
      }
      var r :| configuration.minRoundTime <= r <= configuration.maxRoundTime;
      roundRemainingTime := r;
      timerActive := true;
    }

    /** `stopCountdown`: the events already shown are left alone. */
    method StopCountdown()
      modifies this`timerActive, this`roundRemainingTime
      ensures roundRemainingTime == 0 && !timerActive
      ensures activeEvents == old(activeEvents) && gameTime == old(gameTime) && roundEvents == old(roundEvents)
      ensures configuration == old(configuration)
    {
      timerActive := false;
      roundRemainingTime := 0;
    }

    method GenerateRoundEvents() returns (events: seq<Event<EventType>>, ghost drawn: seq<LegacyBlueprint>)
      requires Valid()
      requires configuration.eventsPerRound >= 1 && Feasible(roundEvents, configuration.eventsPerRound)
      modifies this`roundEvents
      ensures Valid()
      ensures |events| == |drawn| == configuration.eventsPerRound
      ensures multiset(old(roundEvents)) == multiset(roundEvents) + multiset(SinglesOf(drawn))
      ensures forall k :: 0 <= k < |drawn| ==> drawn[k] in old(roundEvents) && IsInstance(events[k], drawn[k], configuration.players)
      ensures forall k :: 0 <= k < |drawn| && drawn[k].kind.Single? ==> drawn[k] !in roundEvents
    {
      var rest;
      events, rest, drawn := GenerateFromPool(roundEvents, configuration.eventsPerRound, configuration.players);
      DrawnSinglesGone(roundEvents, rest, drawn);
      roundEvents := rest;
    }

    method Tick() returns (ghost drawn: seq<LegacyBlueprint>)
      requires Valid() && timerActive
      requires roundRemainingTime == 1 ==> configuration.eventsPerRound >= 1 && Feasible(roundEvents, configuration.eventsPerRound)
      modifies this`gameTime, this`roundRemainingTime, this`timerActive, this`roundEvents, this`activeEvents
      ensures Valid() && configuration == old(configuration)
      ensures gameTime == old(gameTime) + 1
      ensures old(roundRemainingTime) == 1 ==>
        && roundRemainingTime == 0 && !timerActive
        && |activeEvents| == |drawn| == configuration.eventsPerRound
        && multiset(old(roundEvents)) == multiset(roundEvents) + multiset(SinglesOf(drawn))
        && (forall k :: 0 <= k < |drawn| ==> drawn[k] in old(roundEvents) && IsInstance(activeEvents[k], drawn[k], configuration.players))
        && (forall k :: 0 <= k < |drawn| && drawn[k].kind.Single? ==> drawn[k] !in roundEvents)
      ensures old(roundRemainingTime) != 1 && gameTime in timedEvents ==>
        && roundRemainingTime == 0 && !timerActive
        && |activeEvents| == 1 && IsInstance(activeEvents[0], timedEvents[gameTime], configuration.players)
        && roundEvents == old(roundEvents)
      ensures old(roundRemainingTime) != 1 && gameTime !in timedEvents ==>
        && roundRemainingTime == old(roundRemainingTime) - 1 && timerActive
        && activeEvents == old(activeEvents) && roundEvents == old(roundEvents)
    {
      gameTime := gameTime + 1;
      roundRemainingTime := roundRemainingTime - 1;
      drawn := [];
      if roundRemainingTime == 0 {
        StopCountdown();
        var events;
        events, drawn := GenerateRoundEvents();
        activeEvents := events;
      } else if gameTime in timedEvents {
        StopCountdown();
        var e := MakeEvent(timedEvents[gameTime], configuration.players);
        activeEvents := [e];
      }
    }
  }
}
