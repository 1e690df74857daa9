/**
 * The two oldest engines: `GameManager` and the first `Game`. Their events
 * are plain messages with `%@` placeholders; each message takes two players
 * drawn from a fresh copy of the roster, and a non-repeatable event leaves
 * the pool once drawn.
 */
module MessageEngines {
  import opened Strings
  import LegacyEngines

  /** `Event` of these versions. */
  datatype ActionEvent = ActionEvent(isRepeatable: bool, involvedPlayers: int, actionText: string)

  const FormatToken: string := "%@"

  // ---------------------------------------------------------------------
  // `String(format:)` with two string arguments

  /** The format string consumes at most the two arguments given. */
  predicate Formattable(text: string)
  {
    |Split(text, FormatToken)| <= 3
  }

  /** The placeholders of `text` replaced, in order, by `first` and `second`. */
  function FormatMessage(text: string, first: string, second: string): string
    requires Formattable(text)
  {
    Fill(Split(text, FormatToken), [first, second], FormatToken)
  }

  /** A message is the text between the placeholders with the names put in, in argument order. */
  lemma FormatShape(text: string, first: string, second: string)
    requires Formattable(text)
    ensures var parts := Split(text, FormatToken);
      && (|parts| == 1 ==> FormatMessage(text, first, second) == text)
      && (|parts| == 2 ==> FormatMessage(text, first, second) == parts[0] + first + parts[1])
      && (|parts| == 3 ==> FormatMessage(text, first, second) == parts[0] + first + parts[1] + second + parts[2])
  {
    var parts := Split(text, FormatToken);
    JoinSplit(text, FormatToken);
    if |parts| == 2 {
      assert Fill(parts[1..], [second], FormatToken) == parts[1];
    } else if |parts| == 3 {
      assert Fill(parts[2..], [], FormatToken) == parts[2];
      assert parts[1..][1..] == parts[2..];
      assert Fill(parts[1..], [second], FormatToken) == parts[1] + second + parts[2];
    }
  }

  /** Filling every placeholder with the placeholder itself gives the template back. */
  lemma {:induction false} FillWithSeparator(parts: seq<string>, fillers: seq<string>, sep: string)
    requires forall k :: 0 <= k < |fillers| ==> fillers[k] == sep
    ensures Fill(parts, fillers, sep) == Join(parts, sep)
    decreases |parts|
  {
    if |parts| >= 2 {
      FillWithSeparator(parts[1..], if fillers == [] then [] else fillers[1..], sep);
      FillWithSeparator(parts[1..], [], sep);
    }
  }

  lemma FormatWithTokens(text: string)
    requires Formattable(text)
    ensures FormatMessage(text, FormatToken, FormatToken) == text
  {
    FillWithSeparator(Split(text, FormatToken), [FormatToken, FormatToken], FormatToken);
    JoinSplit(text, FormatToken);
  }

  // ---------------------------------------------------------------------
  // Choosing the players of a message

  /** `selectPlayer(from:)`: removes a random entry and returns it. */
  method SelectPlayer(available: seq<string>) returns (name: string, rest: seq<string>, ghost index: nat)
    requires |available| > 0
    ensures index < |available| && name == available[index]
    ensures rest == available[..index] + available[index + 1..]
  {
    var i :| 0 <= i < |available|;
    index := i;
    name := available[i];
    rest := available[..i] + available[i + 1..];
  }

  /** `msg` is `e`'s text formatted with the players at two different roster positions. */
  ghost predicate MessageFrom(msg: string, e: ActionEvent, players: seq<string>)
  {
    && Formattable(e.actionText)
    && exists i, j :: 0 <= i < |players| && 0 <= j < |players| && i != j
         && msg == FormatMessage(e.actionText, players[i], players[j])
  }

  /** One message: both selections from the same fresh copy of the roster. */
  method ComposeMessage(e: ActionEvent, players: seq<string>) returns (message: string)
    requires |players| >= 2 && Formattable(e.actionText)
    ensures MessageFrom(message, e, players)
  {
    var available := players;
    var first, rest, i := SelectPlayer(available);
    var second, rest', j := SelectPlayer(rest);
    message := FormatMessage(e.actionText, first, second);
    var j' := if j < i then j else j + 1;
    assert players[i] == first && players[j'] == second;
  }

  // ---------------------------------------------------------------------
  // Drawing events in place

  predicate AllFormattable(pool: seq<ActionEvent>)
  {
    forall e :: e in pool ==> Formattable(e.actionText)
  }

  /** No draw of `count` events finds the pool empty. */
  predicate Feasible(pool: seq<ActionEvent>, count: int)
  {
    (exists k :: 0 <= k < |pool| && pool[k].isRepeatable) || |pool| >= count
  }

  /** The non-repeatable events of `drawn`, in order. */
  function OnceOf(drawn: seq<ActionEvent>): seq<ActionEvent>
  {
    if drawn == [] then []
    else
      var last := drawn[|drawn| - 1];
      OnceOf(drawn[..|drawn| - 1]) + (if last.isRepeatable then [] else [last])
  }

  lemma {:induction false} OnceOfCount(drawn: seq<ActionEvent>, x: ActionEvent)
    ensures multiset(OnceOf(drawn))[x] == if x.isRepeatable then 0 else multiset(drawn)[x]
  {
    if drawn != [] {
      var n := |drawn| - 1;
      OnceOfCount(drawn[..n], x);
      assert drawn == drawn[..n] + [drawn[n]];
    }
  }

  /** What one draw does to the pool: exactly a drawn non-repeatable event leaves it. */
  lemma DrawStep(pool: seq<ActionEvent>, rest: seq<ActionEvent>, drawn: seq<ActionEvent>, i: nat, left: int)
    requires i < |rest| && Feasible(rest, left)
    requires multiset(pool) == multiset(rest) + multiset(OnceOf(drawn))
    ensures var rest' := if rest[i].isRepeatable then rest else rest[..i] + rest[i + 1..];
      && multiset(pool) == multiset(rest') + multiset(OnceOf(drawn + [rest[i]]))
      && Feasible(rest', left - 1)
      && (forall e :: e in rest' ==> e in rest)
  {
    var e := rest[i];
    OnceOfAppend(drawn, e);
    if !e.isRepeatable {
      LegacyEngines.RemoveAt(rest, i);
      LegacyEngines.RemoveAtKeepsOthers(rest, i);
      FeasibleAfterRemoval(rest, i, left);
    }
  }

  /** Taking away a non-repeatable event leaves a pool that can serve one draw fewer. */
  lemma FeasibleAfterRemoval(rest: seq<ActionEvent>, i: nat, left: int)
    requires i < |rest| && !rest[i].isRepeatable && Feasible(rest, left)
    ensures Feasible(rest[..i] + rest[i + 1..], left - 1)
  {
    if exists k :: 0 <= k < |rest| && rest[k].isRepeatable {
      var k :| 0 <= k < |rest| && rest[k].isRepeatable;
      LegacyEngines.RemoveAtIndex(rest, i, k);
    }
  }

  lemma OnceOfAppend(drawn: seq<ActionEvent>, e: ActionEvent)
    ensures OnceOf(drawn + [e]) == OnceOf(drawn) + (if e.isRepeatable then [] else [e])
  {
    assert (drawn + [e])[..|drawn|] == drawn;
  }

  /**
   * `generateEvents` of both engines: `count` messages, each from an event
   * drawn from the pool left by the previous draws.
   */
  method GenerateMessages(pool: seq<ActionEvent>, count: int, players: seq<string>)
      returns (messages: seq<string>, rest: seq<ActionEvent>, ghost drawn: seq<ActionEvent>)
    requires count >= 1 && |players| >= 2 && Feasible(pool, count) && AllFormattable(pool)
    ensures |messages| == |drawn| == count
    ensures multiset(pool) == multiset(rest) + multiset(OnceOf(drawn))
    ensures forall e :: e in rest ==> e in pool
    ensures forall k :: 0 <= k < count ==> drawn[k] in pool && MessageFrom(messages[k], drawn[k], players)
  {
    messages := [];
    rest := pool;
    drawn := [];
    var n := 0;
    while n < count
      invariant 0 <= n <= count
      invariant |messages| == |drawn| == n
      invariant multiset(pool) == multiset(rest) + multiset(OnceOf(drawn))
      invariant forall e :: e in rest ==> e in pool
      invariant MessagesFrom(messages, drawn, pool, players)
      invariant Feasible(rest, count - n)
    {
      var i :| 0 <= i < |rest|;
      var e := rest[i];
      assert e in pool;
      var message := ComposeMessage(e, players);
      DrawStep(pool, rest, drawn, i, count - n);
      MessagesFromStep(messages, drawn, pool, players, message, e);
      if !e.isRepeatable {
        rest := rest[..i] + rest[i + 1..];
      }
      messages := messages + [message];
      drawn := drawn + [e];
      n := n + 1;
    }
  }

  /** Each message was composed from the drawn event beside it, an event of the pool. */
  ghost predicate MessagesFrom(messages: seq<string>, drawn: seq<ActionEvent>, pool: seq<ActionEvent>, players: seq<string>)
  {
    |messages| == |drawn| &&
    forall k :: 0 <= k < |drawn| ==> drawn[k] in pool && MessageFrom(messages[k], drawn[k], players)
  }

  lemma MessagesFromStep(messages: seq<string>, drawn: seq<ActionEvent>, pool: seq<ActionEvent>, players: seq<string>,
                         m: string, e: ActionEvent)
    requires MessagesFrom(messages, drawn, pool, players) && e in pool && MessageFrom(m, e, players)
    ensures MessagesFrom(messages + [m], drawn + [e], pool, players)
  {
  }

  /** No event listed more than once in the pool comes out non-repeatable twice, or stays in the pool after it was drawn. */
  ghost predicate OnceEach(pool: seq<ActionEvent>)
  {
    forall x: ActionEvent :: !x.isRepeatable ==> multiset(pool)[x] <= 1
  }

  lemma DrawnOnceGone(pool: seq<ActionEvent>, rest: seq<ActionEvent>, drawn: seq<ActionEvent>)
    requires OnceEach(pool)
    requires multiset(pool) == multiset(rest) + multiset(OnceOf(drawn))
    ensures OnceEach(rest)
    ensures forall k :: 0 <= k < |drawn| && !drawn[k].isRepeatable ==> drawn[k] !in rest
    ensures forall i, j :: 0 <= i < j < |drawn| && !drawn[i].isRepeatable ==> drawn[j] != drawn[i]
  {
    forall x: ActionEvent | !x.isRepeatable ensures multiset(rest)[x] <= 1 {
      assert multiset(pool)[x] == multiset(rest)[x] + multiset(OnceOf(drawn))[x];
    }
    forall k | 0 <= k < |drawn| && !drawn[k].isRepeatable ensures drawn[k] !in rest {
      var x := drawn[k];
      OnceOfCount(drawn, x);
      assert x in multiset(drawn);
      assert multiset(pool)[x] == multiset(rest)[x] + multiset(OnceOf(drawn))[x];
    }
    forall i, j | 0 <= i < j < |drawn| && !drawn[i].isRepeatable ensures drawn[j] != drawn[i] {
      var x := drawn[i];
      OnceOfCount(drawn, x);
      if drawn[j] == x {
        LegacyEngines.TwoIndices(drawn, i, j);
      }
      assert multiset(pool)[x] == multiset(rest)[x] + multiset(OnceOf(drawn))[x];
    }
  }

  /**
   * Across two rounds (the second drawing from the pool the first one left),
   * a non-repeatable event drawn in the first round is never drawn in the second.
   */
  lemma OnceNotRedrawn(pool: seq<ActionEvent>, rest: seq<ActionEvent>,
                       first: seq<ActionEvent>, second: seq<ActionEvent>)
    requires OnceEach(pool)
    requires multiset(pool) == multiset(rest) + multiset(OnceOf(first))
    requires forall j :: 0 <= j < |second| ==> second[j] in rest
    ensures forall i, j :: 0 <= i < |first| && 0 <= j < |second| && !first[i].isRepeatable ==> second[j] != first[i]
  {
    DrawnOnceGone(pool, rest, first);
  }

  // ---------------------------------------------------------------------
  // `GameManager`

  const DefaultShowTimer := false
  const DefaultMinimumRoundTime := 5
  const DefaultMaximumRoundTime := 10
  const DefaultEventsPerRound := 1

  /**
   * `GameManager`. The roster and the event list are given at creation; the
   * settings are fields holding their defaults until written. Delegate calls
   * become return values.
   */
  class GameManager {
    var remainingTime: int
    var remainingEventMessages: seq<string>
    var timerActive: bool
    const players: seq<string>
    var events: seq<ActionEvent>
    var shouldShowTimer: bool
    var minimumRoundTime: int
    var maximumRoundTime: int
    var eventsPerRound: int

    constructor(players: seq<string>, events: seq<ActionEvent>)
      ensures this.players == players && this.events == events
      ensures remainingTime == 10 && remainingEventMessages == [] && !timerActive
      ensures shouldShowTimer == DefaultShowTimer && minimumRoundTime == DefaultMinimumRoundTime
      ensures maximumRoundTime == DefaultMaximumRoundTime && eventsPerRound == DefaultEventsPerRound
    {
      this.players := players;
      this.events := events;
      remainingTime := 10;
      remainingEventMessages := [];
      timerActive := false;
      shouldShowTimer := DefaultShowTimer;
      minimumRoundTime := DefaultMinimumRoundTime;
      maximumRoundTime := DefaultMaximumRoundTime;
      eventsPerRound := DefaultEventsPerRound;
    }

    /** `startRound`: a whole number of minutes in the configured range, reported as seconds. */
    method StartRound() returns (beginTime: int)
      requires minimumRoundTime <= maximumRoundTime
      modifies this`remainingTime, this`timerActive
      ensures remainingTime % 60 == 0 && minimumRoundTime <= remainingTime / 60 <= maximumRoundTime
      ensures beginTime == remainingTime && timerActive
    {
      var minutes :| minimumRoundTime <= minutes <= maximumRoundTime;
      remainingTime := minutes * 60;
      beginTime := remainingTime;
      timerActive := true;
    }

    /** One firing of the round timer; the timer stops on the tick that reaches 0. */
    method Tick() returns (remaining: int, roundOver: bool)
      requires timerActive
      modifies this`remainingTime, this`timerActive
      ensures remainingTime == old(remainingTime) - 1 && remaining == remainingTime
      ensures roundOver <==> remainingTime == 0
      ensures timerActive <==> !roundOver
    {
      remainingTime := remainingTime - 1;
      roundOver := false;
      if remainingTime == 0 {
        timerActive := false;
        roundOver := true;
      }
      remaining := remainingTime;
    }

    method GenerateEvents() returns (ghost messages: seq<string>, ghost drawn: seq<ActionEvent>)
      requires eventsPerRound >= 1 && |players| >= 2
      requires Feasible(events, eventsPerRound) && AllFormattable(events)
      modifies this`events, this`remainingEventMessages
      ensures remainingEventMessages == old(remainingEventMessages) + messages
      ensures |messages| == |drawn| == eventsPerRound
      ensures multiset(old(events)) == multiset(events) + multiset(OnceOf(drawn))
      ensures forall k :: 0 <= k < |drawn| ==> drawn[k] in old(events) && MessageFrom(messages[k], drawn[k], players)
      ensures OnceEach(old(events)) ==> OnceEach(events) && forall k :: 0 <= k < |drawn| && !drawn[k].isRepeatable ==> drawn[k] !in events
    {
      var generated, rest;
      generated, rest, drawn := GenerateMessages(events, eventsPerRound, players);
      if OnceEach(events) {
        DrawnOnceGone(events, rest, drawn);
      }
      events := rest;
      remainingEventMessages := remainingEventMessages + generated;
      messages := generated;
    }

    /** `nextEvent`: first in, first out. */
    method NextEvent() returns (message: Option<string>)
      modifies this`remainingEventMessages
      ensures old(remainingEventMessages) == [] <==> message.None?
      ensures message.None? ==> remainingEventMessages == old(remainingEventMessages)
      ensures message.Some? ==> [message.value] + remainingEventMessages == old(remainingEventMessages)
    {
      if remainingEventMessages == [] {
        return None;
      }
      message := Some(remainingEventMessages[0]);
      remainingEventMessages := remainingEventMessages[1..];
    }
  }

  // ---------------------------------------------------------------------
  // The first `Game`

  datatype Preferences = Preferences(showTimer: bool, minRoundTime: int, maxRoundTime: int, eventsPerRound: int)

  /** `Preferences.default`: timer hidden, one to five minutes, one event per round. */
  const DefaultPreferences := Preferences(false, 60, 300, 1)

  class Game {
    const players: seq<string>
    var eventPool: seq<ActionEvent>
    var preferences: Preferences
    var countdownTime: int
    /** `countdownIsActive`: the timer is scheduled and valid. */
    var timerActive: bool
    var events: seq<string>

    ghost predicate CanGenerate()
      reads this
    {
      preferences.eventsPerRound >= 1 && |players| >= 2
      && Feasible(eventPool, preferences.eventsPerRound) && AllFormattable(eventPool)
    }

    constructor(players: seq<string>, eventPool: seq<ActionEvent>, preferences: Preferences)
      ensures this.players == players && this.eventPool == eventPool && this.preferences == preferences
      ensures countdownTime == 0 && !timerActive && events == []
    {
      this.players := players;
      this.eventPool := eventPool;
      this.preferences := preferences;
      countdownTime := 0;
      timerActive := false;
      events := [];
    }

    /** `startCountdown`: nothing happens while a countdown runs. */
    method StartCountdown()
      requires !timerActive ==> preferences.minRoundTime <= preferences.maxRoundTime
      modifies this`countdownTime, this`timerActive
      ensures old(timerActive) ==> countdownTime == old(countdownTime) && timerActive
      ensures !old(timerActive) ==>
        preferences.minRoundTime <= countdownTime <= preferences.maxRoundTime && timerActive
    {
      if timerActive {
        return;
      }
      var r :| preferences.minRoundTime <= r <= preferences.maxRoundTime;
      countdownTime := r;
      timerActive := true;
    }

    method StopCountdown()
      modifies this`countdownTime, this`timerActive
      ensures countdownTime == 0 && !timerActive
    {
      timerActive := false;
      countdownTime := 0;
    }

    method GenerateEvents() returns (messages: seq<string>, ghost drawn: seq<ActionEvent>)
      requires CanGenerate()
      modifies this`eventPool
      ensures |messages| == |drawn| == preferences.eventsPerRound
      ensures multiset(old(eventPool)) == multiset(eventPool) + multiset(OnceOf(drawn))
      ensures forall k :: 0 <= k < |drawn| ==> drawn[k] in old(eventPool) && MessageFrom(messages[k], drawn[k], players)
      ensures OnceEach(old(eventPool)) ==> OnceEach(eventPool) && forall k :: 0 <= k < |drawn| && !drawn[k].isRepeatable ==> drawn[k] !in eventPool
    {
      var rest;
      messages, rest, drawn := GenerateMessages(eventPool, preferences.eventsPerRound, players);
      if OnceEach(eventPool) {
        DrawnOnceGone(eventPool, rest, drawn);
      }
      eventPool := rest;
    }

    /**
     * The timer block of `startCountdown`: one second passes; at zero the timer stops and a
     * round of messages is drawn. The roster is a constant, so it is the
     * same roster before and after.
     */
    method Tick() returns (ghost drawn: seq<ActionEvent>)
      requires timerActive
      requires countdownTime == 1 ==> CanGenerate()
      modifies this`countdownTime, this`timerActive, this`eventPool, this`events
      ensures countdownTime == if old(countdownTime) == 1 then 0 else old(countdownTime) - 1
      ensures timerActive <==> old(countdownTime) != 1
      ensures old(countdownTime) == 1 ==>
        && |events| == |drawn| == preferences.eventsPerRound
        && multiset(old(eventPool)) == multiset(eventPool) + multiset(OnceOf(drawn))
        && (forall k :: 0 <= k < |drawn| ==> drawn[k] in old(eventPool) && MessageFrom(events[k], drawn[k], players))
        && (OnceEach(old(eventPool)) ==>
              OnceEach(eventPool) && forall k :: 0 <= k < |drawn| && !drawn[k].isRepeatable ==> drawn[k] !in eventPool)
      ensures old(countdownTime) != 1 ==> events == old(events) && eventPool == old(eventPool)
      ensures preferences == old(preferences)
    {
      countdownTime := countdownTime - 1;
      drawn := [];
      if countdownTime == 0 {
        StopCountdown();
        var messages;
        messages, drawn := GenerateEvents();
        events := messages;
      }
    }
  }
}
