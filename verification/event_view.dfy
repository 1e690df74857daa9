/**
 * `EventView` of the first version: a popover that shows queued events one
 * at a time, the players' names highlighted between the pieces of the
 * `%@` template.
 */
module EventViews {
  import opened Strings
  import opened EventScreens
  import MessageEngines

  /** The event this view shows: a `%@` template and the players for it. */
  datatype ShownEvent = ShownEvent(blueprintText: string, players: seq<string>)

  /** A highlighted name, then the plain piece after it, for each name. */
  function Pairs(players: seq<string>, pieces: seq<string>): (r: seq<Segment>)
    requires |players| == |pieces|
    ensures |r| == 2 * |players|
    ensures forall k :: 0 <= k < |players| ==> r[2 * k] == Segment(players[k], true) && r[2 * k + 1] == Segment(pieces[k], false)
  {
    if players == [] then []
    else [Segment(players[0], true), Segment(pieces[0], false)] + Pairs(players[1..], pieces[1..])
  }

  /** The first piece, then each name followed by the next piece. */
  function Interleaved(pieces: seq<string>, players: seq<string>): seq<Segment>
    requires |pieces| == |players| + 1
  {
    [Segment(pieces[0], false)] + Pairs(players, pieces[1..])
  }

  /**
   * `buildDisplayText(for:)`: nothing when the template's pieces do not
   * number one more than the players, otherwise the interleaving.
   */
  method BuildDisplayText(e: ShownEvent) returns (segments: seq<Segment>)
    ensures var pieces := Split(e.blueprintText, MessageEngines.FormatToken);
      && (|pieces| != |e.players| + 1 ==> segments == [])
      && (|pieces| == |e.players| + 1 ==> segments == Interleaved(pieces, e.players))
  {
    var players := e.players;
    var components := Split(e.blueprintText, MessageEngines.FormatToken);
    if |components| != |players| + 1 {
      return [];
    }
    ghost var pieces := components;
    segments := [Segment(components[0], false)];
    components := components[1..];
    while |players| > 0 && |components| > 0
      invariant |players| == |components|
      invariant segments + Pairs(players, components) == Interleaved(pieces, e.players)
      decreases |players|
    {
      segments := segments + [Segment(players[0], true)];
      players := players[1..];
      segments := segments + [Segment(components[0], false)];
      components := components[1..];
    }
  }

  /** The highlighted runs, in order. */
  function Highlighted(segments: seq<Segment>): seq<string>
  {
    if segments == [] then []
    else (if segments[0].highlighted then [segments[0].text] else []) + Highlighted(segments[1..])
  }

  /**
   * Every player is highlighted exactly once, in order, and the characters
   * shown are those `String(format:)` would give with the players as
   * arguments.
   */
  lemma {:induction false} InterleavedProperties(pieces: seq<string>, players: seq<string>)
    requires |pieces| == |players| + 1
    ensures Highlighted(Interleaved(pieces, players)) == players
    ensures Joined(Interleaved(pieces, players)) == Fill(pieces, players, MessageEngines.FormatToken)
    decreases |players|
  {
    if players != [] {
      InterleavedProperties(pieces[1..], players[1..]);
      var tail := Interleaved(pieces[1..], players[1..]);
      InterleavedCons(pieces, players);
      FrontPair(pieces[0], players[0], tail);
      assert players == [players[0]] + players[1..];
    }
  }

  /** Peeling the first piece and the first name off an interleaving. */
  lemma InterleavedCons(pieces: seq<string>, players: seq<string>)
    requires |pieces| == |players| + 1 && players != []
    ensures Interleaved(pieces, players)
      == [Segment(pieces[0], false), Segment(players[0], true)] + Interleaved(pieces[1..], players[1..])
  {
    var rest := Pairs(players[1..], pieces[1..][1..]);
    assert Pairs(players, pieces[1..]) == [Segment(players[0], true), Segment(pieces[1..][0], false)] + rest;
    assert Interleaved(pieces[1..], players[1..]) == [Segment(pieces[1..][0], false)] + rest;
  }

  /** A plain piece and a highlighted name in front: the name is highlighted, and both are shown. */
  lemma FrontPair(piece: string, name: string, tail: seq<Segment>)
    ensures Highlighted([Segment(piece, false), Segment(name, true)] + tail) == [name] + Highlighted(tail)
    ensures Joined([Segment(piece, false), Segment(name, true)] + tail) == piece + name + Joined(tail)
  {
    var r := [Segment(piece, false), Segment(name, true)] + tail;
    assert r[1..] == [Segment(name, true)] + tail;
    assert r[1..][1..] == tail;
    AppendAssoc(piece, name, Joined(tail));
  }

  class EventView {
    var currentEvent: Option<ShownEvent>
    var events: seq<ShownEvent>
    var isVisible: bool

    constructor(currentEvent: Option<ShownEvent>, events: seq<ShownEvent>)
      ensures this.currentEvent == currentEvent && this.events == events && isVisible
    {
      this.currentEvent := currentEvent;
      this.events := events;
      isVisible := true;
    }

    function Title(): (title: string)
      reads this
      ensures title == "Turbo Time!" <==> currentEvent.None?
      ensures title == "New Event!" <==> currentEvent.Some?
    {
      if currentEvent.None? then "Turbo Time!" else "New Event!"
    }

    function ButtonText(): (caption: string)
      reads this
      ensures caption == "Start Events" <==> currentEvent.None?
      ensures caption == "Continue" <==> currentEvent.Some?
    {
      if currentEvent.None? then "Start Events" else "Continue"
    }

    /** The button: the next queued event becomes current, or the popover hides when none is left. */
    method ButtonAction()
      modifies this
      ensures old(events) != [] ==> currentEvent == Some(old(events)[0]) && events == old(events)[1..] && isVisible == old(isVisible)
      ensures old(events) == [] ==> !isVisible && currentEvent == old(currentEvent) && events == old(events)
    {
      if events != [] {
        currentEvent := Some(events[0]);
        events := events[1..];
      } else {
        isVisible := false;
      }
    }
  }
}
