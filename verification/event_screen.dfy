/**
 * The event screen of the two SwiftUI versions (`EventViewModel`): a queue
 * of events shown one at a time, each as text whose bracketed names are
 * highlighted. Both versions share the logic modelled here; only the spoken
 * part differs, and speech is not part of this model.
 */
module EventScreens {
  import opened Strings
  import opened Events
  import Speech

  /** A run of text, highlighted (bold, accent colour) or plain. */
  datatype Segment = Segment(text: string, highlighted: bool)

  /** The characters shown, run after run. */
  function Joined(segments: seq<Segment>): string
  {
    if segments == [] then "" else segments[0].text + Joined(segments[1..])
  }

  lemma {:induction false} JoinedTexts(segments: seq<Segment>, parts: seq<string>)
    requires |segments| == |parts|
    requires forall k :: 0 <= k < |parts| ==> segments[k].text == parts[k]
    ensures Joined(segments) == Concat(parts)
  {
    if parts != [] {
      JoinedTexts(segments[1..], parts[1..]);
    }
  }

  /**
   * `buildDisplayText(for:)`: the pieces between brackets, alternately plain
   * (even positions) and highlighted (odd positions). What is shown is the
   * text without its brackets, which is also what is spoken.
   */
  method BuildDisplayText(text: string) returns (segments: seq<Segment>)
    ensures |segments| == |SplitChars(text, Speech.Brackets)|
    ensures forall k :: 0 <= k < |segments| ==>
      segments[k] == Segment(SplitChars(text, Speech.Brackets)[k], k % 2 == 1)
    ensures forall k :: 0 <= k < |segments| ==> forall c :: c in segments[k].text ==> c !in Speech.Brackets
    ensures Joined(segments) == Speech.SpeechFormatted(text)
  {
    var components := SplitChars(text, Speech.Brackets);
    segments := [];
    var i := 0;
    while i < |components|
      invariant 0 <= i <= |components|
      invariant |segments| == i
      invariant forall k :: 0 <= k < i ==> segments[k] == Segment(components[k], k % 2 == 1)
    {
      segments := segments + [Segment(components[i], i % 2 == 1)];
      i := i + 1;
    }
    JoinedTexts(segments, components);
    SplitCharsConcat(text, Speech.Brackets);
    Speech.SpeechIsWithout(text);
  }

  class EventViewModel<K> {
    var currentEvent: Option<Event<K>>
    var eventNumber: int
    var remainingEvents: seq<Event<K>>
    /** The events the screen was opened with. */
    ghost const initialEvents: seq<Event<K>>
    /** The events shown so far, oldest first. */
    ghost var shown: seq<Event<K>>

    /** Events are shown in the order given, the number counts them, and the current one is the last shown. */
    ghost predicate Valid()
      reads this
    {
      && shown + remainingEvents == initialEvents
      && eventNumber == |shown|
      && currentEvent == if shown == [] then None else Some(shown[|shown| - 1])
    }

    constructor(events: seq<Event<K>>)
      ensures Valid() && initialEvents == events
      ensures remainingEvents == events && currentEvent == None && eventNumber == 0
    {
      remainingEvents := events;
      currentEvent := None;
      eventNumber := 0;
      initialEvents := events;
      shown := [];
    }

    /** "Turbo Time!" before the first event, "Event #n" after. */
    function TitleText(): (title: string)
      reads this
      ensures title == "Turbo Time!" <==> currentEvent.None?
      ensures currentEvent.Some? ==> title == "Event #" + DecimalString(eventNumber)
    {
      if currentEvent.None? then "Turbo Time!"
      else
        var title := "Event #" + DecimalString(eventNumber);
        assert title[0] != "Turbo Time!"[0];
        title
    }

    function ButtonText(): (caption: string)
      reads this
      ensures caption == "Start" <==> currentEvent.None?
      ensures caption == "Next" <==> currentEvent.Some?
    {
      if currentEvent.None? then "Start" else "Next"
    }

    /** `eventText`: a prompt before the first event, the current event's text after. */
    method EventText() returns (segments: seq<Segment>)
      ensures currentEvent.None? ==> segments == [Segment("Press start to begin the events!", false)]
      ensures currentEvent.Some? ==>
        && |segments| == |SplitChars(Rendered(currentEvent.value), Speech.Brackets)|
        && (forall k :: 0 <= k < |segments| ==>
              segments[k] == Segment(SplitChars(Rendered(currentEvent.value), Speech.Brackets)[k], k % 2 == 1))
        && Joined(segments) == Speech.SpeechFormatted(Rendered(currentEvent.value))
    {
      if currentEvent.None? {
        segments := [Segment("Press start to begin the events!", false)];
        assert Joined(segments) == "Press start to begin the events!";
      } else {
        segments := BuildDisplayText(Rendered(currentEvent.value));
      }
    }

    /**
     * `cycleEvents`: the next event becomes current; with none left the
     * screen asks to be dismissed (`dismiss`) and nothing changes.
     */
    method CycleEvents() returns (dismiss: bool)
      requires Valid()
      modifies this
      ensures Valid()
      ensures dismiss <==> old(remainingEvents) == []
      ensures dismiss ==> currentEvent == old(currentEvent) && eventNumber == old(eventNumber) && remainingEvents == old(remainingEvents)
      ensures !dismiss ==>
        && currentEvent == Some(old(remainingEvents)[0])
        && remainingEvents == old(remainingEvents)[1..]
        && eventNumber == old(eventNumber) + 1
    {
      if |remainingEvents| == 0 {
        return true;
      }
      var event := remainingEvents[0];
      currentEvent := Some(event);
      remainingEvents := remainingEvents[1..];
      eventNumber := eventNumber + 1;
      shown := shown + [event];
      assert shown + remainingEvents == old(shown) + old(remainingEvents);
      return false;
    }
  }
}
