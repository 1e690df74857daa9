/**
 * `EventBlueprint` and `EventType`. A blueprint is a template: text with
 * `[player]` and `[number]` placeholders, an optional inclusive range for the
 * number, and a type. The struct is generic here in its type tag, because
 * the earlier engines use an earlier `EventType` (see `LegacyEngines`).
 *
 * Every construction of a blueprint draws a fresh `UUID`; the model keeps
 * the identity as a number supplied by whoever builds the blueprint.
 * Swift's synthesised equality and hashing compare all stored properties,
 * identity included, and so does Dafny's datatype equality.
 */
module Blueprints {
  import opened Strings
  import opened EventFrequencies

  /** `ClosedRange<Int>`; Swift refuses to build one whose lower bound exceeds its upper bound. */
  datatype NumberRange = NumberRange(lower: int, upper: int)

  datatype Blueprint<K> = Blueprint(id: nat, randomNumberRange: Option<NumberRange>, text: string, kind: K)

  /** The current `EventType`. A timed trigger is a `TimeInterval` of whole seconds here. */
  datatype EventType =
    | Single(frequency: EventFrequency)
    | Repeatable(frequency: EventFrequency)
    | Timed(time: int, isEnabled: bool)

  type EventBlueprint = Blueprint<EventType>

  /** The blueprint's number range, if any, could have been built. */
  predicate HasValidRange<K>(b: Blueprint<K>)
  {
    b.randomNumberRange.Some? ==> b.randomNumberRange.value.lower <= b.randomNumberRange.value.upper
  }

  /** `EventConfigurationViewModel.changeType(of:to:)`: a new blueprint, with a fresh identity, keeping text and range. */
  function ChangeType(b: EventBlueprint, kind: EventType, freshId: nat): (r: EventBlueprint)
    ensures r.text == b.text && r.randomNumberRange == b.randomNumberRange
    ensures r.kind == kind && r.id == freshId
    ensures HasValidRange(r) == HasValidRange(b)
  {
    Blueprint(freshId, b.randomNumberRange, b.text, kind)
  }
}
