/**
 * `EventConfigurationViewModel`: the event list of the current app, in three
 * sections by type, where tapping a blueprint advances its frequency (or
 * switches a timed blueprint on or off) and saves the configuration.
 */
module EventConfigurationScreens {
  import opened Strings
  import CaseWrappable
  import opened EventFrequencies
  import opened Blueprints
  import opened Configurations

  // ---------------------------------------------------------------------
  // Sections

  datatype Section = RepeatableSection | SingleSection | TimedSection

  /** Section order on screen. */
  const AllSections: seq<Section> := [RepeatableSection, SingleSection, TimedSection]

  function SectionTitle(s: Section): string
  {
    match s
    case RepeatableSection => "Repeatable Events"
    case SingleSection => "Single Events"
    case TimedSection => "Timed Events"
  }

  predicate InSection(b: EventBlueprint, s: Section)
  {
    match s
    case RepeatableSection => b.kind.Repeatable?
    case SingleSection => b.kind.Single?
    case TimedSection => b.kind.Timed?
  }

  /** `repeatableEvents`, `singleEvents` and `timedEvents`: `filter` keeps the order. */
  function Filter(bs: seq<EventBlueprint>, s: Section): (r: seq<EventBlueprint>)
    ensures |r| <= |bs|
    ensures forall b :: b in r ==> b in bs && InSection(b, s)
  {
    if bs == [] then []
    else
      var n := |bs| - 1;
      Filter(bs[..n], s) + (if InSection(bs[n], s) then [bs[n]] else [])
  }

  /** A blueprint occurs in its section as often as in the list, and in no other section. */
  lemma {:induction false} FilterCount(bs: seq<EventBlueprint>, s: Section, x: EventBlueprint)
    ensures multiset(Filter(bs, s))[x] == if InSection(x, s) then multiset(bs)[x] else 0
  {
    if bs != [] {
      var n := |bs| - 1;
      FilterCount(bs[..n], s, x);
      assert bs == bs[..n] + [bs[n]];
    }
  }

  /** The three sections together hold exactly the configured blueprints. */
  lemma SectionsPartition(bs: seq<EventBlueprint>)
    ensures multiset(Filter(bs, RepeatableSection)) + multiset(Filter(bs, SingleSection)) + multiset(Filter(bs, TimedSection))
         == multiset(bs)
  {
    forall x | true
      ensures (multiset(Filter(bs, RepeatableSection)) + multiset(Filter(bs, SingleSection)) + multiset(Filter(bs, TimedSection)))[x]
           == multiset(bs)[x]
    {
      FilterCount(bs, RepeatableSection, x);
      FilterCount(bs, SingleSection, x);
      FilterCount(bs, TimedSection, x);
    }
  }

  /**
   * `sections`: title and blueprints, in screen order. Together the three
   * sections list every configured blueprint exactly as often as the
   * configuration does.
   */
  function Sections(bs: seq<EventBlueprint>): (r: seq<(string, seq<EventBlueprint>)>)
    ensures |r| == |AllSections|
    ensures forall k :: 0 <= k < |r| ==> r[k].0 == SectionTitle(AllSections[k])
    ensures forall k :: 0 <= k < |r| ==> r[k].1 == Filter(bs, AllSections[k])
    ensures multiset(r[0].1) + multiset(r[1].1) + multiset(r[2].1) == multiset(bs)
  {
    SectionsPartition(bs);
    seq(|AllSections|, k requires 0 <= k < |AllSections| => (SectionTitle(AllSections[k]), Filter(bs, AllSections[k])))
  }

  // ---------------------------------------------------------------------
  // Toggling and display

  /** The type a tap gives: the next frequency, or the timed trigger switched. */
  function Toggled(kind: EventType): (r: EventType)
  {
    match kind
    case Single(f) => Single(Next(f))
    case Repeatable(f) => Repeatable(Next(f))
    case Timed(t, enabled) => Timed(t, !enabled)
  }

  /** `k` taps in a row. */
  function ToggledTimes(kind: EventType, k: nat): EventType
  {
    if k == 0 then kind else Toggled(ToggledTimes(kind, k - 1))
  }

  /**
   * A tap keeps the kind of a blueprint; four taps bring a single or
   * repeatable blueprint back to its frequency, two taps a timed one back to
   * its setting.
   */
  lemma ToggleCycles(kind: EventType)
    ensures Toggled(kind).Single? == kind.Single? && Toggled(kind).Repeatable? == kind.Repeatable?
    ensures kind.Timed? ==> Toggled(kind).time == kind.time && Toggled(kind).isEnabled != kind.isEnabled
    ensures !kind.Timed? ==> ToggledTimes(kind, 4) == kind
    ensures kind.Timed? ==> ToggledTimes(kind, 2) == kind
  {
    if !kind.Timed? {
      NextCycles();
      var f := kind.frequency;
      assert f == Off || f == Low || f == Medium || f == High;
    } else {
      assert ToggledTimes(kind, 1) == Toggled(kind);
    }
  }

  /**
   * `valueDisplay(for:)`. `timeDisplay` stands for `Int(time).timeFormatted`,
   * a Foundation formatter that is not part of this model.
   */
  function ValueDisplay(b: EventBlueprint, timeDisplay: Option<string>): (r: string)
    ensures !b.kind.Timed? ==> r == Display(b.kind.frequency)
    ensures b.kind.Timed? && !(b.kind.isEnabled && timeDisplay.Some?) ==> r == "Off"
    ensures b.kind.Timed? && b.kind.isEnabled && timeDisplay.Some? ==> r == "On (" + timeDisplay.value + ")"
  {
    match b.kind
    case Single(f) => Display(f)
    case Repeatable(f) => Display(f)
    case Timed(_, enabled) =>
      if enabled && timeDisplay.Some? then "On (" + timeDisplay.value + ")" else "Off"
  }

  /** A disabled timed blueprint reads "Off", like a blueprint with frequency off, and an enabled one never does. */
  lemma OffDisplays(b: EventBlueprint, timeDisplay: Option<string>)
    ensures ValueDisplay(b, timeDisplay) == "Off" <==>
      if b.kind.Timed? then !(b.kind.isEnabled && timeDisplay.Some?) else b.kind.frequency == Off
  {
    if b.kind.Timed? && b.kind.isEnabled && timeDisplay.Some? {
      assert ValueDisplay(b, timeDisplay)[0] == 'O' && ValueDisplay(b, timeDisplay)[1] == 'n';
    }
  }

  // ---------------------------------------------------------------------
  // The view model

  class EventConfigurationViewModel {
    var configuration: Configuration
    const configurationService: ConfigurationService<Configuration>

    constructor(service: ConfigurationService<Configuration>)
      ensures configurationService == service && configuration == service.configuration
    {
      configurationService := service;
      configuration := service.configuration;
    }

    /**
     * `frequencyToggled(for:)`: the first list entry equal to `blueprint` is
     * replaced by a new blueprint, with identity `freshId`, of the toggled
     * type. A blueprint not in the list changes nothing and saves nothing.
     */
    method FrequencyToggled(blueprint: EventBlueprint, freshId: nat)
      modifies this`configuration, configurationService
      ensures blueprint !in old(configuration.blueprints) ==>
        && configuration == old(configuration)
        && configurationService.configuration == old(configurationService.configuration)
        && configurationService.saveCount == old(configurationService.saveCount)
      ensures blueprint in old(configuration.blueprints) ==>
        && var i := CaseWrappable.FirstIndexOf(old(configuration.blueprints), blueprint);
        && configuration == old(configuration).(blueprints := old(configuration.blueprints)[i := ChangeType(blueprint, Toggled(blueprint.kind), freshId)])
        && configurationService.configuration == configuration
        && configurationService.saveCount == old(configurationService.saveCount) + 1
    {
      if blueprint !in configuration.blueprints {
        return;
      }
      var i := CaseWrappable.FirstIndexOf(configuration.blueprints, blueprint);
      var kind := Toggled(blueprint.kind);
      configuration := configuration.(blueprints := configuration.blueprints[i := ChangeType(blueprint, kind, freshId)]);
      configurationService.SetConfiguration(configuration);
    }
  }
}
