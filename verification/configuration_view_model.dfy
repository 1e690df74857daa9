/**
 * `ConfigurationViewModel`: the settings screen of the current app. It lists
 * the configuration properties (input, stepper and toggle rows) and applies
 * the user's edits to its copy of the configuration, saving each edit.
 */
module ConfigurationScreens {
  import opened Strings
  import CaseWrappable
  import Voices
  import opened Configurations

  // ---------------------------------------------------------------------
  // `BooleanToggle`

  datatype BooleanToggle = Yes | No

  /** `allCases`, in declaration order. */
  const AllToggles: seq<BooleanToggle> := [Yes, No]

  /** `BooleanToggle.init(_:)`. */
  function ToggleOf(value: bool): (t: BooleanToggle)
    ensures t in AllToggles
  {
    if value then Yes else No
  }

  function ToggleValue(t: BooleanToggle): bool
  {
    t == Yes
  }

  function ToggleDisplay(t: BooleanToggle): string
  {
    match t
    case Yes => "YES"
    case No => "NO"
  }

  function NextToggle(t: BooleanToggle): (r: BooleanToggle)
  {
    assert t == AllToggles[if t == Yes then 0 else 1];
    CaseWrappable.Next(AllToggles, t)
  }

  /** Building a toggle from a boolean and reading it back gives the boolean; distinct toggles display differently. */
  lemma ToggleRoundTrip(value: bool, t: BooleanToggle)
    ensures ToggleValue(ToggleOf(value)) == value && ToggleOf(ToggleValue(t)) == t
    ensures ToggleDisplay(t) != ToggleDisplay(NextToggle(t))
  {
    ToggleFlips(ToggleValue(t));
  }

  /** `next` of the toggle built from a boolean carries the negated boolean. */
  lemma ToggleFlips(value: bool)
    ensures ToggleValue(NextToggle(ToggleOf(value))) == !value
  {
    assert CaseWrappable.Distinct(AllToggles);
    if value {
      CaseWrappable.NextOfOther(AllToggles, 0);
    } else {
      CaseWrappable.NextOfLast(AllToggles);
    }
  }

  // ---------------------------------------------------------------------
  // `configurationProperties`

  const EventsKey: string := "events"
  const EventsPerRoundKey: string := "eventsPerRound"
  const MaxRoundTimeKey: string := "maxRoundTime"
  const MinRoundTimeKey: string := "minRoundTime"
  const PlayersKey: string := "players"
  const ShowCountdownKey: string := "showCountdown"
  const SpeakerKey: string := "speakerKey"

  /** The option a toggle row shows. */
  datatype ToggleOption = BooleanOption(toggle: BooleanToggle) | VoiceOption(voice: Voices.Voice)

  datatype ConfigurationProperty =
    | InputProperty(id: string, title: string)
    | IncrementProperty(id: string, title: string, increment: int, minimum: int, maximum: int, currentValue: int)
    | ToggleProperty(id: string, title: string, currentOption: ToggleOption)

  /** `10.minutes`. */
  const LongestRound := 600

  /** The rows of the screen, in order. */
  function ConfigurationProperties(c: Configuration): (ps: seq<ConfigurationProperty>)
    ensures |ps| == 7
    ensures forall i, j :: 0 <= i < j < |ps| ==> ps[i].id != ps[j].id
  {
    [ InputProperty(EventsKey, "Events"),
      InputProperty(PlayersKey, "Players"),
      IncrementProperty(EventsPerRoundKey, "Events / Round", 1, 1, 10, c.eventsPerRound),
      IncrementProperty(MinRoundTimeKey, "Min Round Time", 30, 30, c.maxRoundTime, c.minRoundTime),
      IncrementProperty(MaxRoundTimeKey, "Max Round Time", 30, c.minRoundTime, LongestRound, c.maxRoundTime),
      ToggleProperty(ShowCountdownKey, "Show Countdown", BooleanOption(ToggleOf(c.showCountdown))),
      ToggleProperty(SpeakerKey, "Speaker Voice", VoiceOption(c.voice)) ]
  }

  /** The players row shows the number of players. */
  function PlayersDisplay(c: Configuration): string
  {
    DecimalString(|c.players|)
  }

  /** The configuration the steppers advertise: 1 to 10 events, 30 s to 10 min, minimum at most maximum. */
  predicate WithinBounds(c: Configuration)
  {
    && 1 <= c.eventsPerRound <= 10
    && 30 <= c.minRoundTime <= c.maxRoundTime <= LongestRound
  }

  /** `incrementPropertyChanged`: the field named by the row's id takes the new value. */
  function SetIncrement(c: Configuration, id: string, value: int): (r: Configuration)
    ensures id == EventsPerRoundKey ==> r == c.(eventsPerRound := value)
    ensures id == MaxRoundTimeKey ==> r == c.(maxRoundTime := value)
    ensures id == MinRoundTimeKey ==> r == c.(minRoundTime := value)
    ensures id !in {EventsPerRoundKey, MaxRoundTimeKey, MinRoundTimeKey} ==> r == c
  {
    if id == EventsPerRoundKey then c.(eventsPerRound := value)
    else if id == MaxRoundTimeKey then c.(maxRoundTime := value)
    else if id == MinRoundTimeKey then c.(minRoundTime := value)
    else c
  }

  /**
   * A stepper value inside the bounds its row advertises keeps the
   * configuration within bounds; in particular the minimum round time never
   * passes the maximum.
   */
  lemma StepperKeepsBounds(c: Configuration, k: nat, value: int)
    requires WithinBounds(c) && k < 7
    requires ConfigurationProperties(c)[k].IncrementProperty?
    requires ConfigurationProperties(c)[k].minimum <= value <= ConfigurationProperties(c)[k].maximum
    ensures WithinBounds(SetIncrement(c, ConfigurationProperties(c)[k].id, value))
  {
    var p := ConfigurationProperties(c)[k];
    assert k == 2 || k == 3 || k == 4;
  }

  /** `players.firstIndex(of:)` and `remove(at:)`: the first occurrence of `name` goes, the rest keep their order. */
  function RemoveFirst(players: seq<string>, name: string): (r: seq<string>)
    requires name in players
    ensures |r| == |players| - 1
    ensures multiset(r) == multiset(players) - multiset{name}
    ensures var i := CaseWrappable.FirstIndexOf(players, name);
      r[..i] == players[..i] && r[i..] == players[i + 1..]
  {
    var i := CaseWrappable.FirstIndexOf(players, name);
    assert players == players[..i] + [name] + players[i + 1..];
    players[..i] + players[i + 1..]
  }

  /** `PlayersView.Action`. */
  datatype PlayerAction = DoneButtonSelected | PlayerAdded(name: string) | PlayerRemoved(name: string)

  // ---------------------------------------------------------------------
  // The view model

  class ConfigurationViewModel {
    var configuration: Configuration
    /** The input row being edited, if any. */
    var inputProperty: Option<string>
    const configurationService: ConfigurationService<Configuration>

    constructor(service: ConfigurationService<Configuration>)
      ensures configurationService == service && configuration == service.configuration
      ensures inputProperty == None
    {
      configurationService := service;
      configuration := service.configuration;
      inputProperty := None;
    }

    /** The players sheet is shown exactly while the players row is being edited. */
    function ShouldShowPlayers(): bool
      reads this
    {
      inputProperty == Some(PlayersKey)
    }

    method ScreenAppeared()
      modifies this`configuration
      ensures configuration == configurationService.configuration
    {
      configuration := configurationService.configuration;
    }

    method IncrementPropertyChanged(property: ConfigurationProperty, newValue: int)
      requires property.IncrementProperty?
      modifies this`configuration, configurationService
      ensures configuration == SetIncrement(old(configuration), property.id, newValue)
      ensures configurationService.configuration == configuration
      ensures configurationService.saveCount == old(configurationService.saveCount) + 1
      ensures inputProperty == old(inputProperty)
    {
      configuration := SetIncrement(configuration, property.id, newValue);
      configurationService.SetConfiguration(configuration);
    }

    /**
     * `inputPropertySelected`: the events row asks the coordinator for the
     * event screen (reported as `openEvents`), the players row starts editing.
     */
    method InputPropertySelected(property: ConfigurationProperty) returns (openEvents: bool)
      requires property.InputProperty?
      modifies this`inputProperty
      ensures openEvents <==> property.id == EventsKey
      ensures inputProperty == if property.id == PlayersKey then Some(PlayersKey) else old(inputProperty)
    {
      openEvents := false;
      if property.id == EventsKey {
        openEvents := true;
      } else if property.id == PlayersKey {
        inputProperty := Some(property.id);
      }
    }

    method PlayerActionSelected(action: PlayerAction)
      modifies this`configuration, this`inputProperty, configurationService
      ensures action.PlayerRemoved? && action.name !in old(configuration.players) ==>
        && configuration == old(configuration) && inputProperty == old(inputProperty)
        && configurationService.configuration == old(configurationService.configuration)
        && configurationService.saveCount == old(configurationService.saveCount)
      ensures !(action.PlayerRemoved? && action.name !in old(configuration.players)) ==>
        && configurationService.configuration == configuration
        && configurationService.saveCount == old(configurationService.saveCount) + 1
      ensures action.PlayerAdded? ==>
        configuration == old(configuration).(players := old(configuration.players) + [action.name])
        && inputProperty == old(inputProperty)
      ensures action.PlayerRemoved? && action.name in old(configuration.players) ==>
        configuration == old(configuration).(players := RemoveFirst(old(configuration.players), action.name))
        && inputProperty == old(inputProperty)
      ensures action.DoneButtonSelected? ==> configuration == old(configuration) && inputProperty == None
    {
      match action {
        case PlayerAdded(name) =>
          configuration := configuration.(players := configuration.players + [name]);
        case PlayerRemoved(name) =>
          if name !in configuration.players {
            return;
          }
          configuration := configuration.(players := RemoveFirst(configuration.players, name));
        case DoneButtonSelected =>
          inputProperty := None;
      }
      configurationService.SetConfiguration(configuration);
    }

    method InputPropertyDismissed()
      modifies this`inputProperty
      ensures inputProperty == None
    {
      inputProperty := None;
    }

    /**
     * `togglePropertyChanged`. `voices` stands for `Voice.allCases` and
     * `speechVoiceFound` for whether the system can build a speech voice
     * from the next voice's identifier; speaking it is not part of this model.
     */
    method TogglePropertyChanged(property: ConfigurationProperty, voices: seq<Voices.Voice>, speechVoiceFound: bool)
      requires property.ToggleProperty?
      requires property.id == SpeakerKey && property.currentOption.VoiceOption? ==> property.currentOption.voice in voices
      modifies this`configuration, configurationService
      ensures property.id == ShowCountdownKey && property.currentOption.BooleanOption? ==>
        configuration == old(configuration).(showCountdown := ToggleValue(NextToggle(property.currentOption.toggle)))
      ensures property.id == SpeakerKey && property.currentOption.VoiceOption? && speechVoiceFound ==>
        configuration == old(configuration).(voice := CaseWrappable.Next(voices, property.currentOption.voice))
      ensures (!(property.id == ShowCountdownKey && property.currentOption.BooleanOption?)
               && !(property.id == SpeakerKey && property.currentOption.VoiceOption? && speechVoiceFound)) ==>
        configuration == old(configuration)
      ensures configurationService.configuration == configuration
      ensures configurationService.saveCount == old(configurationService.saveCount) + 1
      ensures inputProperty == old(inputProperty)
    {
      if property.id == ShowCountdownKey {
        if property.currentOption.BooleanOption? {
          configuration := configuration.(showCountdown := ToggleValue(NextToggle(property.currentOption.toggle)));
        }
      } else if property.id == SpeakerKey {
        if property.currentOption.VoiceOption? && speechVoiceFound {
          configuration := configuration.(voice := CaseWrappable.Next(voices, property.currentOption.voice));
        }
      }
      configurationService.SetConfiguration(configuration);
    }

    /** `defaultsButtonSelected`; `Configuration.default` is given as `defaults`. */
    method DefaultsButtonSelected(defaults: Configuration)
      modifies this`configuration, configurationService
      ensures configuration == defaults && configurationService.configuration == defaults
      ensures configurationService.saveCount == old(configurationService.saveCount) + 1
      ensures inputProperty == old(inputProperty)
    {
      configuration := defaults;
      configurationService.SetConfiguration(configuration);
    }
  }

  /** Toggling the show-countdown row, as the screen lists it, flips the setting. */
  lemma ShowCountdownToggleFlips(c: Configuration)
    ensures var p := ConfigurationProperties(c)[5];
      && p.id == ShowCountdownKey && p.currentOption.BooleanOption?
      && ToggleValue(NextToggle(p.currentOption.toggle)) == !c.showCountdown
  {
    ToggleFlips(c.showCountdown);
  }
}
