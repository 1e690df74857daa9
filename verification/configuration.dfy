/**
 * The game configuration of the current app and the service that holds it.
 * `Configuration` itself (its fields and its `.default`) is not part of this
 * model; its fields are the ones the game service and the configuration
 * screens read and write. The service keeps the configuration in memory and
 * counts the writes, so that "nothing was saved" can be stated.
 */
module Configurations {
  import opened Blueprints
  import Voices

  datatype Configuration = Configuration(
    players: seq<string>,
    minRoundTime: int,
    maxRoundTime: int,
    eventsPerRound: int,
    blueprints: seq<EventBlueprint>,
    showCountdown: bool,
    voice: Voices.Voice)

  /** `ConfigurationService`, with `UserDefaults` replaced by a field; generic in the configuration type. */
  class ConfigurationService<C> {
    var configuration: C
    /** How many times `setConfiguration` has run. */
    var saveCount: nat

    constructor(initial: C)
      ensures configuration == initial && saveCount == 0
    {
      configuration := initial;
      saveCount := 0;
    }

    method GetConfiguration() returns (c: C)
      ensures c == configuration
    {
      c := configuration;
    }

    method SetConfiguration(c: C)
      modifies this
      ensures configuration == c && saveCount == old(saveCount) + 1
    {
      configuration := c;
      saveCount := saveCount + 1;
    }
  }
}
