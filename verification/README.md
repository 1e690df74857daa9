# Turbo Time: a Dafny model of the round and event engine

Turbo Time (earlier named Turbo Man Challenge) is a party game app. A
round counts down for a random number of seconds between a configured
minimum and maximum. When it runs out, the app shows a batch of
"events": short challenges drawn from a weighted pool of blueprints,
with player names and sometimes a random number filled in. Timed
blueprints can also fire at a fixed second of the session clock.

This project models the app's core logic in Dafny and proves properties
about it. There are four generations of the engine:

- the current `GameService`, with a used-singles set (`GameServices`);
- the earlier `GameService` and `Game`, which remove single-use entries
  from the pool array in place (`LegacyEngines`);
- the oldest `GameManager` and the first SwiftUI `Game`, which format
  `%@` messages for two distinct players and queue them
  (`MessageEngines`).

Around the engines sit the screens' logic, each in its own module:

- `ConfigurationScreens` and `EventConfigurationScreens`: editing the
  configuration and the per-blueprint frequencies.
- `CaseWrappable` and `EventFrequencies`: the wrap-around `next` and
  the frequency weights.
- `Speech`: bracket stripping for speech.
- `EventScreens` and `EventViews`: the event queues and their
  highlighted text.
- `Incrementers`, `DigitKeyboard`, `SettingsScreens` and `Steppers`:
  the bounded integer steppers of all three app versions and the
  settings rule that keeps the shortest round no longer than the
  longest.
- `Coordinators`: the navigation coordinator and its dismiss order.
- `Voices`: the English-voice filter.
- `Events` and `Blueprints`: event instantiation, rendering and
  blueprint identity.

Classes whose fields the app updates in place are Dafny classes with
`modifies` frames, and their methods are stated against specification
functions. The pure parts are functions, with lemmas about them.

Things the app takes from outside are handled as follows:

- The timer becomes an explicit `Tick` method, callable while the
  `timerActive` flag is set.
- `Int.random` and `shuffled()` become nondeterministic choice (`:|`),
  or values the caller supplies within the source's range.
- Persistence becomes in-memory state. `ConfigurationService` keeps the
  stored configuration and a count of saves, so "nothing was saved" can
  be stated.
- An `IncrementerView` delegate's answer is passed in as `approval`.
  `None` means there is no delegate, and that blocks a change just as a
  refusal does.

Notes on how the source's traps and shared code are modelled:

- The app reports no errors. Its traps are preconditions:
  - a random range needs minimum <= maximum;
  - a draw needs a non-empty pool (`CanDraw` / `Feasible` give the exact
    condition for a whole round);
  - `Dictionary(uniqueKeysWithValues:)` needs distinct trigger seconds;
  - the oldest engines need at least two players.
- `Event.init`'s silent truncation on a short roster is stated as
  observed behaviour (`Events.ShortRoster`).
- Two pairs of near-identical source files share one model:
  - `EventScreens.EventViewModel` models both `EventViewModel`s, which
    differ only in how they speak. TurboManChallenge/Sources/Screens/Event/EventViewModel.swift:15-95
    matches TurboTime/Sources/Screens/Event/EventViewModel.swift:16-103
    line for line apart from speech.
  - The two legacy engines draw through one `LegacyEngines.GenerateFromPool`.
  - The two message engines draw through one
    `MessageEngines.GenerateMessages`.

## Model

| member | source | states |
|---|---|---|
| CaseWrappable.FirstIndexOf | TurboManChallenge/Sources/Models/CaseWrappable.swift:19 | the index found holds the case and no earlier index does |
| CaseWrappable.NextOfLast | TurboManChallenge/Sources/Models/CaseWrappable.swift:17-21 | with distinct cases, `next` of the last case wraps to the first |
| CaseWrappable.NextOfOther | TurboManChallenge/Sources/Models/CaseWrappable.swift:17-21 | with distinct cases, `next` of any other case is the case at the following index |
| CaseWrappable.IterateIndex | TurboManChallenge/Sources/Models/CaseWrappable.swift:17-21 | k applications of `next` (k at most the number of cases) move k positions, wrapping once |
| CaseWrappable.FullCycle | TurboManChallenge/Sources/Models/CaseWrappable.swift:17-21 | applying `next` once per case returns to the starting case |
| EventFrequencies.RawValue | TurboTime/Sources/Models/Event/EventFrequency.swift:13-17 | the raw value is the case's position in `allCases` |
| EventFrequencies.NextCycles | TurboTime/Sources/Models/Event/EventFrequency.swift:13-17 | `next` goes off, low, medium, high, then back to off |
| EventFrequencies.NextFourTimes | TurboTime/Sources/Models/Event/EventFrequency.swift:13-17 | four applications of `next` give back any frequency |
| EventFrequencies.RawValueOrder | TurboTime/Sources/Models/Event/EventFrequency.swift:14-17 | only `off` has weight 0, and the weights increase strictly in declaration order |
| EventFrequencies.DisplayInjective | TurboTime/Sources/Models/Event/EventFrequency.swift:19-26 | two frequencies have the same display text exactly when they are equal |
| Speech.SpeechIsWithout | TurboTime/Sources/Extensions/String+Extensions.swift:10-14 | the two replacements delete exactly the `[` and `]` characters and keep everything else in order |
| Speech.SpeechProperties | TurboTime/Sources/Extensions/String+Extensions.swift:10-14 | the result has no brackets, formatting twice equals formatting once, bracket-free text is unchanged, and the length drops by the number of brackets |
| Blueprints.ChangeType | TurboTime/Sources/Screens/EventConfiguration/EventConfigurationViewModel.swift:81-87 | the new blueprint keeps text and number range, takes the new type, and has a fresh identity |
| Events.Event.Text | TurboManChallenge/Sources/Models/Event.swift:19-30 | the loop's result is the rendered text: names go in while `[player]` remains and names are left, then every `[number]` becomes the number |
| Events.Init | TurboManChallenge/Sources/Models/Event.swift:34-46 | the event keeps the blueprint, has a number exactly when the blueprint has a range, with the number inside it, and takes a prefix of the shuffled roster of length min(placeholders, roster) |
| Events.Shuffled | TurboManChallenge/Sources/Models/Event.swift:45 | the shuffle is a permutation of the roster |
| Events.MakeEvent | TurboManChallenge/Sources/Models/Event.swift:34-46 | with a buildable range, the event built is an instance of the blueprint for that roster |
| Events.PlayersFromRoster | TurboManChallenge/Sources/Models/Event.swift:45 | every player is on the roster, and a roster without repeats gives players without repeats |
| Events.ShortRoster | TurboManChallenge/Sources/Models/Event.swift:44-45 | a short roster gives the whole roster and no error; a long enough roster fills every placeholder |
| Events.SubstitutionLeftToRight | TurboManChallenge/Sources/Models/Event.swift:20-25 | when names hold no `[` and every `[` of the template opens a placeholder, the loop fills the placeholders left to right with the names in order |
| Events.NameWithTokenIsRefilled | TurboManChallenge/Sources/Models/Event.swift:22-24 | a name that is itself `[player]` is found again and overwritten by the next name |
| Events.NoPlaceholdersUnchanged | TurboManChallenge/Sources/Models/Event.swift:19-30 | a template with no placeholders renders as written |
| Events.NumberFilledEverywhere | TurboManChallenge/Sources/Models/Event.swift:26-28 | with a number, every `[number]` is replaced by its decimal digits; without one, the text is left as the name loop made it |
| Voices.Insert | TurboTime/Sources/Models/Voice.swift:32-34 | inserting keeps every voice exactly once (multiset) |
| Voices.InsertSorted | TurboTime/Sources/Models/Voice.swift:32-34 | inserting into a name-sorted list keeps it sorted |
| Voices.SortByName | TurboTime/Sources/Models/Voice.swift:32-34 | the sorted list is a permutation of the installed voices |
| Voices.SortByNameSorted | TurboTime/Sources/Models/Voice.swift:32-34 | the sorted list is ordered by name |
| Voices.AllCases | TurboTime/Sources/Models/Voice.swift:30-39 | the loop that walks the sorted list with a growing name set returns what the filter specification keeps |
| Voices.KeptFromEnglishInput | TurboTime/Sources/Models/Voice.swift:35-37 | every returned voice has an identifier containing "en-", a name not taken before, and the id and name of an input voice |
| Voices.KeptNamesDistinct | TurboTime/Sources/Models/Voice.swift:31-36 | the returned display names are pairwise distinct |
| Voices.KeptAscending | TurboTime/Sources/Models/Voice.swift:32-36 | on name-sorted input the returned names strictly increase |
| Voices.FirstOfEachNameKept | TurboTime/Sources/Models/Voice.swift:35-37 | for each English name, the first voice of that name in sorted order is the one kept |
| Voices.AllCasesProperties | TurboTime/Sources/Models/Voice.swift:30-39 | `allCases` returns only English installed voices, in strictly increasing name order |
| Configurations.ConfigurationService.GetConfiguration | TurboTime/Sources/Services/ConfigurationService.swift:33-35 | reading returns the stored configuration |
| Configurations.ConfigurationService.SetConfiguration | TurboTime/Sources/Services/ConfigurationService.swift:37-39 | writing stores the configuration and counts one save |
| GameServices.Copies | TurboTime/Sources/Services/GameService.swift:48-49 | `Array(repeating:count:)` holds `count` copies of the blueprint and nothing else |
| GameServices.RoundPoolCount | TurboTime/Sources/Services/GameService.swift:43-54 | each blueprint occurs in the pool (listings × weight) times: the frequency's raw value when single or repeatable and not yet used, 0 when used or timed |
| GameServices.RoundPoolMembers | TurboTime/Sources/Services/GameService.swift:43-54 | a blueprint is in the pool exactly when it is configured and has a positive weight |
| GameServices.TimedTable | TurboTime/Sources/Services/GameService.swift:55-62 | with distinct trigger seconds, the table maps each enabled timed blueprint's second to that blueprint, and holds nothing else |
| GameServices.PoolNonEmpty | TurboTime/Sources/Services/GameService.swift:134-136 | when a round can be drawn, the pool the first draw reads is not empty, so `Int.random(in: 0..<count)` does not trap |
| GameServices.DrawKeepsCanDraw | TurboTime/Sources/Services/GameService.swift:134-139 | after drawing any pool entry, the remaining draws of the round can still be made |
| GameServices.ValidDrawsAppend | TurboTime/Sources/Services/GameService.swift:134-139 | a draw from the current pool extends a valid draw sequence, and the used set grows by the drawn single |
| GameServices.UsedAfterGrows | TurboTime/Sources/Services/GameService.swift:138 | the used set only grows, and every drawn single is in it afterwards |
| GameServices.DrawsRespectUse | TurboTime/Sources/Services/GameService.swift:43-139 | every drawn blueprint is configured, not used before, not timed and not off, and no single blueprint is drawn twice |
| GameServices.GameService.constructor | TurboTime/Sources/Services/GameService.swift:35-74 | a new service starts idle at time 0 with no used singles and no timer |
| GameServices.GameService.RoundEventBlueprints | TurboTime/Sources/Services/GameService.swift:43-54 | the loop builds exactly the weighted pool of the configured blueprints |
| GameServices.GameService.Stop | TurboTime/Sources/Services/GameService.swift:111-115 | the timer stops, the countdown is cleared and the state is idle; clock and used singles are kept |
| GameServices.GameService.Reset | TurboTime/Sources/Services/GameService.swift:120-122 | only the state changes, to idle |
| GameServices.GameService.Start | TurboTime/Sources/Services/GameService.swift:84-89 | the round length is within the configured range, the state counts down from it and the timer runs; clock and used singles are kept |
| GameServices.GameService.GenerateEvent | TurboTime/Sources/Services/GameService.swift:148-153 | the event is an instance of the blueprint for the configured players |
| GameServices.GameService.GenerateRoundEvents | TurboTime/Sources/Services/GameService.swift:133-141 | exactly `eventsPerRound` events, each an instance of a blueprint drawn from the pool as it stood at that draw; drawn singles are added to the used set |
| GameServices.GameService.Tick | TurboTime/Sources/Services/GameService.swift:95-106 | the clock advances one second; the end of the countdown wins over a timed blueprint due at the same second and gives a full round: each event an instance of a blueprint validly drawn from the pool as it stood, with the used set growing by exactly the drawn singles; otherwise an enabled timed blueprint due now stops the countdown and gives one event; otherwise the countdown goes on |
| GameServices.SinglesNotRedrawn | TurboTime/Sources/Services/GameService.swift:43-54 | a single blueprint drawn in one round is never drawn in a later round of the same session, because the pool skips the used set the earlier round grew |
| GameServices.FiringsAreDistinct | TurboTime/Sources/Services/GameService.swift:96-102 | because the session clock never goes back, no second fires a timed blueprint twice |
| LegacyEngines.BuildPool | TurboManChallenge/Sources/Services/GameService.swift:56-64 | the initializer's loop builds exactly the initial pool: one entry per single, the weight per repeatable, none per timed |
| LegacyEngines.InitialPoolCount | TurboManChallenge/Sources/Services/GameService.swift:56-63 | each blueprint occurs in the initial pool (listings × its initial weight) times |
| LegacyEngines.InitialPoolSinglesOnce | TurboManChallenge/Sources/Services/GameService.swift:59 | a blueprint list without repeated singles gives a pool without repeated singles |
| LegacyEngines.InitialPoolRanges | TurboManChallenge/Sources/Services/GameService.swift:56-63 | every pool entry is one of the listed blueprints, so buildable ranges stay buildable |
| LegacyEngines.TimedTable | TurboManChallenge/Sources/Services/GameService.swift:65-70 | with distinct trigger seconds, the table maps every timed blueprint's second to that blueprint and holds nothing else |
| LegacyEngines.SinglesOfCount | TurboManChallenge/Sources/Services/GameService.swift:135 | the singles of a draw sequence count each single as often as it was drawn, and nothing else |
| LegacyEngines.DrawFromPool | TurboManChallenge/Sources/Services/GameService.swift:132-136 | a random entry becomes an event that is an instance of it, and a single entry (only that one) is removed from the pool |
| LegacyEngines.DrawStep | TurboManChallenge/Sources/Services/GameService.swift:132-136 | after one draw, the pool plus the drawn singles is still the initial pool, the remaining draws stay possible, and nothing new enters the pool |
| LegacyEngines.GenerateFromPool | TurboManChallenge/Sources/Services/GameService.swift:130-138 | `count` events, each an instance of a pool entry; the pool loses exactly the drawn singles (multiset accounting) |
| LegacyEngines.DrawnSinglesGone | TurboManChallenge/Sources/Services/GameService.swift:135 | if each single was listed once, it still is, a drawn single is gone from the pool, and no single is drawn twice |
| LegacyEngines.GameService.constructor | TurboManChallenge/Sources/Services/GameService.swift:51-71 | the pool and the timed table are built from the blueprints; the service starts idle at time 0 |
| LegacyEngines.GameService.Stop | TurboManChallenge/Sources/Services/GameService.swift:108-112 | the timer stops, the countdown is cleared and the state is idle; clock and pool are kept |
| LegacyEngines.GameService.Reset | TurboManChallenge/Sources/Services/GameService.swift:117-119 | only the state changes, to idle |
| LegacyEngines.GameService.Start | TurboManChallenge/Sources/Services/GameService.swift:81-86 | the round length is within the configured range, the state counts down from it and the timer runs |
| LegacyEngines.GameService.GenerateRoundEvents | TurboManChallenge/Sources/Services/GameService.swift:130-138 | `eventsPerRound` events from the pool; the pool loses exactly the drawn singles, which are gone from it afterwards |
| LegacyEngines.GameService.Tick | TurboManChallenge/Sources/Services/GameService.swift:92-103 | the clock advances; the end of the countdown wins over a timed blueprint due at the same second and gives a full round: each event an instance of a blueprint from the old pool, the pool losing exactly the drawn singles, which are gone from it; otherwise a timed blueprint due now gives one event; otherwise the countdown goes on |
| LegacyEngines.SinglesNotRedrawn | TurboManChallenge/Sources/Services/GameService.swift:130-138 | a single blueprint drawn in one round is never drawn in the next round, which draws from the pool the first one left |
| LegacyEngines.Game.constructor | TurboManChallenge/Sources/Models/Game.swift:31-48 | the pool and the timed table are built from the blueprints, with no active events |
| LegacyEngines.Game.StartCountdown | TurboManChallenge/Sources/Models/Game.swift:58-62 | a running countdown is left alone; otherwise the round length is within the configured range and the timer runs |
| LegacyEngines.Game.StopCountdown | TurboManChallenge/Sources/Models/Game.swift:83-86 | the timer stops and the countdown is cleared; the active events stay |
| LegacyEngines.Game.GenerateRoundEvents | TurboManChallenge/Sources/Models/Game.swift:97-105 | `eventsPerRound` events from the pool; the pool loses exactly the drawn singles |
| LegacyEngines.Game.Tick | TurboManChallenge/Sources/Models/Game.swift:68-78 | the clock advances; a finished countdown gives, before any timed blueprint, a full round of active events, each an instance of a blueprint from the old pool, the pool losing exactly the drawn singles, which are gone from it; otherwise a timed blueprint due now gives one active event; otherwise the countdown goes on |
| MessageEngines.FormatShape | TurboManChallenge/GameManager.swift:131 | with at most two `%@`, the message is the text between the placeholders with the first name in the first and the second name in the second |
| MessageEngines.FillWithSeparator | TurboManChallenge/GameManager.swift:131 | filling every gap with the placeholder itself is the same as joining the pieces with it |
| MessageEngines.FormatWithTokens | TurboManChallenge/GameManager.swift:131 | formatting with `%@` as both arguments gives the template back, so substitution loses no text |
| MessageEngines.SelectPlayer | TurboManChallenge/GameManager.swift:137-141 | the name returned is the one at the chosen index, and exactly that entry leaves the list |
| MessageEngines.ComposeMessage | TurboManChallenge/GameManager.swift:129-131 | the message is the event text formatted with the players at two different roster positions |
| MessageEngines.OnceOfCount | TurboManChallenge/GameManager.swift:132 | the non-repeatable events of a draw sequence count each such event as often as it was drawn |
| MessageEngines.DrawStep | TurboManChallenge/GameManager.swift:127-132 | after one draw, the pool plus the drawn non-repeatable events is still the original pool, and the remaining draws stay possible |
| MessageEngines.GenerateMessages | TurboManChallenge/GameManager.swift:125-134 | `count` messages, each formatted from an event of the pool with two different players; the pool loses exactly the drawn non-repeatable events |
| MessageEngines.DrawnOnceGone | TurboManChallenge/GameManager.swift:132 | if each non-repeatable event was listed once, a drawn one is gone from the pool and none is drawn twice |
| MessageEngines.GameManager.constructor | TurboManChallenge/GameManager.swift:26-81 | 10 seconds remaining, no queued messages, and the default settings: timer hidden, 5 to 10 minutes, one event per round |
| MessageEngines.GameManager.StartRound | TurboManChallenge/GameManager.swift:103-108 | the round is a whole number of minutes in the configured range, reported in seconds, and the timer runs |
| MessageEngines.GameManager.Tick | TurboManChallenge/GameManager.swift:110-120 | one second less; the round is over, and the timer stops, exactly when 0 is reached |
| MessageEngines.GameManager.GenerateEvents | TurboManChallenge/GameManager.swift:123-135 | `eventsPerRound` messages are queued after the waiting ones; the event list loses exactly the drawn non-repeatable events |
| MessageEngines.GameManager.NextEvent | TurboManChallenge/GameManager.swift:143-147 | nil exactly when the queue is empty; otherwise the oldest message, removed from the queue |
| MessageEngines.Game.constructor | TurboManChallenge/TurboManChallenge/Sources/Models/Game.swift:33-38 | players, pool and preferences as given; no countdown and no events |
| MessageEngines.Game.StartCountdown | TurboManChallenge/TurboManChallenge/Sources/Models/Game.swift:45-59 | a running countdown is left alone; otherwise the countdown is within the preferred range and the timer runs |
| MessageEngines.Game.StopCountdown | TurboManChallenge/TurboManChallenge/Sources/Models/Game.swift:61-66 | the timer stops and the countdown is 0 |
| MessageEngines.Game.GenerateEvents | TurboManChallenge/TurboManChallenge/Sources/Models/Game.swift:73-89 | `eventsPerRound` messages from the pool, each with two different players; the pool loses exactly the drawn non-repeatable events |
| MessageEngines.Game.Tick | TurboManChallenge/TurboManChallenge/Sources/Models/Game.swift:52-57 | one second less; at 0 the timer stops and a full round of messages replaces the events, each formatted from an event of the old pool with two different players of the unchanged roster, the pool losing exactly the drawn non-repeatable events; before that nothing else changes |
| MessageEngines.OnceNotRedrawn | TurboManChallenge/TurboManChallenge/Sources/Models/Game.swift:73-89 | a non-repeatable event drawn in one round is never drawn in the next round, which draws from the pool the first one left |
| ConfigurationScreens.ToggleOf | TurboTime/Sources/Screens/Configuration/ConfigurationViewModel.swift:57-64 | the toggle built from a boolean is one of the two cases |
| ConfigurationScreens.ToggleRoundTrip | TurboTime/Sources/Screens/Configuration/ConfigurationViewModel.swift:57-76 | `init(_:)` and `value` are inverse both ways; a toggle and its `next` display differently ("YES" / "NO") |
| ConfigurationScreens.ToggleFlips | TurboTime/Sources/Screens/Configuration/ConfigurationViewModel.swift:57-76 | `next` of the toggle for a boolean carries the negated boolean |
| ConfigurationScreens.ConfigurationProperties | TurboTime/Sources/Screens/Configuration/ConfigurationViewModel.swift:82-137 | the screen lists seven rows with pairwise distinct ids |
| ConfigurationScreens.SetIncrement | TurboTime/Sources/Screens/Configuration/ConfigurationViewModel.swift:171-177 | exactly the field named by the row id takes the value; an unknown id changes nothing |
| ConfigurationScreens.StepperKeepsBounds | TurboTime/Sources/Screens/Configuration/ConfigurationViewModel.swift:95-124 | a value inside the range a stepper row advertises keeps 1-10 events and 30 s <= minimum <= maximum <= 10 min |
| ConfigurationScreens.RemoveFirst | TurboTime/Sources/Screens/Configuration/ConfigurationViewModel.swift:193-195 | one fewer player: the first occurrence of the name goes and the others keep their order |
| ConfigurationScreens.ConfigurationViewModel.constructor | TurboTime/Sources/Screens/Configuration/ConfigurationViewModel.swift:151-160 | the configuration is the stored one and no input row is being edited |
| ConfigurationScreens.ConfigurationViewModel.ScreenAppeared | TurboTime/Sources/Screens/Configuration/ConfigurationViewModel.swift:167-169 | the configuration is reloaded from the store |
| ConfigurationScreens.ConfigurationViewModel.IncrementPropertyChanged | TurboTime/Sources/Screens/Configuration/ConfigurationViewModel.swift:171-179 | the named field changes and the configuration is saved once |
| ConfigurationScreens.ConfigurationViewModel.InputPropertySelected | TurboTime/Sources/Screens/Configuration/ConfigurationViewModel.swift:181-187 | the events row opens the event screen, the players row starts editing, any other row does nothing |
| ConfigurationScreens.ConfigurationViewModel.PlayerActionSelected | TurboTime/Sources/Screens/Configuration/ConfigurationViewModel.swift:189-200 | add appends, remove drops the first occurrence, done ends editing; each saves once, except removing an absent player, which changes and saves nothing |
| ConfigurationScreens.ConfigurationViewModel.InputPropertyDismissed | TurboTime/Sources/Screens/Configuration/ConfigurationViewModel.swift:202-204 | no input row is being edited |
| ConfigurationScreens.ConfigurationViewModel.TogglePropertyChanged | TurboTime/Sources/Screens/Configuration/ConfigurationViewModel.swift:206-218 | show-countdown takes the next toggle's value, the speaker takes the next voice only when a speech voice exists, anything else is unchanged; always saved once |
| ConfigurationScreens.ConfigurationViewModel.DefaultsButtonSelected | TurboTime/Sources/Screens/Configuration/ConfigurationViewModel.swift:220-223 | the default configuration is adopted and saved |
| ConfigurationScreens.ShowCountdownToggleFlips | TurboTime/Sources/Screens/Configuration/ConfigurationViewModel.swift:125-130 | toggling the show-countdown row as listed flips the setting |
| EventConfigurationScreens.Filter | TurboTime/Sources/Screens/EventConfiguration/EventConfigurationViewModel.swift:22-39 | a section holds only blueprints of the list that belong to it |
| EventConfigurationScreens.FilterCount | TurboTime/Sources/Screens/EventConfiguration/EventConfigurationViewModel.swift:22-39 | a blueprint occurs in its section as often as in the list, and in no other section |
| EventConfigurationScreens.SectionsPartition | TurboTime/Sources/Screens/EventConfiguration/EventConfigurationViewModel.swift:17-39 | the three sections together hold exactly the configured blueprints (as a multiset) |
| EventConfigurationScreens.Sections | TurboTime/Sources/Screens/EventConfiguration/EventConfigurationViewModel.swift:17-21 | three sections in screen order, each with its title and its kind's blueprints in list order; together they hold every configured blueprint as often as the configuration lists it |
| EventConfigurationScreens.ToggleCycles | TurboTime/Sources/Screens/EventConfiguration/EventConfigurationViewModel.swift:62-70 | a tap keeps the kind; four taps restore a frequency, two taps a timed setting |
| EventConfigurationScreens.ValueDisplay | TurboTime/Sources/Screens/EventConfiguration/EventConfigurationViewModel.swift:94-105 | frequency name; for a timed blueprint "On (time)" when enabled and formattable, else "Off" |
| EventConfigurationScreens.OffDisplays | TurboTime/Sources/Screens/EventConfiguration/EventConfigurationViewModel.swift:94-105 | the display is "Off" exactly when the frequency is off or the timed blueprint is not shown as on |
| EventConfigurationScreens.EventConfigurationViewModel.constructor | TurboTime/Sources/Screens/EventConfiguration/EventConfigurationViewModel.swift:48-55 | the configuration is the stored one |
| EventConfigurationScreens.EventConfigurationViewModel.FrequencyToggled | TurboTime/Sources/Screens/EventConfiguration/EventConfigurationViewModel.swift:62-70 | the first equal blueprint is replaced by its toggled copy and saved once; an absent one changes and saves nothing |
| EventScreens.BuildDisplayText | TurboTime/Sources/Screens/Event/EventViewModel.swift:75-86 | one run per bracket-separated piece, odd pieces highlighted; no run holds a bracket, and the runs spell the text without its brackets (the spoken form) |
| EventScreens.EventViewModel.constructor | TurboTime/Sources/Screens/Event/EventViewModel.swift:39-49 | all events are still to come, none is current, the count is 0 |
| EventScreens.EventViewModel.TitleText | TurboTime/Sources/Screens/Event/EventViewModel.swift:22 | "Turbo Time!" exactly before the first event, "Event #n" after |
| EventScreens.EventViewModel.ButtonText | TurboTime/Sources/Screens/Event/EventViewModel.swift:29 | "Start" before the first event, "Next" after |
| EventScreens.EventViewModel.EventText | TurboTime/Sources/Screens/Event/EventViewModel.swift:23-28 | a plain prompt before the first event; otherwise one run per bracket-separated piece of the current event's text, the odd (bracketed) pieces highlighted, spelling the text without brackets |
| EventScreens.EventViewModel.CycleEvents | TurboTime/Sources/Screens/Event/EventViewModel.swift:91-103 | the next event becomes current and is counted; with none left the screen asks to be dismissed and nothing changes; events are shown in the given order |
| EventViews.Pairs | TurboManChallenge/TurboManChallenge/Sources/Views/EventView.swift:67-70 | one highlighted name followed by one plain piece per player |
| EventViews.BuildDisplayText | TurboManChallenge/TurboManChallenge/Sources/Views/EventView.swift:59-72 | nothing when the pieces of the template are not one more than the players; otherwise the first piece, then each name and the next piece |
| EventViews.InterleavedProperties | TurboManChallenge/TurboManChallenge/Sources/Views/EventView.swift:59-72 | every player is highlighted once, in order, and the characters shown are the template filled with the players |
| EventViews.EventView.constructor | TurboManChallenge/TurboManChallenge/Sources/Views/EventView.swift:21-23 | the given current event and queue, visible |
| EventViews.EventView.Title | TurboManChallenge/TurboManChallenge/Sources/Views/EventView.swift:29 | "Turbo Time!" with no event, "New Event!" with one |
| EventViews.EventView.ButtonText | TurboManChallenge/TurboManChallenge/Sources/Views/EventView.swift:37 | "Start Events" with no event, "Continue" with one |
| EventViews.EventView.ButtonAction | TurboManChallenge/TurboManChallenge/Sources/Views/EventView.swift:37-45 | the first queued event becomes current and leaves the queue; with none left the popover hides |
| DigitKeyboard.KeyTypeFor | TurboManChallenge/UI/Incrementer/DigitKeyboardView.swift:130-139 | a key exactly for tags 0-12, a digit exactly for 0-9 and with that value |
| DigitKeyboard.KeyTagRoundTrip | TurboManChallenge/UI/Incrementer/DigitKeyboardView.swift:123-139 | tag to key and key to tag are inverse on the keyboard's keys and tags |
| DigitKeyboard.KeyPressed | TurboManChallenge/UI/Incrementer/DigitKeyboardView.swift:112-116 | a tag with a key forwards exactly that key, any other tag forwards nothing |
| Incrementers.DeleteFirst | TurboManChallenge/UI/Incrementer/IncrementerView.swift:227-231 | the backspace as written: the first character goes |
| Incrementers.BackspaceRemovesFirstDigit | TurboManChallenge/UI/Incrementer/IncrementerView.swift:227-231 | typing 1, 2, backspace leaves "2", not "1" |
| Incrementers.DeleteLast | TurboManChallenge/UI/Incrementer/IncrementerView.swift:227-231 | the intended backspace: the last character goes, an empty field stays empty |
| Incrementers.BackspaceUndoesDigit | TurboManChallenge/UI/Incrementer/IncrementerView.swift:222-231 | backspace after a typed digit gives back the text before it |
| Incrementers.IncrementerView.constructor | TurboManChallenge/UI/Incrementer/IncrementerView.swift:89-108 | value, bounds and tag as given, the field shows the value, the buttons reflect it |
| Incrementers.IncrementerView.UpdateUI | TurboManChallenge/UI/Incrementer/IncrementerView.swift:187-198 | the field shows the value; each button is enabled exactly when the view is and the value is not at that bound |
| Incrementers.IncrementerView.SetEnabled | TurboManChallenge/UI/Incrementer/IncrementerView.swift:40-42 | disabling greys out both buttons; enabling restores them from the value |
| Incrementers.IncrementerView.ChangeValue | TurboManChallenge/UI/Incrementer/IncrementerView.swift:164-180 | out of range: the field is reset; refused or no delegate: nothing changes; accepted: the value changes and will/did-update are sent with the old value; the range is kept |
| Incrementers.IncrementerView.BeginEditing | TurboManChallenge/UI/Incrementer/IncrementerView.swift:205-209 | the shown value moves to the placeholder and the field empties |
| Incrementers.IncrementerView.KeySelected | TurboManChallenge/UI/Incrementer/IncrementerView.swift:216-241 | a digit is appended while shorter than the maximum written out; backspace deletes; done/close reset an unreadable field or request the entered value; only done/close can change the value |
| Incrementers.IncrementerView.IncrementPressed | TurboManChallenge/UI/Incrementer/IncrementerView.swift:248-250 | the value goes up by one exactly when below the maximum and approved |
| Incrementers.IncrementerView.DecrementPressed | TurboManChallenge/UI/Incrementer/IncrementerView.swift:252-254 | the value goes down by one exactly when above the minimum and approved |
| SettingsScreens.SettingsViewController.constructor | TurboManChallenge/UI/SettingsViewController.swift:25-33 | three distinct incrementers with tags 1-3 and ranges 1-10, 1-10 and 1-5, each showing its setting after `updateUI`, with no setting changed |
| SettingsScreens.SettingsViewController.UpdateUI | TurboManChallenge/UI/SettingsViewController.swift:61-67 | each setting is sent through its incrementer with this delegate: an incrementer takes its setting exactly when the setting is in its range and the round lengths are ordered (always, for actions), and no setting changes |
| SettingsScreens.SettingsViewController.ShouldUpdate | TurboManChallenge/UI/SettingsViewController.swift:79-86 | the shortest round may not pass the longest nor the longest fall below the shortest; other tags always approved |
| SettingsScreens.SettingsViewController.DidUpdate | TurboManChallenge/UI/SettingsViewController.swift:88-96 | the tag picks the one setting that changes; an approved change keeps shortest <= longest |
| SettingsScreens.SettingsViewController.RequestChange | TurboManChallenge/UI/SettingsViewController.swift:43-49 | an incrementer change goes through with this delegate exactly when in range and approved, reaches the matching setting, and keeps shortest <= longest |
| SettingsScreens.SettingsViewController.ShowTimerButtonPressed | TurboManChallenge/UI/SettingsViewController.swift:74-77 | the show-timer setting flips, the other settings stay, and incrementers in step with the settings stay so |
| SettingsScreens.SettingsViewController.ResetButtonPressed | TurboManChallenge/UI/SettingsViewController.swift:98-105 | every setting takes its default, the defaults are ordered, and every incrementer then shows its default |
| Steppers.RangeCheckedStepper.constructor | TurboManChallenge/TurboManChallenge/Sources/Views/General/IncrementerView.swift:21-24 | value, step and bounds as given |
| Steppers.RangeCheckedStepper.ChangeValue | TurboManChallenge/TurboManChallenge/Sources/Views/General/IncrementerView.swift:65-69 | only a value within minimum...maximum is taken |
| Steppers.RangeCheckedStepper.PlusPressed | TurboManChallenge/TurboManChallenge/Sources/Views/General/IncrementerView.swift:51-56 | an enabled plus adds one step and keeps the value in range |
| Steppers.RangeCheckedStepper.MinusPressed | TurboManChallenge/TurboManChallenge/Sources/Views/General/IncrementerView.swift:40-45 | an enabled minus takes one step and keeps the value in range |
| Steppers.Stepper.constructor | TurboTime/Sources/Views/IncrementerView.swift:17-20 | value, step and bounds as given |
| Steppers.Stepper.ChangeValue | TurboTime/Sources/Views/IncrementerView.swift:87-89 | any value is taken |
| Steppers.Stepper.IncrementPressed | TurboTime/Sources/Views/IncrementerView.swift:43-48 | an available plus adds one step and keeps the value in range |
| Steppers.Stepper.DecrementPressed | TurboTime/Sources/Views/IncrementerView.swift:32-37 | an available minus takes one step and keeps the value in range |
| Coordinators.DismissUndoesPresent | TurboTime/Sources/Coordinators/Coordinator.swift:40-68 | with no popover or sheet up, dismissing right after presenting a screen or a sheet restores the state |
| Coordinators.ConsistencyKept | TurboTime/Sources/Coordinators/Coordinator.swift:40-68 | record = path then sheet is kept by dismiss, and by present while no sheet is up; a popover dismiss leaves the record, any other pops it once |
| Coordinators.Coordinator.AsRoot | TurboTime/Sources/Coordinators/Coordinator.swift:16-24 | a root with nothing presented |
| Coordinators.Coordinator.Child | TurboTime/Sources/Coordinators/Coordinator.swift:16-24 | a coordinator under the given parent, with nothing presented |
| Coordinators.Coordinator.PresentPath | TurboTime/Sources/Coordinators/Coordinator.swift:40-43 | the screen is pushed and recorded |
| Coordinators.Coordinator.PresentSheet | TurboTime/Sources/Coordinators/Coordinator.swift:53-56 | the screen becomes the sheet and is recorded |
| Coordinators.Coordinator.PresentPopover | TurboTime/Sources/Coordinators/Coordinator.swift:45-51 | the popover lands on the root coordinator, whichever coordinator is asked |
| Coordinators.Coordinator.Dismiss | TurboTime/Sources/Coordinators/Coordinator.swift:58-68 | popover first, else sheet, else top of path, else nothing |

## Left out

- Timers: scheduling and invalidation are replaced by `Tick` and a `timerActive` flag. `GameManager.startRound` schedules a new timer without invalidating an earlier one. The model has one timer, so overlapping timers are not captured.
- Randomness: only the ranges are modelled, not the distributions or the frequency ratios.
- Audio and speech are foreign calls and are not modelled: playing, speaking and stopping sound, and looking up speech voices. Only the state changes around them are modelled. Whether a speech voice exists is passed in as `speechVoiceFound`.
- The installed voices, which the platform returns, are a parameter of `Voices.AllCases`.
- Time formatting (`timeFormatted`, `formatTime`) uses a Foundation formatter. The formatted text is passed in as a parameter.
- `String(format:)` is modelled only as ordered `%@` substitution.
- `Configuration.default` of the current app is a parameter (`ConfigurationViewModel.DefaultsButtonSelected`). The Configuration type of the current app is not part of this model; it is rebuilt from the fields the code reads.
- The blueprint type enum of the legacy engines (`single`, `repeatable(freq)`, `timed(time)`) is not part of this model. It is rebuilt as `LegacyEngines.EventType` from its uses.
- `TimeInterval` trigger times are whole seconds, because the code converts them with `Int(time)`.
- Sorting by name is a stable sort that compares character codes. Locale-aware comparison is not modelled.
- Blueprint and view-model identities are fresh UUIDs. They are modelled as a caller-supplied `freshId`. Identity-based equality of view models and coordinators is not modelled.
- Layout, styling, colours and view bodies have no logic and are not modelled. This includes keyboard and incrementer styling, `SettingsViewController.style`, the layout constraints and `RootCoordinator` wiring.
- SettingsScreens.SettingsViewController.UpdateUI: the show-timer button's "YES"/"NO" title is a label and is not modelled.
- Strings are `seq<char>`. Swift compares strings by extended grapheme clusters, while the model compares single characters. The two agree on the ASCII tokens the code searches for (`[player]`, `[number]`, `[`, `]`, `%@`). Names built from combining characters are not modelled.
- Incrementers.IncrementerView.KeySelected: `resignFirstResponder` (hiding the keyboard) is not modelled.
- Incrementers.IncrementerView.KeySelected: the backspace modelled is the corrected one. The code as written deletes the first character (see Findings).
- ConfigurationScreens.ConfigurationViewModel.InputPropertySelected: the call to the coordinator that opens the event screen is reported as `openEvents`. The coordinator itself is modelled separately, in `Coordinators`.
- ConfigurationScreens.ConfigurationViewModel.TogglePropertyChanged: speaking the new voice's name is not modelled.
- EventScreens.EventViewModel.CycleEvents: the call to the coordinator's `dismissSelected` is reported as `dismiss`.
- Static blueprint and event tables are data. The shipped timed blueprint of the earlier app uses "%@" rather than "[player]", so it renders with no players.
- Integers are unbounded. Swift's `Int` overflow trap is not modelled, because every value stays far below 2^63 (seconds, counts, and digits limited by the maximum's length). `Strings.ParseInt` rejects values outside the 64-bit range, as Swift's `Int(String)` does.

## Findings

| source | as written | input that shows it | evidently intended | confidence | as-written member | corrected member |
|---|---|---|---|---|---|---|
| TurboManChallenge/UI/Incrementer/IncrementerView.swift:229-231 | backspace on the digit keyboard removes the first character of the field (`remove(at: existingText.startIndex)`) | type 1, then 2, then backspace: the field reads "2" | remove the last character, so backspace undoes the last digit typed | not executed | Incrementers.BackspaceRemovesFirstDigit | Incrementers.BackspaceUndoesDigit |
