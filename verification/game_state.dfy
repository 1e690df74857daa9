/** `GameState`: what the game screen shows. */
module GameStates {
  import opened Events

  datatype GameState<K> =
    | Idle
    | Countdown(remaining: int)
    | Events(events: seq<Event<K>>)
}
