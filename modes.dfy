/** The four game modes and the key handling of `Game.handle_event`. */
module Modes {

  /** `Game.state`: `"title" | "play" | "pause" | "gameover"`. */
  datatype Mode = Title | Play | Pause | GameOver

  /** The keys the handler tells apart; every other key is `OtherKey`. */
  datatype Key = Escape | F1 | KeyR | KeyP | Space | OtherKey

  /** A pygame event as the handler sees it: a key press, or anything else
      (key releases, mouse, window events). */
  datatype Event = KeyDown(key: Key) | OtherEvent

  /** What `handle_event` does with an event. */
  datatype Action =
    | Ignore                  // nothing changes
    | PostQuit                // a QUIT event is posted; nothing else changes
    | ToggleDebug             // only the debug flag flips
    | Reset                   // `_reset_level(keep_state=True)`
    | SetMode(to: Mode)       // only the mode changes
    | ResetAndPlay            // `_reset_level(keep_state=True)`, then play

  /** The branches of `handle_event`, in the order the source tests them;
      each one that applies returns at once. */
  function Dispatch(mode: Mode, ev: Event): (a: Action)
    ensures ev == KeyDown(Escape) ==> a == PostQuit
    ensures a == Reset <==> ev == KeyDown(KeyR)
    ensures a.SetMode? ==> ev == KeyDown(KeyP) && (mode == Play || mode == Pause) && a.to != mode
    ensures a == ResetAndPlay ==> ev == KeyDown(Space) && (mode == Title || mode == GameOver)
  {
    if !ev.KeyDown? then Ignore
    else if ev.key == Escape then PostQuit
    else if ev.key == F1 then ToggleDebug
    else if ev.key == KeyR then Reset
    else if mode == Play && ev.key == KeyP then SetMode(Pause)
    else if mode == Pause && ev.key == KeyP then SetMode(Play)
    else if (mode == Title || mode == GameOver) && ev.key == Space then ResetAndPlay
    else Ignore
  }

  /** The mode after the event has been handled. */
  function NextMode(mode: Mode, ev: Event): (m: Mode)
    ensures m != mode ==> m == Play || m == Pause
    ensures m != mode ==> ev == KeyDown(KeyP) || ev == KeyDown(Space)
  {
    match Dispatch(mode, ev)
    case SetMode(to) => to
    case ResetAndPlay => Play
    case _ => mode
  }

  /** Whether handling the event resets the level. */
  predicate ResetsLevel(mode: Mode, ev: Event) {
    Dispatch(mode, ev) == Reset || Dispatch(mode, ev) == ResetAndPlay
  }

  /** The transition table: the mode changes exactly on P in play or pause
      and on Space in title or game-over, and only to the listed target. */
  lemma ModeTable(mode: Mode, ev: Event)
    ensures NextMode(mode, ev) != mode <==>
      ev.KeyDown? && ((ev.key == KeyP && (mode == Play || mode == Pause)) ||
                      (ev.key == Space && (mode == Title || mode == GameOver)))
    ensures mode == Play && ev == KeyDown(KeyP) ==> NextMode(mode, ev) == Pause
    ensures mode == Pause && ev == KeyDown(KeyP) ==> NextMode(mode, ev) == Play
    ensures (mode == Title || mode == GameOver) && ev == KeyDown(Space) ==> NextMode(mode, ev) == Play
  {
  }

  /** Events other than key presses, and keys the handler does not know,
      change nothing. */
  lemma IgnoredEvents(mode: Mode, ev: Event)
    requires !ev.KeyDown? || ev.key == OtherKey
    ensures Dispatch(mode, ev) == Ignore
  {
  }

  /** The level is reset exactly on R in any mode and on Space in title or
      game-over; R keeps the mode. */
  lemma ResetTable(mode: Mode, ev: Event)
    ensures ResetsLevel(mode, ev) <==>
      ev == KeyDown(KeyR) || (ev == KeyDown(Space) && (mode == Title || mode == GameOver))
    ensures ev == KeyDown(KeyR) ==> NextMode(mode, ev) == mode
  {
  }

  /** F1 flips the debug flag in every mode, and nothing else does. */
  lemma DebugTable(mode: Mode, ev: Event)
    ensures Dispatch(mode, ev) == ToggleDebug <==> ev == KeyDown(F1)
  {
  }

  /** The early returns mean one P press toggles pause once: two presses
      from play or pause come back to where they started. */
  lemma PauseRoundTrip(mode: Mode)
    requires mode == Play || mode == Pause
    ensures NextMode(NextMode(mode, KeyDown(KeyP)), KeyDown(KeyP)) == mode
    ensures NextMode(mode, KeyDown(KeyP)) != mode
  {
  }

  /** Every mode change the handler makes is one of the four edges
      title→play, gameover→play, play↔pause. */
  predicate Edge(from: Mode, to: Mode) {
    (from == Title && to == Play) || (from == GameOver && to == Play) ||
    (from == Play && to == Pause) || (from == Pause && to == Play)
  }

  lemma OnlyEdges(mode: Mode, ev: Event)
    ensures NextMode(mode, ev) == mode || Edge(mode, NextMode(mode, ev))
  {
  }
}
