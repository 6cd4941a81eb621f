/**
 * The `state` package's game lifecycle: NotStarted, InProgress and Ended.
 * Each state class answers `start`, `play` and `end`; the only transitions
 * are NotStarted to InProgress on `start` (after `doStart`) and InProgress
 * to Ended on `end` (after `doEnd`). What the controller does around them
 * is in module Controller.
 */
module Lifecycle {
  datatype GameState = NotStartedState | InProgressState | EndedState

  datatype Event = Start | Play | End

  /** The state after `event`. */
  function Next(s: GameState, event: Event): GameState
  {
    match (s, event)
    case (NotStartedState, Start) => InProgressState
    case (InProgressState, End) => EndedState
    case _ => s
  }

  /** `NotStartedState.start` is the one handler that calls `doStart`. */
  predicate RunsStart(s: GameState, event: Event)
  {
    s == NotStartedState && event == Start
  }

  /** `InProgressState.end` is the one handler that calls `doEnd`. */
  predicate RunsEnd(s: GameState, event: Event)
  {
    s == InProgressState && event == End
  }

  /** `InProgressState.play` is the one handler that calls `doPlayLoop`. */
  predicate RunsPlay(s: GameState, event: Event)
  {
    s == InProgressState && event == Play
  }

  /** How far along the lifecycle a state is. */
  function Stage(s: GameState): nat
  {
    match s
    case NotStartedState => 0
    case InProgressState => 1
    case EndedState => 2
  }

  /** Each handler either keeps the state or moves it exactly one stage on, and it moves exactly when it runs `doStart` or `doEnd`. */
  lemma StepForward(s: GameState, event: Event)
    ensures Next(s, event) == s || Stage(Next(s, event)) == Stage(s) + 1
    ensures Next(s, event) != s <==> RunsStart(s, event) || RunsEnd(s, event)
  {
  }

  /**
   * `start` is the only way out of NotStarted, `end` the only way out of
   * InProgress, Ended answers every event by staying, and `play` never
   * changes the state (`doPlayLoop` does nothing).
   */
  lemma OnlyExits(event: Event)
    ensures Next(NotStartedState, event) != NotStartedState <==> event == Start
    ensures Next(InProgressState, event) != InProgressState <==> event == End
    ensures Next(EndedState, event) == EndedState
    ensures event == Play ==> forall s: GameState :: Next(s, event) == s
  {
  }

  /** The state after a sequence of events, in order. */
  function Run(s: GameState, events: seq<Event>): GameState
    decreases |events|
  {
    if |events| == 0 then s else Run(Next(s, events[0]), events[1..])
  }

  /** A lifecycle never goes back, and once Ended it stays Ended whatever comes. */
  lemma {:induction false} RunNeverGoesBack(s: GameState, events: seq<Event>)
    ensures Stage(s) <= Stage(Run(s, events))
    ensures s == EndedState ==> Run(s, events) == EndedState
    decreases |events|
  {
    if |events| > 0 {
      StepForward(s, events[0]);
      RunNeverGoesBack(Next(s, events[0]), events[1..]);
    }
  }

  /** From NotStarted, the game is in progress after the events exactly when a `start` came and no `end` after it. */
  lemma {:induction false} InProgressAfter(events: seq<Event>)
    ensures Run(NotStartedState, events) == InProgressState <==>
      exists i | 0 <= i < |events| :: events[i] == Start && (forall k | 0 <= k < i :: events[k] != Start)
        && (forall k | i < k < |events| :: events[k] != End)
  {
    if |events| > 0 {
      var rest := events[1..];
      if events[0] == Start {
        FromInProgress(rest);
        if Run(NotStartedState, events) == InProgressState {
          assert forall k | 0 < k < |events| :: events[k] != End by {
            forall k | 0 < k < |events| ensures events[k] != End {
              assert rest[k - 1] == events[k];
            }
          }
        } else {
          var j :| 0 <= j < |rest| && rest[j] == End;
          assert events[j + 1] == End;
        }
      } else {
        InProgressAfter(rest);
        if Run(NotStartedState, events) == InProgressState {
          var i :| 0 <= i < |rest| && rest[i] == Start && (forall k | 0 <= k < i :: rest[k] != Start)
            && (forall k | i < k < |rest| :: rest[k] != End);
          assert events[i + 1] == Start;
          assert forall k | 0 < k < i + 1 :: events[k] == rest[k - 1];
          assert forall k | i + 1 < k < |events| :: events[k] == rest[k - 1];
        } else {
          forall i | 0 <= i < |events| && events[i] == Start && (forall k | 0 <= k < i :: events[k] != Start)
            ensures exists k | i < k < |events| :: events[k] == End
          {
            assert i > 0;
            assert rest[i - 1] == Start;
            assert forall k | 0 <= k < i - 1 :: rest[k] == events[k + 1];
            var k :| i - 1 < k < |rest| && rest[k] == End;
            assert events[k + 1] == End;
          }
        }
      }
    }
  }

  /** From InProgress, the game is still in progress exactly when no `end` comes. */
  lemma {:induction false} FromInProgress(events: seq<Event>)
    ensures Run(InProgressState, events) == InProgressState <==> forall k | 0 <= k < |events| :: events[k] != End
    ensures Run(InProgressState, events) != InProgressState ==> Run(InProgressState, events) == EndedState
  {
    if |events| > 0 {
      FromInProgress(events[1..]);
      RunNeverGoesBack(EndedState, events[1..]);
      assert forall k | 0 < k < |events| :: events[k] == events[1..][k - 1];
    }
  }
}
