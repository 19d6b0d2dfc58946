/** The lifecycle states and the table of legal transitions (internal/module/state.go). */
module Lifecycle {

  datatype State =
    | Registered | Starting | Running | Pausing | Paused | Resuming
    | Stopping | Stopped | Failed | CrashLooping | Unsupported | Disabled

  function Allowed(from: State): set<State> {
    match from
    case Registered => {Starting, Disabled, Stopped}
    case Starting => {Running, Failed, Unsupported, Stopping}
    case Running => {Pausing, Stopping, Failed}
    case Pausing => {Paused, Failed, Stopping}
    case Paused => {Resuming, Stopping, Failed}
    case Resuming => {Running, Failed, Stopping}
    case Stopping => {Stopped, Failed}
    case Stopped => {Starting, Disabled, Failed}
    case Failed => {Starting, CrashLooping, Stopping, Stopped, Disabled}
    case CrashLooping => {Starting, Stopped, Disabled, Failed}
    case Unsupported => {Stopped, Disabled}
    case Disabled => {Starting, Stopped}
  }

  /** Staying put is always legal. */
  predicate CanTransition(from: State, to: State) {
    from == to || to in Allowed(from)
  }

  /** The module may hold resources and produce telemetry. */
  predicate Active(s: State) {
    s in {Starting, Running, Pausing, Paused, Resuming, Stopping}
  }
}
