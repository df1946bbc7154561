/** Identifiers that stand for the C++ types the library computes with.

    The engine works on *types*: a state is a struct type, an event is a
    struct type, "no internal table" is `void`.  Here each of them is a plain
    value, and `void` is `None`. */
module Types {

  datatype Option<+T> = None | Some(value: T)

  /** A state type.  `EmptyState` is the placeholder `empty_state` that every
      transition table declares for itself; user code never names it. */
  datatype StateId = UserState(name: string) | EmptyState

  /** The type of an event (`lock`, `unlock`, `status`, ...). */
  type EventKind = string

  /** An event value: its type and the one numeric field the examples carry
      (`lock::pincode`); events without data use payload 0. */
  datatype Event = Event(kind: EventKind, payload: int)

  /** `event_result`: the outcome of `process_event`. */
  datatype EventResult = Refuse | Done
}
