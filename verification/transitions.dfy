/** Transition descriptors of `fsm_transition_ecpp.h`: `tr` for a state
    change and `in` for a state's internal transition. */
module Transitions {
  import opened Types
  import opened Guards

  /** An action type: `none` or a user action, named. */
  datatype ActionRef = NoneAction | ActionFn(name: string)

  /** `tr<Source, Event, Target, Action = none, Guard = none>` and
      `in<Event, Action, Guard = none>`.  Two descriptors are the same C++
      type exactly when all their arguments agree, which is Dafny's
      structural equality on this datatype. */
  datatype Descriptor =
    | Tr(source: StateId, event: EventKind, target: StateId,
         action: ActionRef := NoneAction, guard: Guard := NoneGuard)
    | In(event: EventKind, action: ActionRef, guard: Guard := NoneGuard)

  /** The state types of a descriptor's state-tagged parameters are
      `StateId` values, so `IsState Source` / `IsState Target` hold by
      typing.  What the `static_assert` adds is that a `tr` must change
      state. */
  predicate Valid(d: Descriptor) {
    d.Tr? ==> d.source != d.target
  }

  /** `source_t` / `target_t`: `void` for an `in`. */
  function SourceType(d: Descriptor): Option<StateId> {
    if d.Tr? then Some(d.source) else None
  }

  function TargetType(d: Descriptor): Option<StateId> {
    if d.Tr? then Some(d.target) else None
  }

  /** `source_tr_t`: the internal table of the source state (`void` for an
      `in`, whose source and target types are `void` too).  `internalOf` gives each state type's `internal_transitions`. */
  function SourceTr(d: Descriptor, internalOf: StateId -> Option<seq<Descriptor>>): Option<seq<Descriptor>> {
    if d.Tr? then internalOf(d.source) else None
  }

  /** `target_tr_t`: as written it is also taken from the SOURCE state, so
      the target's own internal table never appears here. */
  function TargetTr(d: Descriptor, internalOf: StateId -> Option<seq<Descriptor>>): Option<seq<Descriptor>> {
    if d.Tr? then internalOf(d.source) else None
  }

  /** `operator==` / `operator!=` on descriptors: true for the same
      descriptor type, false for different ones.  Two `tr` that differ only
      in their guard are different descriptors. */
  function SameDescriptor(a: Descriptor, b: Descriptor): bool {
    a == b
  }

  function DifferentDescriptor(a: Descriptor, b: Descriptor): bool {
    a != b
  }
}
