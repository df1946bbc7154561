# ecpp::fsm dispatch core, modelled in Dafny

`ecpp::fsm` is a header-only C++ finite-state-machine library. A machine
definition `T` names its state types and its `initial_state`. It also gives
a `transitions` table of `tr<Source, Event, Target, Action, Guard>`
descriptors. Each state type may carry `internal_transitions`, a table of
`in<Event, Action, Guard>` descriptors, and `on_enter` / `on_exit` hooks.
`state_machine<T>` holds the current state in a `std::variant`. Its
`process_event` does two things in turn:

- it looks for the first `tr` whose source is the current state and whose
  event is the event's type;
- failing that, it looks in the current state's internal table.

The result is `done` or `refuse`.

Everything the library does at compile time is modelled as data and
predicates, because C++ type lists have no Dafny counterpart:

- the type-list algebra of the meta library;
- the duplicate check;
- the derived packs;
- the `static_assert`s.

The library's types become values:

- a state type is a `StateId` (with `EmptyState` for the table's
  `empty_state` placeholder);
- an event type is an `EventKind`;
- `void` is `None`;
- a guard, action or hook type is a name.

Naming them keeps descriptor equality structural, which is how C++ type
identity behaves. What each named guard, action and hook does is supplied
by an `Env`, as total functions over a user context `C` (the fields the
machine inherits from `T`). Guards take their arguments by const
reference, so a guard is a function to `bool` and can never change the
context. `process_event` is a pure function. It returns:

- the next configuration (current state and context);
- the result;
- the ordered trace of hook and action invocations it made.

Modules:

- `Types`: option, state ids, events, results.
- `MetaLib`: `contains`, `count_of`, `no_dublicates`, `unique` /
  `unique_pack`, `non_void`.
- `Guards`: the `call_guard` adapter, the `none` guard, and both families
  of `not_` / `and_` / `or_` combinators.
- `Transitions`: the `tr` / `in` descriptors and their `==` / `!=`.
- `States`: state declarations and the inherited defaults.
- `Tables`: `transition_table`.
- `Machine`: `state_machine`.
- `LuggageStorage`, `Turnstile`, `SimpleMachine`: the three example
  programs, with each `main`'s assertion sequence stated as a lemma.
- `DispatchCases`: two small definitions that pin down dispatch where the
  examples do not reach.

In several places the code behaves differently from what a reader would
expect from the names and the shape of the API. The model follows the code:

- **Duplicate check.** `no_dublicates` compares whole descriptors, not
  `(source, event)` keys. Two `tr` with the same source and event but
  different targets or guards are accepted. Only the first of them is ever
  tried, and if its guard refuses, the event is refused
  (`DispatchCases.GuardIsNotRetried`).
- **Internal guard.** An internal transition whose guard refuses still
  reports `done`. Its action is skipped and nothing changes
  (`Machine.InternalTransitionRuns`). A reader might expect a refusing
  guard to give `refuse`, as it does for a `tr`. The code's own comment at
  this point says the action is done, and it sets `done`.
- **`target_tr_t`.** `target_tr_t` is read from the source state's
  `internal_transitions`. So a state's internal table reaches the
  `process_event` acceptance check only when some `tr` leaves that state
  (`Tables.InternalTransitionsIgnoreTargets`,
  `DispatchCases.TargetInternalTableUnreachable`).
- **`events_pack`.** `events_pack` keeps repeated events. It is not
  de-duplicated.
- **Argument lists.** `process_event` calls a guard with
  `(fsm, source, event)`, a transition action with
  `(event, fsm, source, target)` and an internal action with
  `(event, fsm)`. The `call_guard` adapter and the combinators expect
  `(event, fsm, source)`. The luggage example's guards and actions declare
  `(event, fsm)`; the turnstile's `on_blink` declares
  `(event, fsm, source, target)` and its `beep` `(event, fsm)`. The model
  fixes one argument order per call site (guards `(event, ctx, source)`,
  read through `call_guard`), and each named guard or action reads the
  arguments it needs.
- **Placeholder state.** The machine never passes through `empty_state`.
  The code assigns `m_current` once, after the entry hook, so the
  placeholder is only a member of `states_variant` and the machine is
  never in it (`Machine.StaysDeclared`).
- **`is_in_state`.** The examples call `is_in_state<S>()`, but
  `fsm_ecpp.h` does not define it. `Machine.IsInState` compares the
  current state with `S`, which is what every call in the examples expects.

## Model

| member | source | states |
|---|---|---|
| MetaLib.Contains | include/fsm/detail/fsm_meta_lib_ecpp.h:13-21 | `contains` is false on the empty pack and otherwise true exactly when the type is one of the pack's types |
| MetaLib.CountOf | include/fsm/detail/fsm_meta_lib_ecpp.h:23-26 | `count_of` on a non-empty pack is at most the pack's length, and at least one exactly when the pack contains the type |
| MetaLib.CountOfIsMultiplicity | include/fsm/detail/fsm_meta_lib_ecpp.h:23-26 | `count_of` is the number of occurrences of the type in the pack (its multiplicity) |
| MetaLib.NoDuplicatesIffDistinct | include/fsm/detail/fsm_meta_lib_ecpp.h:28-31 | `no_dublicates` (every element's count is one) holds exactly when the elements are pairwise distinct |
| MetaLib.Unique | include/fsm/detail/fsm_meta_lib_ecpp.h:34-44 | the accumulator is kept as a prefix, the result holds exactly the accumulator's and the candidates' types, and it is duplicate-free when the accumulator is |
| MetaLib.UniqueOf | include/fsm/detail/fsm_meta_lib_ecpp.h:43-57 | `unique_variant` / `unique_type_pack` hold every input type exactly once and nothing else |
| MetaLib.UniqueSnoc | include/fsm/detail/fsm_meta_lib_ecpp.h:37-41 | one more candidate at the end is either dropped (already present) or appended |
| MetaLib.UniqueOfKeepsFirstOccurrenceOrder | include/fsm/detail/fsm_meta_lib_ecpp.h:37-44 | the de-duplicated list is ordered by each type's first occurrence in the input |
| MetaLib.UniqueOfDistinct | include/fsm/detail/fsm_meta_lib_ecpp.h:37-41 | candidates already distinct from each other and from the accumulator are all appended, in order |
| MetaLib.UniqueOfIdempotent | include/fsm/detail/fsm_meta_lib_ecpp.h:43-57 | a duplicate-free input comes back unchanged, so de-duplicating twice equals de-duplicating once |
| MetaLib.NonVoid | include/fsm/detail/fsm_meta_lib_ecpp.h:61-68 | the accumulator is kept as a prefix and the result holds exactly the accumulator's types and the non-`void` candidates |
| MetaLib.NonVoidPack | include/fsm/detail/fsm_meta_lib_ecpp.h:70-71 | `non_void_type_pack` holds exactly the non-`void` input types |
| MetaLib.NonVoidAccumulates | include/fsm/detail/fsm_meta_lib_ecpp.h:64-68 | walking from an accumulator appends to it what walking from the empty pack produces |
| MetaLib.NonVoidPackFilters | include/fsm/detail/fsm_meta_lib_ecpp.h:61-71 | `void` is dropped, any other type is kept, and the filter distributes over concatenation, so order is preserved |
| Guards.NotNegates | include/fsm/detail/fsm_guard_ecpp.h:19-53 | for every operand with at most one call shape, `not_<G>` answers the opposite of `call_guard<G>`, a shapeless `G` included (`call_guard` allows it, `not_` refuses it); for `and_<>` / `or_<>` the `not_` has no valid call, and `call_guard` of it allows |
| Guards.NoneIsNeutral | include/fsm/detail/fsm_conditions_ecpp.h:7-17 | `none` allows, `not_<none>` refuses, `none` appended to a non-empty `and_` changes nothing, and `none` appended to any `or_` makes it allow |
| Guards.SingleOperand | include/fsm/detail/fsm_guard_ecpp.h:55-95 | a one-operand `and_` / `or_` answers as `call_guard` of its operand, except that an operand with both shapes (`and_<>`, `or_<>`) sends it to the fallback, which allows; `and_<>` refuses and `or_<>` allows |
| Guards.SplitOperands | include/fsm/detail/fsm_guard_ecpp.h:55-87 | for non-empty parts with no two-shape operand, `and_` of a concatenation is the conjunction of the parts' `and_`, and `or_` the disjunction of their `or_` |
| Guards.ForwardingCombinatorsAgree | include/fsm/detail/fsm_conditions_ecpp.h:19-57 | the forwarding `not_` / `and_` / `or_` (`Guards.Forward`, with `and_<>` false and `or_<>` true) answer exactly as the `call_guard`-based ones of `fsm_guard_ecpp.h` on every expression over `(event, fsm, src)` predicates that uses no empty combinator as an operand |
| Guards.ForwardingDiffersOnEmptyOperand | include/fsm/detail/fsm_conditions_ecpp.h:27-41 | with `and_<>` as an operand the two families disagree: forwarding `and_<and_<>>` refuses, the `fsm_guard_ecpp.h` one allows |
| Guards.DoubleNegation | include/fsm/detail/fsm_guard_ecpp.h:37-53 | `not_<not_<G>>` answers as `call_guard<G>` for every `G` with at most one call shape, a shapeless one included; for `and_<>` / `or_<>` it refuses |
| Guards.DeMorgan | include/fsm/detail/fsm_guard_ecpp.h:37-95 | for a non-empty operand list with no two-shape operand, `not_<and_<G...>>` equals `or_<not_<G>...>` and `not_<or_<G...>>` equals `and_<not_<G>...>`; with `and_<>` or `or_<>` among the operands the first law fails, `not_<and_<...>>` refusing while `or_<not_<G>...>` allows |
| Tables.EventsPack | include/fsm/detail/fsm_transition_table_ecpp.h:22-24 | `events_pack` has `count` entries, one per descriptor, each descriptor's event at its position, repeats kept |
| Tables.GetIndex | include/fsm/detail/fsm_transition_table_ecpp.h:33-42 | `get_index(s, e)` is at most `count`; below `count` it is a `tr` leaving `s` on `e` and no earlier descriptor matches |
| Tables.GetEventIndex | include/fsm/detail/fsm_transition_table_ecpp.h:44-52 | `get_index(e)` is at most `count`; below `count` it has event `e` and no earlier descriptor does |
| Tables.ContainsInTable | include/fsm/detail/fsm_transition_table_ecpp.h:60-68 | `contains_in_table` is true exactly when some table of the pack has a descriptor with the event |
| Tables.WellFormedIsDistinct | include/fsm/detail/fsm_transition_table_ecpp.h:18 | a table that passes the duplicate assertion has pairwise distinct descriptors, each `tr` changing state |
| Tables.DuplicateCheckComparesDescriptors | include/fsm/detail/fsm_transition_ecpp.h:42-60 | the duplicate assertion holds exactly when descriptor `!=` holds between every two positions of the table, and then `==` holds only between a position and itself |
| Tables.LookupMissIffNoMatch | include/fsm/detail/fsm_transition_table_ecpp.h:29-52 | both lookups return `count` exactly when nothing matches, and `make_transition` of a hit is a matching `tr` |
| Tables.StatesPackMembers | include/fsm/detail/fsm_transition_table_ecpp.h:25 | `states_pack` is duplicate-free, holds exactly the sources and targets of the table's `tr`, and holds `void` exactly when the table has an `in` |
| Tables.StatesVariantAppendsPlaceholder | include/fsm/detail/fsm_transition_table_ecpp.h:20-27 | `states_variant` is `states_pack` followed by `empty_state`, and is duplicate-free |
| Tables.InternalTransitionsMembers | include/fsm/detail/fsm_transition_table_ecpp.h:26 | `internal_transitions` holds exactly the non-`void` internal tables of the sources of the table's `tr` |
| Tables.InternalTransitionsIgnoreTargets | include/fsm/detail/fsm_transition_ecpp.h:22-23 | since `target_tr_t` reads the source state, changing the internal tables of states no `tr` leaves does not change `internal_transitions` |
| Machine.Construct | include/fsm/fsm_ecpp.h:29-33 | the machine starts in `initial_state`, never the placeholder, after exactly one `on_enter` with no event; a default hook leaves the context alone |
| Machine.Destroy | include/fsm/fsm_ecpp.h:35-39 | destruction runs exactly one `on_exit` of the current state with no event; a default hook leaves the context alone |
| Machine.Transit | include/fsm/fsm_ecpp.h:61-83 | the global branch reports `done` exactly when the guard allows, and never runs an internal action |
| Machine.Internal | include/fsm/fsm_ecpp.h:85-108 | the internal branch never changes the current state, and a `refuse` there leaves everything unchanged |
| Machine.ProcessEvent | include/fsm/fsm_ecpp.h:46-112 | `refuse` changes nothing and invokes nothing; a state change is always along a `tr` leaving the old state on the event's type |
| Machine.LookupFindsFirstMatch | include/fsm/detail/fsm_transition_table_ecpp.h:33-42 | `get_index(s, e)` returns the first descriptor leaving `s` on `e` |
| Machine.GlobalTransitionFires | include/fsm/fsm_ecpp.h:57-83 | a first match whose guard allows gives `done`: the machine is in the target, a different state; exit, action (unless `none`) and enter run in that order, once each, threading the context |
| Machine.NoneDescriptorFires | include/fsm/fsm_ecpp.h:68-81 | a first-match `tr` with the `none` guard and the `none` action always fires: `done`, the target state, only exit and entry recorded, and the context becomes the target's `on_enter` of the source's `on_exit` of it |
| Machine.GlobalGuardRefuses | include/fsm/fsm_ecpp.h:57-84 | a first match whose guard refuses gives `refuse` with nothing changed and nothing invoked; the internal table is not consulted |
| Machine.GlobalMatchShadowsInternal | include/fsm/fsm_ecpp.h:57-108 | with a global match no internal action ever runs, and the result is `done` exactly when the matched guard allows |
| Machine.InternalTransitionRuns | include/fsm/fsm_ecpp.h:85-105 | with no global match, the current state's internal entry gives `done` whatever its guard says; the state does not change, no hook runs, and the internal action runs exactly when it is not `none` and its guard allows |
| Machine.NoMatchRefuses | include/fsm/fsm_ecpp.h:85-111 | with no global match and no internal entry (or no internal table), the result is `refuse` and nothing changes |
| Machine.DefaultStateIsInert | include/fsm/detail/fsm_state_ecpp.h:10-19 | a state that overrides nothing has no-op hooks and no internal table: destroying there keeps the context, and an event with no global match is refused |
| Machine.StaysDeclared | include/fsm/fsm_ecpp.h:57-115 | from a state of the table, every event leaves the machine in a state of the table, never the placeholder, and in `states_variant` |
| Machine.DispatchableEventsAccepted | include/fsm/fsm_ecpp.h:51 | the events of the table and those of the internal table of any state a `tr` leaves pass the `process_event` assertion |
| LuggageStorage.DefinitionValid | examples/luggage_storage_fsm/main.cpp:13-91 | the locker's tables pass the library's assertions and its three events are accepted |
| LuggageStorage.StatusIsInternal | examples/luggage_storage_fsm/main.cpp:101 | `status` in either state is `done`, with the state and the pincode unchanged |
| LuggageStorage.LockAccepted | examples/luggage_storage_fsm/main.cpp:104-105 | `lock` with a non-zero pincode goes from `unlocked` to `locked` and stores the pincode |
| LuggageStorage.LockRefused | examples/luggage_storage_fsm/main.cpp:102-103 | `lock{0}` is refused and nothing changes |
| LuggageStorage.UnlockAccepted | examples/luggage_storage_fsm/main.cpp:109-110 | `unlock` with the stored pincode goes from `locked` to `unlocked` and clears the pincode |
| LuggageStorage.UnlockRefused | examples/luggage_storage_fsm/main.cpp:107-108 | `unlock` with any other pincode is refused and nothing changes |
| LuggageStorage.Scenario | examples/luggage_storage_fsm/main.cpp:96-114 | the whole assertion sequence of `main` holds |
| Turnstile.DefinitionValid | examples/turnstile_fsm/main.cpp:12-50 | the turnstile's tables pass the library's assertions and both events are accepted |
| Turnstile.PushWhileLockedBeeps | examples/turnstile_fsm/main.cpp:60 | `push` while locked runs the internal `beep` only and stays locked |
| Turnstile.CoinUnlocks | examples/turnstile_fsm/main.cpp:61-62 | `coin` while locked exits `locked`, blinks, enters `unlocked` |
| Turnstile.PushLocks | examples/turnstile_fsm/main.cpp:63-64 | `push` while unlocked takes the global `tr` (no action) back to `locked` |
| Turnstile.CoinWhileUnlockedRefused | examples/turnstile_fsm/main.cpp:44-49 | `coin` while unlocked matches nothing and is refused |
| Turnstile.Scenario | examples/turnstile_fsm/main.cpp:55-67 | the whole assertion sequence of `main` holds |
| SimpleMachine.DefinitionValid | examples/simple_fsm/main.cpp:11-26 | the two descriptors are distinct and change state, and both events are accepted |
| SimpleMachine.StatesPackInOrder | examples/simple_fsm/main.cpp:20-25 | the state list is `initial`, `running`, `terminated`, in order of first appearance |
| SimpleMachine.DropsRepeatedMiddle | include/fsm/detail/fsm_meta_lib_ecpp.h:50-57 | for a chain `a -> b -> c`, de-duplicating sources then targets gives `a, b, c` |
| SimpleMachine.StartRuns | examples/simple_fsm/main.cpp:36-37 | `start` moves `initial` to `running`, running only the exit and entry hooks |
| SimpleMachine.StopTerminates | examples/simple_fsm/main.cpp:38-39 | `stop` moves `running` to `terminated` |
| SimpleMachine.TerminatedRefusesAll | examples/simple_fsm/main.cpp:20-25 | `terminated` has no outgoing descriptor, so every accepted event is refused there |
| SimpleMachine.Scenario | examples/simple_fsm/main.cpp:31-42 | the whole assertion sequence of `main` holds |
| DispatchCases.ForkedValid | include/fsm/detail/fsm_transition_table_ecpp.h:18 | two `tr` with the same source and event but different targets and guards pass the duplicate assertion |
| DispatchCases.GuardIsNotRetried | include/fsm/fsm_ecpp.h:57-68 | only the first match is tried: its guard refuses, so the event is refused although the second match's guard allows |
| DispatchCases.TargetInternalTableUnreachable | include/fsm/detail/fsm_transition_ecpp.h:22-23 | the internal table of a state that is only a target never reaches `internal_transitions`, so its event fails the `process_event` assertion |

## Left out

- Compile-time mechanics have no run-time counterpart in the model: template instantiation, `std::variant` / `std::visit`, `make_impl`'s function-pointer array, `std::forward` and the `noexcept` / `constexpr` qualifiers. Each is modelled by its effect: an index lookup, a stored `StateId`, a descriptor value.
- Overload resolution is modelled only through its outcome for guards. A user guard is modelled with one call shape or none. A user guard with both shapes is not represented. In C++ such a guard still works as a descriptor's guard, because the machine calls the guard directly and the three-argument overload answers. As an operand of a non-empty `and_` / `or_` it fails the combinator's constraint, and the fallback allows. Only `not_<G>` and a direct `call_guard<G>` call are ambiguous for it. `and_<>` and `or_<>` take any arguments, so they have both shapes. As an operand of a non-empty `and_` / `or_` they fail its constraint and the fallback allows (`Guards.SingleOperand`). A call of `not_<and_<>>` or `not_<or_<>>`, or of `call_guard` of `and_<>` / `or_<>`, is ambiguous. Such a guard does not compile as a descriptor's guard, and as an operand it counts as having no call shape. The model has no well-formedness predicate for guards: it gives every expression a value (`Guards.NotNegates` says which), and it takes the machine's own call of a top-level guard to be the `call_guard` answer.
- `fsm_guard_ecpp.h` and `fsm_conditions_ecpp.h` both define `not_`, `and_`, `or_` in the same namespace, which cannot coexist in one program. The first family is `Guards.Guard` evaluated by `Guards.CallGuard`; the second is `Guards.Forwarding` evaluated by `Guards.Forward`, over predicates taking `(event, fsm, src)`. The machine's descriptors use the first.
- State objects' own data. `process_event` default-constructs a fresh target state on every transition and stores it after `on_enter` (`include/fsm/fsm_ecpp.h:72-79`), so a hook could change fields of the state object. The model's hooks change only the machine's context, and a state is just its `StateId`.
- The `IsState`, `IsTransition`, `IsAction`, `IsGuard` concepts, `base_guard` and the `guard<>` / `action<>` bases hold by typing: a `StateId` is a state, a `Descriptor` is a transition, a name is a guard or an action. `fsm_action_ecpp.h` is not part of this model, and the file that defines `guard<>`, `base_guard` and `IsGuard` is not part of this model either.
- `event_result::pefuse` is the library's spelling of `refuse`; the luggage example writes `refuse`. The model uses `Refuse` for both.
- The `static_assert`s on a missing `initial_state` or `transitions` are enforced by the `Definition` datatype, which always has both.
- Event payloads are one integer, enough for the luggage pincode. Events of the other examples carry none.
- Printing to `std::cout` in the examples' actions is left out; those actions leave the context unchanged.
- Exceptions thrown by user hooks or actions, re-entrant `process_event` from inside a hook, and concurrency are left out: every user function is total and pure.
- The pimpl example hides a machine like the simple one behind a pointer and adds no dispatch behaviour. It is not modelled.
- Machine.Construct: requires the initial state to be the source or target of some `tr`. C++ rejects any other initial state when it initialises the `states_variant` member, so this is the same restriction, stated as a precondition.
