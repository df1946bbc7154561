/** Two small definitions that pin down how dispatch treats tables the
    examples do not exercise: a second `tr` with the same source and event,
    and an internal table declared by a state that no `tr` leaves. */
module DispatchCases {
  import opened Types
  import opened MetaLib
  import opened Guards
  import opened Transitions
  import opened States
  import opened Tables
  import opened Machine

  const A := UserState("a")
  const B := UserState("b")
  const C := UserState("c")

  /** Two `tr` leave `a` on `go` under different guards.  They differ as
      descriptors, so the table is well formed. */
  const Forked := Definition(
    A,
    [ Tr(A, "go", B, NoneAction, GuardFn("first", Binary)),
      Tr(A, "go", C, NoneAction, GuardFn("second", Binary)) ],
    map[])

  /** `first` refuses, `second` allows. */
  function FirstRefuses(n: string, e: Event, c: int): bool { n != "first" }

  function AnyGuard3(n: string, e: Event, c: int, s: StateId): bool { true }

  function KeepAction(n: string, e: Event, c: int, src: StateId, tgt: StateId): int { c }

  function KeepInternal(n: string, e: Event, c: int): int { c }

  function KeepHook(n: string, s: StateId, e: Option<Event>, c: int): int { c }

  const Env0: Env<int> := Env(GuardEnv(AnyGuard3, FirstRefuses), KeepAction, KeepInternal, KeepHook)

  lemma ForkedValid()
    ensures ValidDefinition(Forked) && Accepts(Forked, "go")
  {
    var t := Forked.transitions;
    assert t[0] != t[1] by { assert t[0].target != t[1].target; }
    assert CountOf(t, t[0]) == 1 && CountOf(t, t[1]) == 1;
    assert t[0].Tr? && t[0].source == A;
    DispatchableEventsAccepted(Forked, "go", 0);
  }

  /** Only the first matching descriptor is tried: its guard refuses, so
      the event is refused although the second descriptor's guard would
      allow it. */
  lemma GuardIsNotRetried(pin: int)
    requires ValidDefinition(Forked) && Accepts(Forked, "go")
    ensures CallGuard(Env0.guards, Forked.transitions[1].guard, Event("go", pin), pin, A)
    ensures ProcessEvent(Forked, Env0, Config(A, pin), Event("go", pin)) == Step(Config(A, pin), Refuse, [])
  {
    CallGuardSelectsShape(Env0.guards, "first", Event("go", pin), pin, A);
    CallGuardSelectsShape(Env0.guards, "second", Event("go", pin), pin, A);
    assert "second" != "first" by { assert "second"[0] != "first"[0]; }
    GlobalGuardRefuses(Forked, Env0, Config(A, pin), Event("go", pin), 0);
  }

  const BTable: Table := [In("ping", ActionFn("pong"))]

  /** `a -> b` on `go`, and `b` declares an internal table for `ping`. */
  const TargetOnly := Definition(
    A,
    [ Tr(A, "go", B) ],
    map[B := StateDecl(Some(BTable), NoHook, NoHook)])

  /** Because `target_tr_t` reads the source state, `b`'s internal table
      never reaches `internal_transitions`, and `ping` does not pass the
      `process_event` assertion, although a machine in `b` would handle
      it. */
  lemma TargetInternalTableUnreachable()
    ensures ValidDefinition(TargetOnly)
    ensures !Accepts(TargetOnly, "ping")
    ensures Decl(TargetOnly.states, B).internal == Some(BTable) && BTable[0].event == "ping"
  {
    var t := TargetOnly.transitions;
    assert CountOf(t, t[0]) == 1;
    assert t[0].Tr? && t[0].source == A;
    assert CountOf(BTable, BTable[0]) == 1;
    var f := InternalOf(TargetOnly.states);
    var none: seq<Option<Table>> := [None];
    assert f(A) == None;
    assert seq(|t|, i requires 0 <= i < |t| => SourceTr(t[i], f)) == none;
    assert seq(|t|, i requires 0 <= i < |t| => TargetTr(t[i], f)) == none;
    NonVoidPackFilters(none, none, BTable);
    assert InternalTransitions(t, f) == [];
    assert EventsPack(t) == ["go"];
    assert "ping" != "go" by { assert "ping"[0] != "go"[0]; }
  }
}
