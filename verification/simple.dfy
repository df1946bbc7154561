/** The minimal machine of `examples/simple_fsm/main.cpp`: three states
    with no internal tables and no hooks, `start` runs from `initial` to
    `running` and `stop` from `running` to `terminated`. */
module SimpleMachine {
  import opened Types
  import opened MetaLib
  import opened Guards
  import opened Transitions
  import opened States
  import opened Tables
  import opened Machine

  const Initial := UserState("initial")
  const Running := UserState("running")
  const Terminated := UserState("terminated")

  const Def := Definition(
    Initial,
    [ Tr(Initial, "start", Running),
      Tr(Running, "stop", Terminated) ],
    map[])

  function AnyGuard3(n: string, e: Event, c: (), s: StateId): bool { true }

  function AnyGuard2(n: string, e: Event, c: ()): bool { true }

  function NoAction(n: string, e: Event, c: (), src: StateId, tgt: StateId): () { c }

  function NoInternal(n: string, e: Event, c: ()): () { c }

  function NoHookCall(n: string, s: StateId, e: Option<Event>, c: ()): () { c }

  const Env0: Env<()> := Env(GuardEnv(AnyGuard3, AnyGuard2), NoAction, NoInternal, NoHookCall)

  const Start := Event("start", 0)
  const Stop := Event("stop", 0)

  predicate DefinitionValidFacts() {
    ValidDefinition(Def) && Accepts(Def, "start") && Accepts(Def, "stop")
  }

  /** The table has two distinct descriptors, each changing state, and
      both events pass the `process_event` assertion. */
  lemma DefinitionValid()
    ensures DefinitionValidFacts()
  {
    var t := Def.transitions;
    assert CountOf(t, t[0]) == 1 && CountOf(t, t[1]) == 1;
    assert t[0].Tr? && t[0].source == Initial;
    DispatchableEventsAccepted(Def, "start", 0);
    DispatchableEventsAccepted(Def, "stop", 1);
  }

  /** `states_pack` lists the three states in order of first appearance:
      the sources, then the one target not seen yet. */
  lemma StatesPackInOrder()
    ensures StatesPack(Def.transitions) == [Some(Initial), Some(Running), Some(Terminated)]
  {
    var a, b, c := Some(Initial), Some(Running), Some(Terminated);
    assert Sources(Def.transitions) + Targets(Def.transitions) == [a, b, b, c];
    assert a != b && a != c && b != c;
    DropsRepeatedMiddle(a, b, c);
  }

  /** The sources-then-targets list of a two-step chain `a -> b -> c`
      repeats only `b`, which `unique` keeps once. */
  lemma DropsRepeatedMiddle<T(!new)>(a: T, b: T, c: T)
    requires a != b && a != c && b != c
    ensures UniqueOf([a, b, b, c]) == [a, b, c]
  {
    var empty: seq<T> := [];
    assert Unique(empty, [a, b, b, c]) == Unique([a], [b, b, c]) by {
      assert empty + [a] == [a];
      assert [a, b, b, c][1..] == [b, b, c];
    }
    assert Unique([a], [b, b, c]) == Unique([a, b], [b, c]) by {
      assert [a] + [b] == [a, b];
      assert [b, b, c][1..] == [b, c];
    }
    assert Unique([a, b], [b, c]) == Unique([a, b], [c]) by {
      assert Contains([a, b], b);
      assert [b, c][1..] == [c];
    }
    assert Unique([a, b], [c]) == Unique([a, b, c], []) by {
      assert [a, b] + [c] == [a, b, c];
      assert [c][1..] == [];
    }
  }

  /** Each event moves the machine one state on, recording only the exit
      and entry hooks, since the descriptors have no action. */
  lemma StartRuns()
    ensures DefinitionValidFacts()
    ensures ProcessEvent(Def, Env0, Config(Initial, ()), Start)
         == Step(Config(Running, ()), Done, [Exit(Initial, Some(Start)), Enter(Running, Some(Start))])
  {
    DefinitionValid();
    GlobalTransitionFires(Def, Env0, Config(Initial, ()), Start, 0);
  }

  lemma StopTerminates()
    ensures DefinitionValidFacts()
    ensures ProcessEvent(Def, Env0, Config(Running, ()), Stop)
         == Step(Config(Terminated, ()), Done, [Exit(Running, Some(Stop)), Enter(Terminated, Some(Stop))])
  {
    DefinitionValid();
    assert !Matches(Def.transitions[0], Running, "stop");
    GlobalTransitionFires(Def, Env0, Config(Running, ()), Stop, 1);
  }

  /** `terminated` has no outgoing descriptor and no internal table: every
      event the machine accepts is refused there. */
  lemma TerminatedRefusesAll(ev: Event)
    requires Accepts(Def, ev.kind)
    ensures DefinitionValidFacts()
    ensures ProcessEvent(Def, Env0, Config(Terminated, ()), ev) == Step(Config(Terminated, ()), Refuse, [])
  {
    DefinitionValid();
    assert !Matches(Def.transitions[0], Terminated, ev.kind);
    assert !Matches(Def.transitions[1], Terminated, ev.kind);
    NoMatchRefuses(Def, Env0, Config(Terminated, ()), ev);
  }

  /** The assertion sequence of the example's `main`. */
  lemma Scenario()
    ensures DefinitionValidFacts()
    ensures var (c0, calls) := Construct(Def, Env0, ());
      && IsInState(c0, Initial) && calls == [Enter(Initial, None)]
      && var s1 := ProcessEvent(Def, Env0, c0, Start);
      && s1.result == Done && IsInState(s1.config, Running)
      && var s2 := ProcessEvent(Def, Env0, s1.config, Stop);
      && s2.result == Done && IsInState(s2.config, Terminated)
  {
    DefinitionValid();
    StartRuns();
    StopTerminates();
  }
}
