/** The turnstile of `examples/turnstile_fsm/main.cpp`: `coin` unlocks,
    `push` locks again, and a `push` while locked is handled by `locked`'s
    internal table (it beeps and stays locked).  The actions only print,
    so the context carries nothing. */
module Turnstile {
  import opened Types
  import opened MetaLib
  import opened Guards
  import opened Transitions
  import opened States
  import opened Tables
  import opened Machine

  const Locked := UserState("locked")
  const Unlocked := UserState("unlocked")

  const LockedTable: Table := [In("push", ActionFn("beep"))]

  /** `unlocked` overrides nothing, so it is absent from the state map. */
  const Def := Definition(
    Locked,
    [ Tr(Locked, "coin", Unlocked, ActionFn("on_blink")),
      Tr(Unlocked, "push", Locked) ],
    map[Locked := StateDecl(Some(LockedTable), NoHook, NoHook)])

  function AnyGuard3(n: string, e: Event, c: (), s: StateId): bool { true }

  function AnyGuard2(n: string, e: Event, c: ()): bool { true }

  function Blink(n: string, e: Event, c: (), src: StateId, tgt: StateId): () { c }

  function Beep(n: string, e: Event, c: ()): () { c }

  function Silent(n: string, s: StateId, e: Option<Event>, c: ()): () { c }

  const Env0: Env<()> := Env(GuardEnv(AnyGuard3, AnyGuard2), Blink, Beep, Silent)

  const Push := Event("push", 0)
  const Coin := Event("coin", 0)

  lemma TablesWellFormed()
    ensures WellFormed(Def.transitions) && Declared(Def.transitions, Def.initial)
    ensures WellFormed(LockedTable)
  {
    var t := Def.transitions;
    assert CountOf(t, t[0]) == 1 && CountOf(t, t[1]) == 1;
    assert t[0].Tr? && t[0].source == Locked;
    assert CountOf(LockedTable, LockedTable[0]) == 1;
  }

  predicate DefinitionValidFacts() {
    ValidDefinition(Def) && Accepts(Def, "push") && Accepts(Def, "coin")
  }

  /** The turnstile's declaration passes every assertion of the library and
      accepts both events. */
  lemma DefinitionValid()
    ensures DefinitionValidFacts()
  {
    TablesWellFormed();
    DispatchableEventsAccepted(Def, "coin", 0);
    DispatchableEventsAccepted(Def, "push", 1);
  }

  /** `push` while locked: no `tr` leaves `locked` on `push`, so the
      internal `beep` runs, no hook runs, and the turnstile stays locked. */
  lemma PushWhileLockedBeeps()
    ensures DefinitionValidFacts()
    ensures ProcessEvent(Def, Env0, Config(Locked, ()), Push) == Step(Config(Locked, ()), Done, [InternalAction(Locked)])
  {
    DefinitionValid();
    assert !Matches(Def.transitions[0], Locked, "push");
    assert !Matches(Def.transitions[1], Locked, "push");
    assert Decl(Def.states, Locked).internal == Some(LockedTable);
    InternalTransitionRuns(Def, Env0, Config(Locked, ()), Push, LockedTable, 0);
  }

  /** `coin` while locked: exit `locked`, blink, enter `unlocked`. */
  lemma CoinUnlocks()
    ensures DefinitionValidFacts()
    ensures ProcessEvent(Def, Env0, Config(Locked, ()), Coin)
         == Step(Config(Unlocked, ()), Done, [Exit(Locked, Some(Coin)), Action(Locked, Unlocked), Enter(Unlocked, Some(Coin))])
  {
    DefinitionValid();
    GlobalTransitionFires(Def, Env0, Config(Locked, ()), Coin, 0);
  }

  /** `push` while unlocked: the global `tr` wins; it has no action, so
      only the exit and entry hooks are recorded. */
  lemma PushLocks()
    ensures DefinitionValidFacts()
    ensures ProcessEvent(Def, Env0, Config(Unlocked, ()), Push)
         == Step(Config(Locked, ()), Done, [Exit(Unlocked, Some(Push)), Enter(Locked, Some(Push))])
  {
    DefinitionValid();
    assert !Matches(Def.transitions[0], Unlocked, "push");
    GlobalTransitionFires(Def, Env0, Config(Unlocked, ()), Push, 1);
  }

  /** `coin` while unlocked: no `tr` leaves `unlocked` on `coin` and
      `unlocked` has no internal table, so the event is refused. */
  lemma CoinWhileUnlockedRefused()
    ensures DefinitionValidFacts()
    ensures ProcessEvent(Def, Env0, Config(Unlocked, ()), Coin) == Step(Config(Unlocked, ()), Refuse, [])
  {
    DefinitionValid();
    assert !Matches(Def.transitions[0], Unlocked, "coin");
    assert !Matches(Def.transitions[1], Unlocked, "coin");
    NoMatchRefuses(Def, Env0, Config(Unlocked, ()), Coin);
  }

  /** The assertion sequence of the example's `main`: start locked; `push`
      is done and stays locked; `coin` is done and unlocks; `push` is done
      and locks. */
  lemma Scenario()
    ensures DefinitionValidFacts()
    ensures var (c0, calls) := Construct(Def, Env0, ());
      && IsInState(c0, Locked) && calls == [Enter(Locked, None)]
      && var s1 := ProcessEvent(Def, Env0, c0, Push);
      && s1.result == Done && IsInState(s1.config, Locked)
      && var s2 := ProcessEvent(Def, Env0, s1.config, Coin);
      && s2.result == Done && IsInState(s2.config, Unlocked)
      && var s3 := ProcessEvent(Def, Env0, s2.config, Push);
      && s3.result == Done && IsInState(s3.config, Locked)
  {
    DefinitionValid();
    PushWhileLockedBeeps();
    CoinUnlocks();
    PushLocks();
  }
}
