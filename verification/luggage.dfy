/** The luggage locker of `examples/luggage_storage_fsm/main.cpp`: the
    context is the stored pincode; `lock` stores a non-zero pincode,
    `unlock` with the stored pincode clears it, and `status` is handled by
    each state's internal table. */
module LuggageStorage {
  import opened Types
  import opened MetaLib
  import opened Guards
  import opened Transitions
  import opened States
  import opened Tables
  import opened Machine

  const Locked := UserState("locked")
  const Unlocked := UserState("unlocked")

  const LockedTable: Table := [In("status", ActionFn("locked::print_status"), GuardFn("locked::is_print", Binary))]
  const UnlockedTable: Table := [In("status", ActionFn("unlocked::print_status"))]

  const Def := Definition(
    Unlocked,
    [ Tr(Unlocked, "lock", Locked, ActionFn("on_locked"), GuardFn("is_set_pincode", Binary)),
      Tr(Locked, "unlock", Unlocked, ActionFn("on_unlocked"), GuardFn("is_valid_pincode", Binary)) ],
    map[Locked := StateDecl(Some(LockedTable), NoHook, NoHook),
        Unlocked := StateDecl(Some(UnlockedTable), NoHook, NoHook)])

  /** The guards read the event's pincode and the stored one. */
  function PinGuard(n: string, e: Event, c: int): bool {
    if n == "is_set_pincode" then e.payload != 0
    else if n == "is_valid_pincode" then e.payload == c
    else true
  }

  function NoStateGuard(n: string, e: Event, c: int, s: StateId): bool { true }

  /** The actions store or clear the pincode. */
  function PinAction(n: string, e: Event, c: int, src: StateId, tgt: StateId): int {
    if n == "on_locked" then e.payload else if n == "on_unlocked" then 0 else c
  }

  /** Printing the status leaves the context as it is. */
  function KeepCtx(n: string, e: Event, c: int): int { c }

  function KeepCtxHook(n: string, s: StateId, e: Option<Event>, c: int): int { c }

  const Env0: Env<int> := Env(GuardEnv(NoStateGuard, PinGuard), PinAction, KeepCtx, KeepCtxHook)

  function Lock(pin: int): Event { Event("lock", pin) }
  function Unlock(pin: int): Event { Event("unlock", pin) }
  const Status := Event("status", 0)

  lemma TablesWellFormed()
    ensures WellFormed(Def.transitions) && Declared(Def.transitions, Def.initial)
    ensures WellFormed(LockedTable) && WellFormed(UnlockedTable)
  {
    var t := Def.transitions;
    assert CountOf(t, t[0]) == 1 && CountOf(t, t[1]) == 1;
    assert t[0].Tr? && t[0].source == Unlocked;
    assert CountOf(LockedTable, LockedTable[0]) == 1;
    assert CountOf(UnlockedTable, UnlockedTable[0]) == 1;
  }

  lemma EventsAccepted()
    ensures Accepts(Def, "lock") && Accepts(Def, "unlock") && Accepts(Def, "status")
  {
    DispatchableEventsAccepted(Def, "lock", 0);
    DispatchableEventsAccepted(Def, "unlock", 1);
    assert Decl(Def.states, Unlocked).internal == Some(UnlockedTable);
    assert UnlockedTable[0].event == "status";
    DispatchableEventsAccepted(Def, "status", 0);
  }

  /** The locker's declaration passes every assertion of the library and
      accepts its three events. */
  lemma DefinitionValid()
    ensures DefinitionValidFacts()
  {
    TablesWellFormed();
    EventsAccepted();
  }

  /** `status` is handled by the internal table of either state: `done`,
      same state, pincode untouched. */
  lemma StatusIsInternal(s: StateId, pin: int)
    requires s == Locked || s == Unlocked
    ensures DefinitionValidFacts()
    ensures var r := ProcessEvent(Def, Env0, Config(s, pin), Status);
      r.result == Done && r.config == Config(s, pin)
  {
    DefinitionValid();
    var it := if s == Locked then LockedTable else UnlockedTable;
    assert Decl(Def.states, s).internal == Some(it);
    InternalTransitionRuns(Def, Env0, Config(s, pin), Status, it, 0);
  }

  /** `lock` with a non-zero pincode leaves `unlocked` for `locked` and
      stores the pincode. */
  lemma LockAccepted(pin: int, code: int)
    requires code != 0
    ensures DefinitionValidFacts()
    ensures var r := ProcessEvent(Def, Env0, Config(Unlocked, pin), Lock(code));
      r.result == Done && r.config == Config(Locked, code)
  {
    DefinitionValid();
    assert Def.transitions[0].guard == GuardFn("is_set_pincode", Binary);
    CallGuardSelectsShape(Env0.guards, "is_set_pincode", Lock(code), pin, Unlocked);
    GlobalTransitionFires(Def, Env0, Config(Unlocked, pin), Lock(code), 0);
  }

  /** `lock{0}` is refused: the guard needs a non-zero pincode. */
  lemma LockRefused(pin: int)
    ensures DefinitionValidFacts()
    ensures ProcessEvent(Def, Env0, Config(Unlocked, pin), Lock(0)) == Step(Config(Unlocked, pin), Refuse, [])
  {
    DefinitionValid();
    assert Def.transitions[0].guard == GuardFn("is_set_pincode", Binary);
    CallGuardSelectsShape(Env0.guards, "is_set_pincode", Lock(0), pin, Unlocked);
    GlobalGuardRefuses(Def, Env0, Config(Unlocked, pin), Lock(0), 0);
  }

  /** `unlock` with the stored pincode leaves `locked` for `unlocked` and
      clears the pincode. */
  lemma UnlockAccepted(pin: int)
    ensures DefinitionValidFacts()
    ensures var r := ProcessEvent(Def, Env0, Config(Locked, pin), Unlock(pin));
      r.result == Done && r.config == Config(Unlocked, 0)
  {
    DefinitionValid();
    assert !Matches(Def.transitions[0], Locked, "unlock");
    assert Def.transitions[1].guard == GuardFn("is_valid_pincode", Binary);
    CallGuardSelectsShape(Env0.guards, "is_valid_pincode", Unlock(pin), pin, Locked);
    GlobalTransitionFires(Def, Env0, Config(Locked, pin), Unlock(pin), 1);
  }

  /** `unlock` with any other pincode is refused. */
  lemma UnlockRefused(pin: int, code: int)
    requires code != pin
    ensures DefinitionValidFacts()
    ensures ProcessEvent(Def, Env0, Config(Locked, pin), Unlock(code)) == Step(Config(Locked, pin), Refuse, [])
  {
    DefinitionValid();
    assert !Matches(Def.transitions[0], Locked, "unlock");
    assert Def.transitions[1].guard == GuardFn("is_valid_pincode", Binary);
    CallGuardSelectsShape(Env0.guards, "is_valid_pincode", Unlock(code), pin, Locked);
    assert !PinGuard("is_valid_pincode", Unlock(code), pin);
    GlobalGuardRefuses(Def, Env0, Config(Locked, pin), Unlock(code), 1);
  }

  predicate DefinitionValidFacts() {
    ValidDefinition(Def) && Accepts(Def, "lock") && Accepts(Def, "unlock") && Accepts(Def, "status")
  }

  /** The assertion sequence of the example's `main`: start unlocked with
      pincode 0; `status` is done and stays unlocked; `lock{0}` is refused;
      `lock{0x3254}` locks and stores the pincode; `status` is done while
      locked; `unlock{0x7258}` is refused; `unlock{0x3254}` unlocks and
      clears the pincode; a last `status` is done. */
  lemma Scenario()
    ensures DefinitionValidFacts()
    ensures var (c0, calls) := Construct(Def, Env0, 0);
      && c0 == Config(Unlocked, 0) && calls == [Enter(Unlocked, None)]
      && var s1 := ProcessEvent(Def, Env0, c0, Status);
      && s1.result == Done && s1.config == Config(Unlocked, 0)
      && var s2 := ProcessEvent(Def, Env0, s1.config, Lock(0));
      && s2.result == Refuse && IsInState(s2.config, Unlocked)
      && var s3 := ProcessEvent(Def, Env0, s2.config, Lock(0x3254));
      && s3.result == Done && s3.config == Config(Locked, 0x3254)
      && var s4 := ProcessEvent(Def, Env0, s3.config, Status);
      && s4.result == Done && IsInState(s4.config, Locked)
      && var s5 := ProcessEvent(Def, Env0, s4.config, Unlock(0x7258));
      && s5.result == Refuse && IsInState(s5.config, Locked)
      && var s6 := ProcessEvent(Def, Env0, s5.config, Unlock(0x3254));
      && s6.result == Done && s6.config == Config(Unlocked, 0)
      && var s7 := ProcessEvent(Def, Env0, s6.config, Status);
      && s7.result == Done
  {
    DefinitionValid();
    StatusIsInternal(Unlocked, 0);
    LockRefused(0);
    LockAccepted(0, 0x3254);
    StatusIsInternal(Locked, 0x3254);
    UnlockRefused(0x3254, 0x7258);
    UnlockAccepted(0x3254);
  }
}
