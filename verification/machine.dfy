/** `state_machine<T>` of `fsm_ecpp.h`: one current state plus the user
    context, entry and exit hooks at construction and destruction, and
    `process_event` with global dispatch first and the current state's
    internal table second.

    `process_event` is a pure function from the configuration and the event
    to the next configuration, the result, and the ordered list of hook and
    action invocations it made. */
module Machine {
  import opened Types
  import opened MetaLib
  import opened Guards
  import opened Transitions
  import opened States
  import opened Tables

  /** The meaning of the user's guard, action and hook types.  Transition
      actions see `(event, ctx, source, target)`, internal actions
      `(event, ctx)`; hooks see the state and the event, which is `None`
      for the calls made by the constructor and the destructor. */
  datatype Env<!C> = Env(
    guards: GuardEnv<C>,
    action: (string, Event, C, StateId, StateId) -> C,
    internalAction: (string, Event, C) -> C,
    hook: (string, StateId, Option<Event>, C) -> C)

  /** The definition type `T`: `initial_state`, `transitions`, and what
      each state type declares. */
  datatype Definition = Definition(initial: StateId, transitions: Table, states: map<StateId, StateDecl>)

  /** `m_current` and the context the machine inherits from `T`. */
  datatype Config<C> = Config(current: StateId, ctx: C)

  /** One invocation made by the engine. */
  datatype Call =
    | Enter(state: StateId, event: Option<Event>)
    | Exit(state: StateId, event: Option<Event>)
    | Action(source: StateId, target: StateId)
    | InternalAction(state: StateId)

  datatype Step<C> = Step(config: Config<C>, result: EventResult, trace: seq<Call>)

  /** What must hold for `state_machine<T>` to be instantiated: the table
      and the internal table of every state it names pass their assertions
      (C++ never instantiates the tables of other states), the main table
      holds only `tr` (an `in` would put `void` into `states_variant` and
      make `target_t` a `void` variable), and the initial state is one of
      the table's states, so that `m_current` can hold it. */
  predicate ValidDefinition(def: Definition) {
    && WellFormed(def.transitions)
    && (forall i | 0 <= i < |def.transitions| :: def.transitions[i].Tr?)
    && Declared(def.transitions, def.initial)
    && forall s | s in def.states && Declared(def.transitions, s) && def.states[s].internal.Some? ::
         WellFormed(def.states[s].internal.value)
  }

  /** The `static_assert` of `process_event`: the event is in `events_pack`
      or in the `events_pack` of one of the merged internal tables. */
  predicate Accepts(def: Definition, k: EventKind) {
    || Contains(EventsPack(def.transitions), k)
    || ContainsInTable(InternalTransitions(def.transitions, InternalOf(def.states)), k)
  }

  function RunHook<C>(env: Env<C>, h: Hook, s: StateId, ev: Option<Event>, c: C): C {
    match h
    case NoHook => c
    case HookFn(n) => env.hook(n, s, ev, c)
  }

  function RunAction<C>(env: Env<C>, a: ActionRef, ev: Event, c: C, src: StateId, tgt: StateId): C {
    match a
    case NoneAction => c
    case ActionFn(n) => env.action(n, ev, c, src, tgt)
  }

  /** `Action` is recorded only when the action is not `none`. */
  function ActionCalls(a: ActionRef, src: StateId, tgt: StateId): seq<Call> {
    if a == NoneAction then [] else [Action(src, tgt)]
  }

  /** The constructor: `m_current` starts as `initial_state`, whose
      `on_enter` runs once with no event. */
  function Construct<C>(def: Definition, env: Env<C>, ctx: C): (r: (Config<C>, seq<Call>))
    requires ValidDefinition(def)
    ensures r.0.current == def.initial && r.0.current != EmptyState
    ensures r.1 == [Enter(def.initial, None)]
    ensures Decl(def.states, def.initial).onEnter == NoHook ==> r.0.ctx == ctx
  {
    var i :| 0 <= i < |def.transitions| && def.transitions[i].Tr?
             && (def.transitions[i].source == def.initial || def.transitions[i].target == def.initial);
    assert NoPlaceholder(def.transitions[i]);
    (Config(def.initial, RunHook(env, Decl(def.states, def.initial).onEnter, def.initial, None, ctx)),
     [Enter(def.initial, None)])
  }

  /** The destructor: `on_exit` of the current state runs once with no
      event. */
  function Destroy<C>(def: Definition, env: Env<C>, cfg: Config<C>): (r: (C, seq<Call>))
    requires ValidDefinition(def)
    ensures r.1 == [Exit(cfg.current, None)]
    ensures Decl(def.states, cfg.current).onExit == NoHook ==> r.0 == cfg.ctx
  {
    (RunHook(env, Decl(def.states, cfg.current).onExit, cfg.current, None, cfg.ctx),
     [Exit(cfg.current, None)])
  }

  /** The global branch once `get_index(source, event)` found `d`: check
      the guard, then exit the source, run the action, enter the target and
      store it. */
  function Transit<C>(def: Definition, env: Env<C>, cfg: Config<C>, ev: Event, d: Descriptor): (r: Step<C>)
    requires d.Tr?
    ensures r.result == Done <==> CallGuard(env.guards, d.guard, ev, cfg.ctx, cfg.current)
    ensures forall c | c in r.trace :: !c.InternalAction?
  {
    var src, tgt := cfg.current, d.target;
    if CallGuard(env.guards, d.guard, ev, cfg.ctx, src) then
      var c1 := RunHook(env, Decl(def.states, src).onExit, src, Some(ev), cfg.ctx);
      var c2 := RunAction(env, d.action, ev, c1, src, tgt);
      var c3 := RunHook(env, Decl(def.states, tgt).onEnter, tgt, Some(ev), c2);
      Step(Config(tgt, c3), Done,
           [Exit(src, Some(ev))] + ActionCalls(d.action, src, tgt) + [Enter(tgt, Some(ev))])
    else
      Step(cfg, Refuse, [])
  }

  /** The internal branch once `get_index(event)` found `d`: the action
      runs if it is not `none` and its guard allows it, and the result is
      `done` either way. */
  function RunInternal<C>(env: Env<C>, cfg: Config<C>, ev: Event, d: Descriptor): Step<C> {
    match d.action
    case ActionFn(n) =>
      if CallGuard(env.guards, d.guard, ev, cfg.ctx, cfg.current) then
        Step(Config(cfg.current, env.internalAction(n, ev, cfg.ctx)), Done, [InternalAction(cfg.current)])
      else
        Step(cfg, Done, [])
    case NoneAction => Step(cfg, Done, [])
  }

  /** `process_event`. */
  function ProcessEvent<C>(def: Definition, env: Env<C>, cfg: Config<C>, ev: Event): (r: Step<C>)
    requires ValidDefinition(def) && Accepts(def, ev.kind)
    ensures r.result == Refuse ==> r.config == cfg && r.trace == []
    ensures r.config.current != cfg.current ==>
      exists i | 0 <= i < |def.transitions| ::
        && def.transitions[i].Tr?
        && def.transitions[i].source == cfg.current
        && def.transitions[i].event == ev.kind
        && def.transitions[i].target == r.config.current
  {
    var t := def.transitions;
    var i := GetIndex(t, cfg.current, ev.kind);
    if i < Count(t) then Transit(def, env, cfg, ev, MakeTransition(t, i))
    else Internal(def, env, cfg, ev)
  }

  /** The internal branch of `process_event`, taken when no global
      descriptor matches: look the event up in the current state's internal
      table, if it has one. */
  function Internal<C>(def: Definition, env: Env<C>, cfg: Config<C>, ev: Event): (r: Step<C>)
    ensures r.config.current == cfg.current
    ensures r.result == Refuse ==> r.config == cfg && r.trace == []
  {
    match Decl(def.states, cfg.current).internal
    case None => Step(cfg, Refuse, [])
    case Some(it) =>
      var j := GetEventIndex(it, ev.kind);
      if j < Count(it) then RunInternal(env, cfg, ev, MakeTransition(it, j))
      else Step(cfg, Refuse, [])
  }

  /** `is_in_state<S>()`. */
  function IsInState<C>(cfg: Config<C>, s: StateId): bool {
    cfg.current == s
  }

  /** `j` is the first descriptor of `t` leaving `s` on `k`. */
  predicate FirstMatchAt(t: Table, s: StateId, k: EventKind, j: nat) {
    j < |t| && Matches(t[j], s, k) && forall i | 0 <= i < j :: !Matches(t[i], s, k)
  }

  lemma LookupFindsFirstMatch(t: Table, s: StateId, k: EventKind, j: nat)
    requires FirstMatchAt(t, s, k, j)
    ensures GetIndex(t, s, k) == j
  {
  }

  /** A matched transition whose guard allows it: exit the source, run the
      action (not recorded for `none`), enter the target, in that order and
      each once, threading the context through them; the machine is then in
      the target, a different state, and the result is `done`. */
  lemma GlobalTransitionFires<C>(def: Definition, env: Env<C>, cfg: Config<C>, ev: Event, j: nat)
    requires ValidDefinition(def) && Accepts(def, ev.kind)
    requires FirstMatchAt(def.transitions, cfg.current, ev.kind, j)
    requires CallGuard(env.guards, def.transitions[j].guard, ev, cfg.ctx, cfg.current)
    ensures var r := ProcessEvent(def, env, cfg, ev);
            var d, src := def.transitions[j], cfg.current;
      && r.result == Done
      && r.config.current == d.target != src
      && r.trace == [Exit(src, Some(ev))]
                    + (if d.action == NoneAction then [] else [Action(src, d.target)])
                    + [Enter(d.target, Some(ev))]
      && r.config.ctx
         == RunHook(env, Decl(def.states, d.target).onEnter, d.target, Some(ev),
              RunAction(env, d.action, ev,
                RunHook(env, Decl(def.states, src).onExit, src, Some(ev), cfg.ctx), src, d.target))
  {
    LookupFindsFirstMatch(def.transitions, cfg.current, ev.kind, j);
    assert Valid(def.transitions[j]);
  }

  /** A first match with the `none` action and the `none` guard always
      fires, and only the hooks run: the context becomes
      `on_enter(on_exit(ctx))`. */
  lemma NoneDescriptorFires<C>(def: Definition, env: Env<C>, cfg: Config<C>, ev: Event, j: nat)
    requires ValidDefinition(def) && Accepts(def, ev.kind)
    requires FirstMatchAt(def.transitions, cfg.current, ev.kind, j)
    requires def.transitions[j].action == NoneAction && def.transitions[j].guard == NoneGuard
    ensures var r := ProcessEvent(def, env, cfg, ev);
            var src, tgt := cfg.current, def.transitions[j].target;
      && r.result == Done
      && r.config.current == tgt
      && r.trace == [Exit(src, Some(ev)), Enter(tgt, Some(ev))]
      && r.config.ctx
         == RunHook(env, Decl(def.states, tgt).onEnter, tgt, Some(ev),
              RunHook(env, Decl(def.states, src).onExit, src, Some(ev), cfg.ctx))
  {
    NoneIsNeutral(env.guards, [], ev, cfg.ctx, cfg.current);
    GlobalTransitionFires(def, env, cfg, ev, j);
  }

  /** A matched transition whose guard refuses: `refuse`, nothing changes,
      nothing is invoked, and the internal table is not consulted even if it
      handles the event. */
  lemma GlobalGuardRefuses<C>(def: Definition, env: Env<C>, cfg: Config<C>, ev: Event, j: nat)
    requires ValidDefinition(def) && Accepts(def, ev.kind)
    requires FirstMatchAt(def.transitions, cfg.current, ev.kind, j)
    requires !CallGuard(env.guards, def.transitions[j].guard, ev, cfg.ctx, cfg.current)
    ensures ProcessEvent(def, env, cfg, ev) == Step(cfg, Refuse, [])
  {
    LookupFindsFirstMatch(def.transitions, cfg.current, ev.kind, j);
  }

  /** A global match always wins over the current state's internal table:
      no internal action runs, and the result follows the global guard. */
  lemma GlobalMatchShadowsInternal<C>(def: Definition, env: Env<C>, cfg: Config<C>, ev: Event, j: nat)
    requires ValidDefinition(def) && Accepts(def, ev.kind)
    requires FirstMatchAt(def.transitions, cfg.current, ev.kind, j)
    ensures var r := ProcessEvent(def, env, cfg, ev);
      && (forall c | c in r.trace :: !c.InternalAction?)
      && (r.result == Done <==> CallGuard(env.guards, def.transitions[j].guard, ev, cfg.ctx, cfg.current))
  {
    LookupFindsFirstMatch(def.transitions, cfg.current, ev.kind, j);
  }

  /** No global match and an internal entry for the event: the result is
      `done` whatever the guard says, the state does not change, no hook
      runs, and the internal action runs exactly when it is not `none` and
      its guard allows it. */
  lemma InternalTransitionRuns<C>(def: Definition, env: Env<C>, cfg: Config<C>, ev: Event, it: Table, j: nat)
    requires ValidDefinition(def) && Accepts(def, ev.kind)
    requires forall i | 0 <= i < |def.transitions| :: !Matches(def.transitions[i], cfg.current, ev.kind)
    requires Decl(def.states, cfg.current).internal == Some(it)
    requires j < |it| && it[j].event == ev.kind && forall i | 0 <= i < j :: it[i].event != ev.kind
    ensures var r := ProcessEvent(def, env, cfg, ev);
            var runs := it[j].action.ActionFn?
                        && CallGuard(env.guards, it[j].guard, ev, cfg.ctx, cfg.current);
      && r.result == Done
      && r.config.current == cfg.current
      && r.trace == (if runs then [InternalAction(cfg.current)] else [])
      && r.config.ctx == (if runs then env.internalAction(it[j].action.name, ev, cfg.ctx) else cfg.ctx)
  {
    LookupMissIffNoMatch(def.transitions, cfg.current, ev.kind);
    assert GetEventIndex(it, ev.kind) == j;
  }

  /** Neither lookup matches, or the state has no internal table:
      `refuse`, and nothing changes. */
  lemma NoMatchRefuses<C>(def: Definition, env: Env<C>, cfg: Config<C>, ev: Event)
    requires ValidDefinition(def) && Accepts(def, ev.kind)
    requires forall i | 0 <= i < |def.transitions| :: !Matches(def.transitions[i], cfg.current, ev.kind)
    requires var it := Decl(def.states, cfg.current).internal;
      it.Some? ==> forall i | 0 <= i < |it.value| :: it.value[i].event != ev.kind
    ensures ProcessEvent(def, env, cfg, ev) == Step(cfg, Refuse, [])
  {
  }

  /** A state that overrides nothing inherits hooks that do nothing and no
      internal table: destroying the machine there leaves the context
      alone, and an event with no global match from it is refused. */
  lemma DefaultStateIsInert<C>(def: Definition, env: Env<C>, cfg: Config<C>, ev: Event)
    requires ValidDefinition(def) && Accepts(def, ev.kind)
    requires cfg.current !in def.states
    ensures Destroy(def, env, cfg).0 == cfg.ctx
    ensures (forall i | 0 <= i < |def.transitions| :: !Matches(def.transitions[i], cfg.current, ev.kind))
        ==> ProcessEvent(def, env, cfg, ev) == Step(cfg, Refuse, [])
  {
    if forall i | 0 <= i < |def.transitions| :: !Matches(def.transitions[i], cfg.current, ev.kind) {
      NoMatchRefuses(def, env, cfg, ev);
    }
  }

  /** The machine is always in one of the table's declared states, never
      in the placeholder: construction starts in one and every event keeps
      it in one. */
  lemma StaysDeclared<C>(def: Definition, env: Env<C>, cfg: Config<C>, ev: Event)
    requires ValidDefinition(def) && Accepts(def, ev.kind)
    requires Declared(def.transitions, cfg.current)
    ensures var r := ProcessEvent(def, env, cfg, ev);
      Declared(def.transitions, r.config.current) && r.config.current != EmptyState
      && Some(r.config.current) in StatesVariant(def.transitions)
  {
    var t := def.transitions;
    var r := ProcessEvent(def, env, cfg, ev);
    assert Declared(t, r.config.current);
    var i :| 0 <= i < |t| && t[i].Tr? && (t[i].source == r.config.current || t[i].target == r.config.current);
    assert NoPlaceholder(t[i]);
    StatesPackMembers(t);
    StatesVariantAppendsPlaceholder(t);
  }

  /** Every event that has a global transition from some state passes the
      `process_event` assertion, and so does every event of the internal
      table of a state that some transition leaves. */
  lemma DispatchableEventsAccepted(def: Definition, k: EventKind, i: nat)
    requires i < |def.transitions| && def.transitions[i].Tr?
    ensures def.transitions[i].event == k ==> Accepts(def, k)
    ensures var it := Decl(def.states, def.transitions[i].source).internal;
      (it.Some? && exists j | 0 <= j < |it.value| :: it.value[j].event == k) ==> Accepts(def, k)
  {
    var t := def.transitions;
    var it := Decl(def.states, t[i].source).internal;
    InternalTransitionsMembers(t, InternalOf(def.states));
    if it.Some? {
      assert InternalOf(def.states)(t[i].source) == it;
      assert it.value in InternalTransitions(t, InternalOf(def.states));
    }
  }
}
