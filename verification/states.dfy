/** State types of `fsm_state_ecpp.h`.  A state carries no data; what
    matters is its optional internal transition table and its `on_enter` /
    `on_exit` hooks. */
module States {
  import opened Types
  import opened Transitions

  /** An `on_enter` / `on_exit` hook: the inherited no-op, or a user one. */
  datatype Hook = NoHook | HookFn(name: string)

  /** What a state type declares: `internal_transitions` (`None` is
      `void`) and its two hooks. */
  datatype StateDecl = StateDecl(internal: Option<seq<Descriptor>>, onEnter: Hook, onExit: Hook)

  /** `state<Child>`: no internal table, hooks that do nothing. */
  const DefaultState: StateDecl := StateDecl(None, NoHook, NoHook)

  /** The declaration of `s`; a state that overrides nothing is absent
      from `decls` and gets the inherited defaults. */
  function Decl(decls: map<StateId, StateDecl>, s: StateId): (r: StateDecl)
    ensures s !in decls ==> r.internal == None && r.onEnter == NoHook && r.onExit == NoHook
    ensures s in decls ==> r == decls[s]
  {
    if s in decls then decls[s] else DefaultState
  }

  /** `S::internal_transitions` for every state type `S`. */
  function InternalOf(decls: map<StateId, StateDecl>): StateId -> Option<seq<Descriptor>> {
    s => Decl(decls, s).internal
  }
}
