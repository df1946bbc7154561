/** Guards and the call adapter of `fsm_guard_ecpp.h`, the `none` guard,
    and the forwarding combinators of `fsm_conditions_ecpp.h`.

    A guard type is a name with the call shapes it implements; what a named
    guard answers is supplied by a `GuardEnv`.  Every guard receives its
    arguments by const reference, so evaluating one is a pure function to
    `bool` and can never change the context. */
module Guards {
  import opened Types

  /** The call shapes of a user guard type: `(event, fsm, src)` (the
      `CallGuard` concept), `(event, fsm)` (`CallGuardShort`), or neither.
      A user guard with both shapes is not represented. */
  datatype Shape = Ternary | Binary | Uncallable

  datatype Guard =
    | NoneGuard                          // `none`
    | GuardFn(name: string, shape: Shape) // a user guard type
    | Not(operand: Guard)                // `not_<G>`
    | And(operands: seq<Guard>)          // `and_<G...>`
    | Or(operands: seq<Guard>)           // `or_<G...>`

  /** The meaning of the user guard types, one function per call shape. */
  datatype GuardEnv<!C> = GuardEnv(
    ternary: (string, Event, C, StateId) -> bool,
    binary: (string, Event, C) -> bool)

  /** `g(event, fsm, src)` is a call returning `bool`.  `none` answers the
      machine's call through its `bool` operator.  `not_<G>` has three
      overloads of this shape; when `G` has both shapes two of them are
      viable and the call is ambiguous.  A non-empty `and_` / `or_` has a
      constrained operator and an unconstrained fallback, and the empty ones
      take any arguments. */
  predicate TakesTriple(g: Guard)
    decreases g, 1
  {
    match g
    case GuardFn(_, shape) => shape == Ternary
    case Not(h) => !BothShapes(h)
    case _ => true
  }

  /** `g(event, fsm)` is a call returning `bool`: a user guard of that
      shape, or `and_<>` / `or_<>`, whose operator is variadic. */
  predicate TakesPair(g: Guard) {
    match g
    case GuardFn(_, shape) => shape == Binary
    case And(gs) => |gs| == 0
    case Or(gs) => |gs| == 0
    case _ => false
  }

  /** Both concepts hold, so `call_guard<G>` and `not_<G>` cannot choose an
      overload. */
  predicate BothShapes(g: Guard)
    decreases g, 2
  {
    TakesTriple(g) && TakesPair(g)
  }

  predicate HasShape(g: Guard) {
    TakesTriple(g) || TakesPair(g)
  }

  /** No operand of a non-empty `and_` / `or_` has both shapes.  Otherwise
      the constraint of the combinator's main operator fails and its
      unconstrained fallback answers `true`. */
  predicate Plain(gs: seq<Guard>) {
    forall i | 0 <= i < |gs| :: !BothShapes(gs[i])
  }

  /** What `g`'s own call operator answers, for a guard that has one: the
      three-argument call when it exists, else the two-argument one. */
  function Answer<C>(env: GuardEnv<C>, g: Guard, e: Event, c: C, s: StateId): bool
    decreases g, 1
  {
    match g
    case NoneGuard => true
    case GuardFn(n, shape) =>
      (match shape
       case Ternary => env.ternary(n, e, c, s)
       case Binary => env.binary(n, e, c)
       case Uncallable => true)
    case Not(h) => if HasShape(h) then !Answer(env, h, e, c, s) else false
    case And(gs) =>
      if |gs| == 0 then false
      else if !Plain(gs) then true
      else forall i | 0 <= i < |gs| :: CallGuard(env, gs[i], e, c, s)
    case Or(gs) =>
      if |gs| == 0 then true
      else if !Plain(gs) then true
      else exists i | 0 <= i < |gs| :: CallGuard(env, gs[i], e, c, s)
  }

  /** `call_guard<G>{}(event, fsm, src)`: `G`'s answer when it has a call
      shape, `true` when it has none.  For `and_<>` / `or_<>`, for which
      `call_guard` itself is ambiguous, this is the answer both of their
      calls give, which is what the machine gets when it calls them
      directly. */
  function CallGuard<C>(env: GuardEnv<C>, g: Guard, e: Event, c: C, s: StateId): bool
    decreases g, 2
  {
    if HasShape(g) then Answer(env, g, e, c, s) else true
  }

  /** The user-guard cases of `call_guard`, unfolded for the examples'
      proofs. */
  lemma CallGuardSelectsShape<C>(env: GuardEnv<C>, n: string, e: Event, c: C, s: StateId)
    ensures CallGuard(env, GuardFn(n, Ternary), e, c, s) == env.ternary(n, e, c, s)
    ensures CallGuard(env, GuardFn(n, Binary), e, c, s) == env.binary(n, e, c)
    ensures CallGuard(env, GuardFn(n, Uncallable), e, c, s)
  {
  }

  /** `not_<G>` answers the opposite of `call_guard<G>` for every `G` that
      has at most one shape: it negates the shape `G` has, and refuses
      where `call_guard` allows a `G` with no shape.  `not_<and_<>>` and
      `not_<or_<>>` have no valid call at all, so as an operand
      `call_guard` allows them. */
  lemma NotNegates<C>(env: GuardEnv<C>, g: Guard, e: Event, c: C, s: StateId)
    ensures !BothShapes(g) ==> CallGuard(env, Not(g), e, c, s) == !CallGuard(env, g, e, c, s)
    ensures BothShapes(g) ==> !HasShape(Not(g)) && CallGuard(env, Not(g), e, c, s)
  {
  }

  /** Negating twice gives back the guard, including a guard with no shape.
      The exceptions are `and_<>` and `or_<>`: the inner `not_` has no call,
      so the outer one refuses. */
  lemma DoubleNegation<C>(env: GuardEnv<C>, g: Guard, e: Event, c: C, s: StateId)
    ensures !BothShapes(g) ==> CallGuard(env, Not(Not(g)), e, c, s) == CallGuard(env, g, e, c, s)
    ensures BothShapes(g) ==> !CallGuard(env, Not(Not(g)), e, c, s)
  {
    NotNegates(env, g, e, c, s);
    NotNegates(env, Not(g), e, c, s);
  }

  /** `none` is the unit of a non-empty `and_` and absorbs any `or_`;
      `not_<none>` refuses. */
  lemma NoneIsNeutral<C>(env: GuardEnv<C>, gs: seq<Guard>, e: Event, c: C, s: StateId)
    ensures CallGuard(env, NoneGuard, e, c, s) && !CallGuard(env, Not(NoneGuard), e, c, s)
    ensures |gs| > 0 ==> CallGuard(env, And(gs + [NoneGuard]), e, c, s) == CallGuard(env, And(gs), e, c, s)
    ensures CallGuard(env, Or(gs + [NoneGuard]), e, c, s)
  {
    var hs := gs + [NoneGuard];
    assert hs[|gs|] == NoneGuard;
    assert forall i | 0 <= i < |gs| :: hs[i] == gs[i];
    assert Plain(hs) <==> Plain(gs);
    assert CallGuard(env, hs[|gs|], e, c, s);
    if |gs| > 0 && Plain(gs) {
      assert CallGuard(env, And(hs), e, c, s) == forall i | 0 <= i < |hs| :: CallGuard(env, hs[i], e, c, s);
      assert CallGuard(env, And(gs), e, c, s) == forall i | 0 <= i < |gs| :: CallGuard(env, gs[i], e, c, s);
    }
  }

  /** A one-operand `and_` or `or_` answers as its operand, unless the
      operand has both shapes: then the combinator's fallback allows, so
      `and_<and_<>>` allows although `and_<>` refuses.  The empty
      combinators refuse and allow. */
  lemma SingleOperand<C>(env: GuardEnv<C>, g: Guard, e: Event, c: C, s: StateId)
    ensures !BothShapes(g) ==> CallGuard(env, And([g]), e, c, s) == CallGuard(env, g, e, c, s)
    ensures !BothShapes(g) ==> CallGuard(env, Or([g]), e, c, s) == CallGuard(env, g, e, c, s)
    ensures BothShapes(g) ==> CallGuard(env, And([g]), e, c, s) && CallGuard(env, Or([g]), e, c, s)
    ensures !CallGuard(env, And([]), e, c, s) && CallGuard(env, Or([]), e, c, s)
  {
    assert [g][0] == g;
  }

  /** Splitting the operands of `and_` / `or_` in two: the combinator of
      the whole is the conjunction / disjunction of the combinators of the
      parts, as long as no operand has both shapes and neither part is
      empty (`and_<>` refuses and `or_<>` allows). */
  lemma SplitOperands<C>(env: GuardEnv<C>, a: seq<Guard>, b: seq<Guard>, e: Event, c: C, s: StateId)
    requires |a| > 0 && |b| > 0 && Plain(a + b)
    ensures Plain(a) && Plain(b)
    ensures CallGuard(env, And(a + b), e, c, s)
        == (CallGuard(env, And(a), e, c, s) && CallGuard(env, And(b), e, c, s))
    ensures CallGuard(env, Or(a + b), e, c, s)
        == (CallGuard(env, Or(a), e, c, s) || CallGuard(env, Or(b), e, c, s))
  {
    var ab := a + b;
    assert forall i | 0 <= i < |a| :: ab[i] == a[i];
    assert forall i | 0 <= i < |b| :: ab[|a| + i] == b[i];
    assert forall i | |a| <= i < |ab| :: ab[i] == b[i - |a|];
  }

  function Negated(gs: seq<Guard>): (r: seq<Guard>)
    ensures |r| == |gs| && forall i | 0 <= i < |gs| :: r[i] == Not(gs[i])
  {
    seq(|gs|, i requires 0 <= i < |gs| => Not(gs[i]))
  }

  /** De Morgan's laws for `and_` / `or_` over operands that have at most
      one shape.  When an operand is `and_<>` or `or_<>`, the fallback makes
      `and_` allow, so `not_<and_<...>>` refuses while `or_<not_<...>...>`
      allows.  `not_<and_<>>` and `not_<or_<>>` themselves do not compile. */
  lemma DeMorgan<C>(env: GuardEnv<C>, gs: seq<Guard>, e: Event, c: C, s: StateId)
    ensures |gs| > 0 && Plain(gs) ==>
      CallGuard(env, Not(And(gs)), e, c, s) == CallGuard(env, Or(Negated(gs)), e, c, s)
    ensures |gs| > 0 && Plain(gs) ==>
      CallGuard(env, Not(Or(gs)), e, c, s) == CallGuard(env, And(Negated(gs)), e, c, s)
    ensures |gs| > 0 && !Plain(gs) ==>
      !CallGuard(env, Not(And(gs)), e, c, s) && CallGuard(env, Or(Negated(gs)), e, c, s)
  {
    var ng := Negated(gs);
    forall i | 0 <= i < |gs|
      ensures !BothShapes(ng[i])
      ensures !BothShapes(gs[i]) ==> CallGuard(env, ng[i], e, c, s) == !CallGuard(env, gs[i], e, c, s)
      ensures BothShapes(gs[i]) ==> CallGuard(env, ng[i], e, c, s)
    {
      NotNegates(env, gs[i], e, c, s);
    }
    if |gs| > 0 {
      assert Plain(ng);
      NotNegates(env, And(gs), e, c, s);
      NotNegates(env, Or(gs), e, c, s);
      assert CallGuard(env, Or(ng), e, c, s) == exists i | 0 <= i < |ng| :: CallGuard(env, ng[i], e, c, s);
      assert CallGuard(env, And(ng), e, c, s) == forall i | 0 <= i < |ng| :: CallGuard(env, ng[i], e, c, s);
      if Plain(gs) {
        assert CallGuard(env, And(gs), e, c, s) == forall i | 0 <= i < |gs| :: CallGuard(env, gs[i], e, c, s);
        assert CallGuard(env, Or(gs), e, c, s) == exists i | 0 <= i < |gs| :: CallGuard(env, gs[i], e, c, s);
      } else {
        var k :| 0 <= k < |gs| && BothShapes(gs[k]);
        assert CallGuard(env, ng[k], e, c, s);
      }
    }
  }

  /** The combinators of `fsm_conditions_ecpp.h`: `not_`, `and_` and `or_`
      hand the caller's arguments to each predicate as they are, with no
      adapter; `and_<>` refuses and `or_<>` allows.  A predicate called
      with `(event, fsm, src)` must take that shape. */
  datatype Forwarding =
    | Pred(name: string)
    | FNot(operand: Forwarding)
    | FAnd(operands: seq<Forwarding>)
    | FOr(operands: seq<Forwarding>)

  function Forward<C>(env: GuardEnv<C>, p: Forwarding, e: Event, c: C, s: StateId): bool
    decreases p
  {
    match p
    case Pred(n) => env.ternary(n, e, c, s)
    case FNot(q) => !Forward(env, q, e, c, s)
    case FAnd(ps) => |ps| > 0 && forall i | 0 <= i < |ps| :: Forward(env, ps[i], e, c, s)
    case FOr(ps) => |ps| == 0 || exists i | 0 <= i < |ps| :: Forward(env, ps[i], e, c, s)
  }

  /** The same expression written with the combinators of
      `fsm_guard_ecpp.h`. */
  function Adapted(p: Forwarding): Guard
    decreases p
  {
    match p
    case Pred(n) => GuardFn(n, Ternary)
    case FNot(q) => Not(Adapted(q))
    case FAnd(ps) => And(seq(|ps|, i requires 0 <= i < |ps| => Adapted(ps[i])))
    case FOr(ps) => Or(seq(|ps|, i requires 0 <= i < |ps| => Adapted(ps[i])))
  }

  predicate EmptyCombinator(p: Forwarding) {
    (p.FAnd? || p.FOr?) && |p.operands| == 0
  }

  /** No `and_<>` / `or_<>` appears as an operand anywhere in `p`. */
  predicate NoEmptyOperand(p: Forwarding)
    decreases p
  {
    match p
    case Pred(_) => true
    case FNot(q) => !EmptyCombinator(q) && NoEmptyOperand(q)
    case FAnd(ps) => forall i | 0 <= i < |ps| :: !EmptyCombinator(ps[i]) && NoEmptyOperand(ps[i])
    case FOr(ps) => forall i | 0 <= i < |ps| :: !EmptyCombinator(ps[i]) && NoEmptyOperand(ps[i])
  }

  /** Only an empty combinator has both shapes once adapted. */
  lemma AdaptedBothShapes(p: Forwarding)
    ensures BothShapes(Adapted(p)) <==> EmptyCombinator(p)
  {
  }

  /** On predicates taking `(event, fsm, src)`, the forwarding combinators
      answer as the adapter-based ones, provided no empty combinator is used
      as an operand. */
  lemma {:induction false} ForwardingCombinatorsAgree<C>(env: GuardEnv<C>, p: Forwarding, e: Event, c: C, s: StateId)
    requires NoEmptyOperand(p)
    ensures Forward(env, p, e, c, s) == CallGuard(env, Adapted(p), e, c, s)
    decreases p
  {
    match p
    case Pred(n) =>
    case FNot(q) =>
      ForwardingCombinatorsAgree(env, q, e, c, s);
      AdaptedBothShapes(q);
      NotNegates(env, Adapted(q), e, c, s);
    case FAnd(ps) =>
      var gs := Adapted(p).operands;
      forall i | 0 <= i < |ps|
        ensures Forward(env, ps[i], e, c, s) == CallGuard(env, gs[i], e, c, s)
        ensures !BothShapes(gs[i])
      {
        ForwardingCombinatorsAgree(env, ps[i], e, c, s);
        AdaptedBothShapes(ps[i]);
      }
    case FOr(ps) =>
      var gs := Adapted(p).operands;
      forall i | 0 <= i < |ps|
        ensures Forward(env, ps[i], e, c, s) == CallGuard(env, gs[i], e, c, s)
        ensures !BothShapes(gs[i])
      {
        ForwardingCombinatorsAgree(env, ps[i], e, c, s);
        AdaptedBothShapes(ps[i]);
      }
  }

  /** With an empty combinator as an operand the two families part:
      forwarding `and_<and_<>>` refuses, the adapter-based one allows. */
  lemma ForwardingDiffersOnEmptyOperand<C>(env: GuardEnv<C>, e: Event, c: C, s: StateId)
    ensures !Forward(env, FAnd([FAnd([])]), e, c, s)
    ensures CallGuard(env, Adapted(FAnd([FAnd([])])), e, c, s)
  {
    var inner: seq<Forwarding> := [];
    assert Adapted(FAnd(inner)) == And([]);
    assert Adapted(FAnd([FAnd(inner)])).operands == [And([])];
    var outer := [FAnd(inner)];
    assert outer[0] == FAnd(inner);
    assert !Forward(env, outer[0], e, c, s);
  }
}
