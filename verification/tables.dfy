/** `transition_table<T...>` of `fsm_transition_table_ecpp.h`: the
    duplicate check, the derived packs, first-match lookup and
    `contains_in_table`. */
module Tables {
  import opened Types
  import opened MetaLib
  import opened Guards
  import opened Transitions

  type Table = seq<Descriptor>

  /** The placeholder `empty_state` is declared inside the table, so no
      descriptor of that table can name it. */
  predicate NoPlaceholder(d: Descriptor) {
    d.Tr? ==> d.source != EmptyState && d.target != EmptyState
  }

  /** What must hold for the table type to be instantiated at all: the
      `no_dublicates` assertion over whole descriptors and every `tr`'s own
      `Source != Target` assertion. */
  predicate WellFormed(t: Table) {
    && NoDuplicates(t)
    && forall i | 0 <= i < |t| :: Valid(t[i]) && NoPlaceholder(t[i])
  }

  /** `count`. */
  function Count(t: Table): nat {
    |t|
  }

  /** `events_pack`: each descriptor's event, in order, repeats kept. */
  function EventsPack(t: Table): (r: seq<EventKind>)
    ensures |r| == Count(t)
    ensures forall i | 0 <= i < |t| :: r[i] == t[i].event
  {
    if |t| == 0 then [] else [t[0].event] + EventsPack(t[1..])
  }

  function Sources(t: Table): seq<Option<StateId>> {
    seq(|t|, i requires 0 <= i < |t| => SourceType(t[i]))
  }

  function Targets(t: Table): seq<Option<StateId>> {
    seq(|t|, i requires 0 <= i < |t| => TargetType(t[i]))
  }

  /** `states_pack`: first-occurrence de-duplication of all sources
      followed by all targets. */
  function StatesPack(t: Table): seq<Option<StateId>> {
    UniqueOf(Sources(t) + Targets(t))
  }

  /** `states_variant`: the same list with `empty_state` appended. */
  function StatesVariant(t: Table): seq<Option<StateId>> {
    UniqueOf(Sources(t) + Targets(t) + [Some(EmptyState)])
  }

  /** `s` is the source or the target of some `tr` of the table. */
  predicate Declared(t: Table, s: StateId) {
    exists i | 0 <= i < |t| :: t[i].Tr? && (t[i].source == s || t[i].target == s)
  }

  /** `internal_transitions`: the non-`void` `source_tr_t` of every
      descriptor followed by every `target_tr_t`. */
  function InternalTransitions(t: Table, internalOf: StateId -> Option<Table>): seq<Table> {
    NonVoidPack(seq(|t|, i requires 0 <= i < |t| => SourceTr(t[i], internalOf))
              + seq(|t|, i requires 0 <= i < |t| => TargetTr(t[i], internalOf)))
  }

  predicate Matches(d: Descriptor, s: StateId, e: EventKind) {
    d.Tr? && d.source == s && d.event == e
  }

  /** The loop of `get_index(s, e)` from index `from` on. */
  function IndexFrom(t: Table, s: StateId, e: EventKind, from: nat): (r: nat)
    requires from <= |t|
    ensures from <= r <= |t|
    ensures r < |t| ==> Matches(t[r], s, e)
    ensures forall j | from <= j < r :: !Matches(t[j], s, e)
    decreases |t| - from
  {
    if from == |t| then |t|
    else if Matches(t[from], s, e) then from
    else IndexFrom(t, s, e, from + 1)
  }

  /** `get_index(s, e)`: the smallest index whose source is `s` and whose
      event is `e`, or `count` when there is none. */
  function GetIndex(t: Table, s: StateId, e: EventKind): (r: nat)
    ensures r <= Count(t)
    ensures r < Count(t) ==> Matches(t[r], s, e)
    ensures forall j | 0 <= j < r :: !Matches(t[j], s, e)
  {
    IndexFrom(t, s, e, 0)
  }

  /** The loop of `get_index(e)` from index `from` on. */
  function EventIndexFrom(t: Table, e: EventKind, from: nat): (r: nat)
    requires from <= |t|
    ensures from <= r <= |t|
    ensures r < |t| ==> t[r].event == e
    ensures forall j | from <= j < r :: t[j].event != e
    decreases |t| - from
  {
    if from == |t| then |t|
    else if t[from].event == e then from
    else EventIndexFrom(t, e, from + 1)
  }

  /** `get_index(e)`: the smallest index whose event is `e`, or `count`. */
  function GetEventIndex(t: Table, e: EventKind): (r: nat)
    ensures r <= Count(t)
    ensures r < Count(t) ==> t[r].event == e
    ensures forall j | 0 <= j < r :: t[j].event != e
  {
    EventIndexFrom(t, e, 0)
  }

  /** `make_transition(i)`: the `i`-th descriptor; the index must be below
      `count`. */
  function MakeTransition(t: Table, i: nat): Descriptor
    requires i < Count(t)
  {
    t[i]
  }

  /** `contains_in_table<T>(type_pack<Ts...>)`: false for no tables,
      otherwise whether some table's `events_pack` holds `k`. */
  function ContainsInTable(tables: seq<Table>, k: EventKind): (r: bool)
    ensures r <==> exists i, j | 0 <= i < |tables| && 0 <= j < |tables[i]| :: tables[i][j].event == k
  {
    if |tables| == 0 then false
    else exists i | 0 <= i < |tables| :: Contains(EventsPack(tables[i]), k)
  }

  /** A well-formed table has pairwise distinct descriptors, compared as
      whole descriptors. */
  lemma WellFormedIsDistinct(t: Table)
    requires WellFormed(t)
    ensures Distinct(t)
    ensures forall i | 0 <= i < |t| :: t[i].Tr? ==> t[i].source != t[i].target
  {
    NoDuplicatesIffDistinct(t);
  }

  /** The duplicate assertion holds exactly when `!=` holds between the
      descriptors at every two positions, and then `==` holds only between
      a position and itself. */
  lemma DuplicateCheckComparesDescriptors(t: Table)
    ensures NoDuplicates(t) <==> forall i, j | 0 <= i < j < |t| :: DifferentDescriptor(t[i], t[j])
    ensures NoDuplicates(t) ==>
      forall i, j | 0 <= i < |t| && 0 <= j < |t| :: SameDescriptor(t[i], t[j]) <==> i == j
  {
    NoDuplicatesIffDistinct(t);
  }

  /** Both lookups report a miss exactly when nothing matches, and a hit
      can be turned into its descriptor by `make_transition`. */
  lemma LookupMissIffNoMatch(t: Table, s: StateId, e: EventKind)
    ensures GetIndex(t, s, e) == Count(t) <==> forall j | 0 <= j < |t| :: !Matches(t[j], s, e)
    ensures GetEventIndex(t, e) == Count(t) <==> forall j | 0 <= j < |t| :: t[j].event != e
    ensures GetIndex(t, s, e) < Count(t) ==>
      var d := MakeTransition(t, GetIndex(t, s, e)); d.Tr? && d.source == s && d.event == e
  {
  }

  /** `states_pack` is duplicate-free, holds exactly the declared states,
      and holds `void` exactly when the table has an `in` descriptor. */
  lemma StatesPackMembers(t: Table)
    ensures Distinct(StatesPack(t))
    ensures forall s :: Some(s) in StatesPack(t) <==> Declared(t, s)
    ensures None in StatesPack(t) <==> exists i | 0 <= i < |t| :: t[i].In?
  {
    var xs := Sources(t) + Targets(t);
    forall s ensures Some(s) in xs <==> Declared(t, s) {
      if Some(s) in xs {
        var k :| 0 <= k < |xs| && xs[k] == Some(s);
        if k < |t| { assert Sources(t)[k] == Some(s); } else { assert Targets(t)[k - |t|] == Some(s); }
      }
      if Declared(t, s) {
        var i :| 0 <= i < |t| && t[i].Tr? && (t[i].source == s || t[i].target == s);
        if t[i].source == s { assert xs[i] == Some(s); } else { assert xs[|t| + i] == Some(s); }
      }
    }
    if None in xs {
      var k :| 0 <= k < |xs| && xs[k] == None;
      if k < |t| { assert Sources(t)[k] == None; } else { assert Targets(t)[k - |t|] == None; }
    }
    if exists i | 0 <= i < |t| :: t[i].In? {
      var i :| 0 <= i < |t| && t[i].In?;
      assert xs[i] == None;
    }
  }

  /** With no descriptor naming the placeholder, `states_variant` is
      `states_pack` followed by `empty_state`, and is duplicate-free. */
  lemma StatesVariantAppendsPlaceholder(t: Table)
    requires forall i | 0 <= i < |t| :: NoPlaceholder(t[i])
    ensures StatesVariant(t) == StatesPack(t) + [Some(EmptyState)]
    ensures Distinct(StatesVariant(t))
  {
    var xs := Sources(t) + Targets(t);
    UniqueSnoc([], xs, Some(EmptyState));
    StatesPackMembers(t);
    assert !Declared(t, EmptyState) by {
      forall i | 0 <= i < |t| && t[i].Tr? ensures t[i].source != EmptyState && t[i].target != EmptyState {
        assert NoPlaceholder(t[i]);
      }
    }
  }

  /** `internal_transitions` holds exactly the internal tables of the
      sources of the table's `tr` descriptors. */
  lemma InternalTransitionsMembers(t: Table, internalOf: StateId -> Option<Table>)
    ensures forall tb :: tb in InternalTransitions(t, internalOf) <==>
      exists i | 0 <= i < |t| :: t[i].Tr? && internalOf(t[i].source) == Some(tb)
  {
    var xs := seq(|t|, i requires 0 <= i < |t| => SourceTr(t[i], internalOf));
    var ys := seq(|t|, i requires 0 <= i < |t| => TargetTr(t[i], internalOf));
    assert xs == ys;
    forall tb ensures Some(tb) in xs + ys <==>
      exists i | 0 <= i < |t| :: t[i].Tr? && internalOf(t[i].source) == Some(tb)
    {
      if Some(tb) in xs + ys {
        var k :| 0 <= k < |xs + ys| && (xs + ys)[k] == Some(tb);
        var i := if k < |t| then k else k - |t|;
        assert xs[i] == Some(tb);
      }
      if exists i | 0 <= i < |t| :: t[i].Tr? && internalOf(t[i].source) == Some(tb) {
        var i :| 0 <= i < |t| && t[i].Tr? && internalOf(t[i].source) == Some(tb);
        assert (xs + ys)[i] == xs[i];
      }
    }
  }

  /** Because `target_tr_t` is read from the source state, a state's own
      internal table reaches `internal_transitions` only through the `tr`
      descriptors that leave it: changing the tables of states that are no
      descriptor's source changes nothing. */
  lemma InternalTransitionsIgnoreTargets(t: Table, f: StateId -> Option<Table>, g: StateId -> Option<Table>)
    requires forall i | 0 <= i < |t| :: t[i].Tr? ==> f(t[i].source) == g(t[i].source)
    ensures InternalTransitions(t, f) == InternalTransitions(t, g)
  {
    assert seq(|t|, i requires 0 <= i < |t| => SourceTr(t[i], f))
        == seq(|t|, i requires 0 <= i < |t| => SourceTr(t[i], g));
    assert seq(|t|, i requires 0 <= i < |t| => TargetTr(t[i], f))
        == seq(|t|, i requires 0 <= i < |t| => TargetTr(t[i], g));
  }
}
