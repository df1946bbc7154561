/** The type-list algebra of `fsm_meta_lib_ecpp.h`: membership, counting,
    duplicate detection, first-occurrence de-duplication and `void`
    filtering, over sequences instead of parameter packs. */
module MetaLib {
  import opened Types

  /** Pairwise distinct elements. */
  predicate Distinct<T(==)>(s: seq<T>) {
    forall i, j | 0 <= i < j < |s| :: s[i] != s[j]
  }

  /** `contains<T>(type_pack<Ts...>)`: false on the empty pack, otherwise the
      disjunction of `is_same<T, Ts>`. */
  function Contains<T(==)>(s: seq<T>, x: T): (r: bool)
    ensures r <==> x in s
  {
    if |s| == 0 then false else s[0] == x || Contains(s[1..], x)
  }

  /** `count_of<T, Ts...>`: the sum of `is_same<T, Ts>`.  The fold over `+`
      has no value for an empty pack, so the pack must be non-empty. */
  function CountOf<T(==)>(s: seq<T>, x: T): (r: nat)
    requires |s| > 0
    ensures r <= |s|
    ensures r >= 1 <==> Contains(s, x)
  {
    var here := if s[0] == x then 1 else 0;
    if |s| == 1 then here else here + CountOf(s[1..], x)
  }

  /** `count_of` is the multiplicity of the type in the pack. */
  lemma {:induction false} CountOfIsMultiplicity<T>(s: seq<T>, x: T)
    requires |s| > 0
    ensures CountOf(s, x) == multiset(s)[x]
    decreases |s|
  {
    assert s == [s[0]] + s[1..];
    if |s| > 1 {
      CountOfIsMultiplicity(s[1..], x);
    }
  }

  /** `no_dublicates<Ts...>`: every element occurs exactly once. */
  predicate NoDuplicates<T(==)>(s: seq<T>) {
    forall i | 0 <= i < |s| :: CountOf(s, s[i]) == 1
  }

  lemma DistinctCountsOne<T>(s: seq<T>, i: nat)
    requires Distinct(s) && i < |s|
    ensures multiset(s)[s[i]] == 1
  {
    var x := s[i];
    assert s == s[..i] + [x] + s[i+1..];
    assert forall k | 0 <= k < |s| && k != i :: s[k] != x;
    assert x !in s[..i];
    assert x !in s[i+1..];
  }

  lemma RepeatCountsTwo<T>(s: seq<T>, i: nat, j: nat)
    requires i < j < |s| && s[i] == s[j]
    ensures multiset(s)[s[i]] >= 2
  {
    assert s == s[..i] + [s[i]] + s[i+1..j] + [s[j]] + s[j+1..];
  }

  /** `no_dublicates` holds exactly when the elements are pairwise distinct. */
  lemma NoDuplicatesIffDistinct<T>(s: seq<T>)
    ensures NoDuplicates(s) <==> Distinct(s)
  {
    if Distinct(s) {
      forall i | 0 <= i < |s| ensures CountOf(s, s[i]) == 1 {
        DistinctCountsOne(s, i);
        CountOfIsMultiplicity(s, s[i]);
      }
    }
    if !Distinct(s) {
      var i, j :| 0 <= i < j < |s| && s[i] == s[j];
      RepeatCountsTwo(s, i, j);
      CountOfIsMultiplicity(s, s[i]);
    }
  }

  /** `unique<std::variant<Ts...>, U, Us...>` (and `unique_pack`, the same
      recursion over `type_pack`): walk the candidates left to right and
      append each one the accumulator does not hold yet. */
  function Unique<T(==,!new)>(acc: seq<T>, rest: seq<T>): (r: seq<T>)
    ensures |acc| <= |r| && r[..|acc|] == acc
    ensures forall x :: x in r <==> x in acc || x in rest
    ensures Distinct(acc) ==> Distinct(r)
    decreases |rest|
  {
    if |rest| == 0 then acc
    else if Contains(acc, rest[0]) then Unique(acc, rest[1..])
    else Unique(acc + [rest[0]], rest[1..])
  }

  /** `unique_variant<Ts...>` / `unique_type_pack<Ts...>`. */
  function UniqueOf<T(==,!new)>(s: seq<T>): (r: seq<T>)
    ensures Distinct(r)
    ensures forall x :: x in r <==> x in s
  {
    Unique([], s)
  }

  /** Adding one more candidate at the end either leaves the result alone
      (already present) or appends it. */
  lemma {:induction false} UniqueSnoc<T(!new)>(acc: seq<T>, s: seq<T>, x: T)
    ensures Unique(acc, s + [x])
         == (var u := Unique(acc, s); if x in u then u else u + [x])
    decreases |s|
  {
    if |s| == 0 {
      assert s + [x] == [x];
      assert [x][1..] == [];
    } else {
      assert (s + [x])[0] == s[0];
      assert (s + [x])[1..] == s[1..] + [x];
      if Contains(acc, s[0]) {
        UniqueSnoc(acc, s[1..], x);
      } else {
        UniqueSnoc(acc + [s[0]], s[1..], x);
      }
    }
  }

  /** Index of the first occurrence of `x` in `s`. */
  function FirstIndex<T(==)>(s: seq<T>, x: T): (r: nat)
    requires x in s
    ensures r < |s| && s[r] == x && x !in s[..r]
  {
    if s[0] == x then 0
    else
      assert s[1..][FirstIndex(s[1..], x)] == x;
      assert s[..FirstIndex(s[1..], x) + 1] == [s[0]] + s[1..][..FirstIndex(s[1..], x)];
      1 + FirstIndex(s[1..], x)
  }

  /** The first occurrence of an element is unaffected by appending. */
  lemma FirstIndexSnoc<T>(s: seq<T>, y: T, x: T)
    requires x in s + [y]
    ensures x in s ==> FirstIndex(s + [y], x) == FirstIndex(s, x)
    ensures x !in s ==> FirstIndex(s + [y], x) == |s|
  {
    var k := FirstIndex(s + [y], x);
    if x in s {
      var k' := FirstIndex(s, x);
      assert (s + [y])[..k'] == s[..k'];
      assert (s + [y])[k'] == x;
      assert forall j | 0 <= j < k :: (s + [y])[j] != x by {
        assert forall j | 0 <= j < k :: (s + [y])[..k][j] == (s + [y])[j];
      }
    }
  }

  /** De-duplication keeps the elements in the order of their first
      occurrence in the input. */
  lemma {:induction false} UniqueOfKeepsFirstOccurrenceOrder<T(!new)>(s: seq<T>)
    ensures forall i, j | 0 <= i < j < |UniqueOf(s)| ::
              FirstIndex(s, UniqueOf(s)[i]) < FirstIndex(s, UniqueOf(s)[j])
    decreases |s|
  {
    if |s| > 0 {
      var p, y := s[..|s|-1], s[|s|-1];
      assert s == p + [y];
      UniqueOfKeepsFirstOccurrenceOrder(p);
      UniqueSnoc([], p, y);
      var u := UniqueOf(p);
      forall i, j | 0 <= i < j < |UniqueOf(s)|
        ensures FirstIndex(s, UniqueOf(s)[i]) < FirstIndex(s, UniqueOf(s)[j])
      {
        var a, b := UniqueOf(s)[i], UniqueOf(s)[j];
        FirstIndexSnoc(p, y, a);
        FirstIndexSnoc(p, y, b);
        if j < |u| {
          assert a == u[i] && b == u[j];
        } else {
          assert b == y && y !in u && a == u[i];
          assert FirstIndex(p, a) < |p|;
        }
      }
    }
  }

  /** An input whose elements are already distinct comes back unchanged. */
  lemma {:induction false} UniqueOfDistinct<T(!new)>(acc: seq<T>, rest: seq<T>)
    requires Distinct(acc + rest)
    ensures Unique(acc, rest) == acc + rest
    decreases |rest|
  {
    if |rest| > 0 {
      assert (acc + rest)[|acc|] == rest[0];
      assert rest[0] !in acc by {
        forall k | 0 <= k < |acc| ensures acc[k] != rest[0] {
          assert (acc + rest)[k] == acc[k];
        }
      }
      assert acc + [rest[0]] + rest[1..] == acc + rest;
      UniqueOfDistinct(acc + [rest[0]], rest[1..]);
    }
  }

  /** De-duplication is idempotent. */
  lemma UniqueOfIdempotent<T(!new)>(s: seq<T>)
    ensures Distinct(s) ==> UniqueOf(s) == s
    ensures UniqueOf(UniqueOf(s)) == UniqueOf(s)
  {
    if Distinct(s) { UniqueOfDistinct([], s); }
    UniqueOfDistinct([], UniqueOf(s));
  }

  /** `non_void<type_pack<Ts...>, U, Us...>`: walk the candidates left to
      right and append each one that is not `void`. */
  function NonVoid<T(!new)>(acc: seq<T>, rest: seq<Option<T>>): (r: seq<T>)
    ensures |acc| <= |r| && r[..|acc|] == acc
    ensures forall x :: x in r <==> x in acc || Some(x) in rest
    decreases |rest|
  {
    if |rest| == 0 then acc
    else match rest[0]
      case None => NonVoid(acc, rest[1..])
      case Some(u) => NonVoid(acc + [u], rest[1..])
  }

  /** `non_void_type_pack<Ts...>`. */
  function NonVoidPack<T(!new)>(s: seq<Option<T>>): (r: seq<T>)
    ensures forall x :: x in r <==> Some(x) in s
  {
    NonVoid([], s)
  }

  lemma {:induction false} NonVoidAccumulates<T(!new)>(acc: seq<T>, rest: seq<Option<T>>)
    ensures NonVoid(acc, rest) == acc + NonVoidPack(rest)
    decreases |rest|
  {
    if |rest| > 0 {
      match rest[0]
      case None =>
        NonVoidAccumulates(acc, rest[1..]);
        NonVoidAccumulates([], rest[1..]);
      case Some(u) =>
        NonVoidAccumulates(acc + [u], rest[1..]);
        NonVoidAccumulates([u], rest[1..]);
        var empty: seq<T> := [];
        assert empty + [u] == [u];
        assert NonVoidPack(rest) == NonVoid(empty + [u], rest[1..]);
        assert acc + [u] + NonVoidPack(rest[1..]) == acc + ([u] + NonVoidPack(rest[1..]));
    }
  }

  /** `void` filtering removes exactly the `void` entries and keeps the rest
      in order: it drops a lone `void`, keeps a lone type, and distributes
      over concatenation. */
  lemma {:induction false} NonVoidPackFilters<T(!new)>(a: seq<Option<T>>, b: seq<Option<T>>, x: T)
    ensures NonVoidPack<T>([None]) == []
    ensures NonVoidPack([Some(x)]) == [x]
    ensures NonVoidPack(a + b) == NonVoidPack(a) + NonVoidPack(b)
    decreases |a|
  {
    var none: seq<Option<T>> := [None];
    var empty: seq<T> := [];
    assert none[1..] == [] && [Some(x)][1..] == [];
    assert empty + [x] == [x];
    assert NonVoidPack([Some(x)]) == NonVoid(empty + [x], []);
    if |a| > 0 {
      assert (a + b)[0] == a[0] && (a + b)[1..] == a[1..] + b;
      NonVoidPackFilters(a[1..], b, x);
      match a[0]
      case None =>
      case Some(u) =>
        NonVoidAccumulates([u], a[1..] + b);
        NonVoidAccumulates([u], a[1..]);
        assert empty + [u] == [u];
        assert NonVoidPack(a + b) == NonVoid(empty + [u], a[1..] + b);
        assert NonVoidPack(a) == NonVoid(empty + [u], a[1..]);
    } else {
      assert a + b == b;
    }
  }
}
