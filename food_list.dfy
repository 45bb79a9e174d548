/**
  The three list computations by which the dashboard reconciles its list of
  foods with a backend response: appending a created record, replacing every
  record with a given id (`foods.map(...)`), and dropping every record with a
  given id (`foods.filter(...)`). Each builds a new list; none sorts or dedups.
 */
module FoodList {
  import opened Foods

  /** Some element of `fs` has id `id`. */
  predicate HasId(fs: seq<Food>, id: int) {
    exists i :: 0 <= i < |fs| && fs[i].id == id
  }

  /** No two elements of `fs` share an id. The dashboard itself does not enforce this. */
  predicate UniqueIds(fs: seq<Food>) {
    forall i, j :: 0 <= i < j < |fs| ==> fs[i].id != fs[j].id
  }

  /** `r` is `s` with some elements left out and the rest in their original order. */
  ghost predicate Subsequence(r: seq<Food>, s: seq<Food>)
    decreases |s|
  {
    if s == [] then r == []
    else Subsequence(r, s[1..]) || (r != [] && r[0] == s[0] && Subsequence(r[1..], s[1..]))
  }

  /** Whether a list has an id, read off its head and tail. */
  lemma HasIdCons(fs: seq<Food>, id: int)
    requires fs != []
    ensures HasId(fs, id) <==> fs[0].id == id || HasId(fs[1..], id)
  {
  }

  /** A list has unique ids exactly when its tail does and the head's id is not in the tail. */
  lemma UniqueIdsCons(x: Food, t: seq<Food>)
    ensures UniqueIds([x] + t) <==> UniqueIds(t) && !HasId(t, x.id)
  {
    var fs := [x] + t;
    assert fs[1..] == t;
    HasIdCons(fs, x.id);
    if UniqueIds(fs) {
      forall i, j | 0 <= i < j < |t| ensures t[i].id != t[j].id {
        assert t[i] == fs[i + 1] && t[j] == fs[j + 1];
      }
    }
  }

  /** `[...foods, f]`: the list grows by one, at the end, and the earlier elements stay. */
  function Append(fs: seq<Food>, f: Food): (r: seq<Food>)
    ensures |r| == |fs| + 1
    ensures r[..|fs|] == fs
    ensures r[|fs|] == f
  {
    fs + [f]
  }

  /**
    `foods.map(f => f.id !== u.id ? f : u)`: same length and order; every
    element whose id is `u`'s becomes `u`, and every other one is untouched.
   */
  function ReplaceById(fs: seq<Food>, u: Food): (r: seq<Food>)
    ensures |r| == |fs|
    ensures forall i :: 0 <= i < |fs| ==> r[i] == if fs[i].id == u.id then u else fs[i]
  {
    if fs == [] then []
    else [if fs[0].id != u.id then fs[0] else u] + ReplaceById(fs[1..], u)
  }

  /**
    `foods.filter(f => f.id !== id)`: the result holds exactly the elements
    of `fs` whose id is not `id`, and is never longer.
   */
  function RemoveById(fs: seq<Food>, id: int): (r: seq<Food>)
    ensures |r| <= |fs|
    ensures forall f :: f in r <==> f in fs && f.id != id
  {
    if fs == [] then []
    else if fs[0].id != id then [fs[0]] + RemoveById(fs[1..], id)
    else RemoveById(fs[1..], id)
  }

  // ---------------------------------------------------------------------------
  // Replace by id
  // ---------------------------------------------------------------------------

  /** Replacing an id no element has leaves the list as it was. */
  lemma ReplaceByIdAbsent(fs: seq<Food>, u: Food)
    requires !HasId(fs, u.id)
    ensures ReplaceById(fs, u) == fs
  {
  }

  /** Replacing keeps the id at every position, so the sequence of ids is unchanged. */
  lemma ReplaceByIdKeepsIds(fs: seq<Food>, u: Food)
    ensures forall i :: 0 <= i < |fs| ==> ReplaceById(fs, u)[i].id == fs[i].id
    ensures HasId(ReplaceById(fs, u), u.id) <==> HasId(fs, u.id)
    ensures UniqueIds(fs) ==> UniqueIds(ReplaceById(fs, u))
  {
  }

  /** Applying the same response twice is applying it once. */
  lemma ReplaceByIdIdempotent(fs: seq<Food>, u: Food)
    ensures ReplaceById(ReplaceById(fs, u), u) == ReplaceById(fs, u)
  {
  }

  // ---------------------------------------------------------------------------
  // Remove by id
  // ---------------------------------------------------------------------------

  /** An id occurs after removal exactly when it occurred before and is not the removed one. */
  lemma RemoveByIdHasId(fs: seq<Food>, id: int, x: int)
    ensures HasId(RemoveById(fs, id), x) <==> HasId(fs, x) && x != id
  {
  }

  /** Removing an id no element has leaves the list as it was. */
  lemma {:induction false} RemoveByIdAbsent(fs: seq<Food>, id: int)
    requires !HasId(fs, id)
    ensures RemoveById(fs, id) == fs
  {
    if fs != [] {
      HasIdCons(fs, id);
      RemoveByIdAbsent(fs[1..], id);
      assert fs == [fs[0]] + fs[1..];
    }
  }

  /** Deleting the same id a second time changes nothing. */
  lemma RemoveByIdIdempotent(fs: seq<Food>, id: int)
    ensures RemoveById(RemoveById(fs, id), id) == RemoveById(fs, id)
  {
  }

  /** The remaining elements keep their relative order. */
  lemma {:induction false} RemoveByIdSubsequence(fs: seq<Food>, id: int)
    ensures Subsequence(RemoveById(fs, id), fs)
  {
    if fs != [] {
      RemoveByIdSubsequence(fs[1..], id);
      if fs[0].id != id {
        var r := RemoveById(fs, id);
        assert r[0] == fs[0] && r[1..] == RemoveById(fs[1..], id);
      }
    }
  }

  /** Filtering a concatenation filters each part: nothing moves across the cut. */
  lemma {:induction false} RemoveByIdConcat(a: seq<Food>, b: seq<Food>, id: int)
    ensures RemoveById(a + b, id) == RemoveById(a, id) + RemoveById(b, id)
  {
    if a == [] {
      assert a + b == b;
    } else {
      assert (a + b)[0] == a[0] && (a + b)[1..] == a[1..] + b;
      RemoveByIdConcat(a[1..], b, id);
    }
  }

  /** Each record with another id keeps its number of occurrences; records with the id have none. */
  lemma {:induction false} RemoveByIdCount(fs: seq<Food>, id: int)
    ensures forall f :: multiset(RemoveById(fs, id))[f] == if f.id == id then 0 else multiset(fs)[f]
  {
    if fs != [] {
      RemoveByIdCount(fs[1..], id);
      assert fs == [fs[0]] + fs[1..];
    }
  }

  /** Removal keeps ids unique; with unique ids, a present id costs exactly one element. */
  lemma {:induction false} RemoveByIdUnique(fs: seq<Food>, id: int)
    requires UniqueIds(fs)
    ensures UniqueIds(RemoveById(fs, id))
    ensures |RemoveById(fs, id)| == if HasId(fs, id) then |fs| - 1 else |fs|
  {
    if fs != [] {
      var t := fs[1..];
      assert fs == [fs[0]] + t;
      UniqueIdsCons(fs[0], t);
      HasIdCons(fs, id);
      RemoveByIdUnique(t, id);
      if fs[0].id != id {
        RemoveByIdHasId(t, id, fs[0].id);
        UniqueIdsCons(fs[0], RemoveById(t, id));
      }
    }
  }

  // ---------------------------------------------------------------------------
  // Append, and how it meets the other two
  // ---------------------------------------------------------------------------

  /** Appending keeps ids unique exactly when the new record's id is fresh. */
  lemma AppendUnique(fs: seq<Food>, f: Food)
    requires UniqueIds(fs)
    ensures UniqueIds(Append(fs, f)) <==> !HasId(fs, f.id)
  {
  }

  /** Deleting the id of a freshly created record undoes the append. */
  lemma RemoveAppended(fs: seq<Food>, f: Food)
    requires !HasId(fs, f.id)
    ensures RemoveById(Append(fs, f), f.id) == fs
  {
    RemoveByIdConcat(fs, [f], f.id);
    RemoveByIdAbsent(fs, f.id);
    assert RemoveById([f], f.id) == [];
  }

  /** Replacing by the id of the last-appended, fresh record changes only that last element. */
  lemma ReplaceAppended(fs: seq<Food>, f: Food, u: Food)
    requires !HasId(fs, f.id) && u.id == f.id
    ensures ReplaceById(Append(fs, f), u) == Append(fs, u)
  {
  }
}
