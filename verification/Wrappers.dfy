/** Values and notions that several modules share. */
module Wrappers {

  /** A value that may be missing. */
  datatype Option<T> = None | Some(value: T)

  predicate Distinct<T(==)>(s: seq<T>) {
    forall i, j :: 0 <= i < j < |s| ==> s[i] != s[j]
  }

  /** `kept` are the elements of `all` at the positions `at`, in their order. */
  ghost predicate Keeps<T>(all: seq<T>, at: seq<nat>, kept: seq<T>) {
    && |at| == |kept| && (forall k :: 0 <= k < |at| ==> at[k] < |all| && kept[k] == all[at[k]])
    && forall j, k :: 0 <= j < k < |at| ==> at[j] < at[k]
  }

  /** One more element at the end of the whole, kept or not. */
  lemma KeepsStep<T>(all: seq<T>, at: seq<nat>, kept: seq<T>, x: T, wanted: bool)
    requires Keeps(all, at, kept)
    ensures if wanted then Keeps(all + [x], at + [|all|], kept + [x]) else Keeps(all + [x], at, kept)
    ensures forall i :: i in at ==> i < |all|
  {
  }

  /** The wanted elements, in their order. */
  function Filtered<T>(wanted: T -> bool, all: seq<T>): seq<T> {
    if all == [] then []
    else
      var rest, last := Filtered(wanted, all[..|all| - 1]), all[|all| - 1];
      if wanted(last) then rest + [last] else rest
  }

  /** `kept` are exactly the wanted elements of `all`, in their order. */
  predicate IsSelection<T(==)>(all: seq<T>, kept: seq<T>, wanted: T -> bool) {
    kept == Filtered(wanted, all)
  }

  /** Their positions: in order, and those of the wanted elements and no others. */
  lemma {:induction false} SelectionMeaning<T>(all: seq<T>, kept: seq<T>, wanted: T -> bool) returns (at: seq<nat>)
    requires IsSelection(all, kept, wanted)
    ensures Keeps(all, at, kept) && forall i :: 0 <= i < |all| ==> (i in at <==> wanted(all[i]))
  {
    at := [];
    if all != [] {
      var front, last := all[..|all| - 1], all[|all| - 1];
      var before := SelectionMeaning(front, Filtered(wanted, front), wanted);
      KeepsStep(front, before, Filtered(wanted, front), last, wanted(last));
      assert all == front + [last];
      at := if wanted(last) then before + [|front|] else before;
    }
  }

  lemma SelectionStep<T>(all: seq<T>, kept: seq<T>, wanted: T -> bool, x: T)
    requires IsSelection(all, kept, wanted)
    ensures IsSelection(all + [x], if wanted(x) then kept + [x] else kept, wanted)
  {
    assert (all + [x])[..|all|] == all;
  }

  /** What is selected, and nothing else, is in it. */
  lemma {:induction false} SelectionMembers<T>(all: seq<T>, wanted: T -> bool, x: T)
    ensures x in Filtered(wanted, all) <==> x in all && wanted(x)
  {
    if all != [] {
      SelectionMembers(all[..|all| - 1], wanted, x);
      assert all == all[..|all| - 1] + [all[|all| - 1]];
    }
  }

  lemma {:induction false} FilteredBoth<T>(wanted: T -> bool, a: seq<T>, b: seq<T>)
    ensures Filtered(wanted, a + b) == Filtered(wanted, a) + Filtered(wanted, b)
  {
    if b == [] {
      assert a + b == a;
    } else {
      assert (a + b)[..|a + b| - 1] == a + b[..|b| - 1];
      FilteredBoth(wanted, a, b[..|b| - 1]);
    }
  }

  /** One more element in front of the whole, selected or not. */
  lemma SelectionInFront<T>(all: seq<T>, wanted: T -> bool)
    requires all != []
    ensures Filtered(wanted, all)
            == if wanted(all[0]) then [all[0]] + Filtered(wanted, all[1..]) else Filtered(wanted, all[1..])
  {
    FilteredBoth(wanted, [all[0]], all[1..]);
    assert all == [all[0]] + all[1..] && [all[0]][..0] == [];
  }

  /** `out` has, in order, one image of each wanted element of `all`. */
  ghost predicate AreImages<T, U>(all: seq<T>, out: seq<U>, wanted: T -> bool, fits: (T, U) -> bool) {
    var picked := Filtered(wanted, all);
    |out| == |picked| && forall k :: 0 <= k < |picked| ==> fits(picked[k], out[k])
  }

  /** One more element in front of the whole, with its image if it is wanted. */
  lemma ImageInFront<T, U>(all: seq<T>, out: seq<U>, wanted: T -> bool, fits: (T, U) -> bool, u: U)
    requires all != [] && AreImages(all[1..], out, wanted, fits) && (wanted(all[0]) ==> fits(all[0], u))
    ensures AreImages(all, if wanted(all[0]) then [u] + out else out, wanted, fits)
  {
    SelectionInFront(all, wanted);
  }

  function Concat<T>(parts: seq<seq<T>>): seq<T> {
    if parts == [] then [] else Concat(parts[..|parts| - 1]) + parts[|parts| - 1]
  }

  lemma ConcatStep<T>(parts: seq<seq<T>>, part: seq<T>)
    ensures Concat(parts + [part]) == Concat(parts) + part
  {
    assert (parts + [part])[..|parts|] == parts;
  }
}
