/** What it means to pick elements of a sequence, in order. */
module Selections {

  /** `at` lists, in order, exactly the places that are flagged. */
  predicate PlacesAt(flags: seq<bool>, at: seq<nat>) {
    && (forall i, j :: 0 <= i < j < |at| ==> at[i] < at[j])
    && (forall i :: 0 <= i < |at| ==> at[i] < |flags|)
    && (forall k :: 0 <= k < |flags| ==> (k in at <==> flags[k]))
  }

  /** `found` are the elements at these places. */
  predicate FoundAt<T(==)>(all: seq<T>, at: seq<nat>, found: seq<T>) {
    |found| == |at| && forall i :: 0 <= i < |at| ==> at[i] < |all| && found[i] == all[at[i]]
  }

  lemma OneMorePlace(flags: seq<bool>, at: seq<nat>)
    requires flags != [] && PlacesAt(flags[..|flags| - 1], at)
    ensures PlacesAt(flags, if flags[|flags| - 1] then at + [|flags| - 1] else at)
  {
    var n := |flags| - 1;
    var more := if flags[n] then at + [n] else at;
    forall k | 0 <= k < |flags| ensures k in more <==> flags[k] {
      assert k < n ==> flags[k] == flags[..n][k];
    }
  }

  lemma OneMoreFound<T>(all: seq<T>, at: seq<nat>, found: seq<T>)
    requires all != [] && FoundAt(all[..|all| - 1], at, found)
    ensures FoundAt(all, at, found)
    ensures FoundAt(all, at + [|all| - 1], found + [all[|all| - 1]])
  {
  }

  /** The elements whose flag is set. */
  function Kept<T>(all: seq<T>, flags: seq<bool>): seq<T>
    requires |all| == |flags|
  {
    if all == [] then []
    else
      var n := |all| - 1;
      Kept(all[..n], flags[..n]) + if flags[n] then [all[n]] else []
  }

  lemma {:induction false} KeptMeans<T>(all: seq<T>, flags: seq<bool>) returns (at: seq<nat>)
    requires |all| == |flags|
    ensures PlacesAt(flags, at) && FoundAt(all, at, Kept(all, flags))
  {
    at := [];
    if all != [] {
      var n := |all| - 1;
      at := KeptMeans(all[..n], flags[..n]);
      OneMorePlace(flags, at);
      OneMoreFound(all, at, Kept(all[..n], flags[..n]));
      at := if flags[n] then at + [n] else at;
    }
  }

  function Flags<T>(all: seq<T>, wanted: T -> bool): (flags: seq<bool>)
    ensures |flags| == |all|
  {
    seq(|all|, i requires 0 <= i < |all| => wanted(all[i]))
  }

  /** Every element wanted and no other, in the order of `all` and as often as it is there. */
  ghost predicate IsSelection<T>(all: seq<T>, found: seq<T>, wanted: T -> bool) {
    exists at: seq<nat> :: PlacesAt(Flags(all, wanted), at) && FoundAt(all, at, found)
  }

  function Selected<T>(all: seq<T>, wanted: T -> bool): seq<T> {
    Kept(all, Flags(all, wanted))
  }

  lemma SelectedOneMore<T>(all: seq<T>, wanted: T -> bool)
    requires all != []
    ensures var n := |all| - 1;
            Selected(all, wanted) == Selected(all[..n], wanted) + if wanted(all[n]) then [all[n]] else []
  {
    assert Flags(all, wanted)[..|all| - 1] == Flags(all[..|all| - 1], wanted);
  }

  lemma SelectedIsSelection<T>(all: seq<T>, wanted: T -> bool)
    ensures IsSelection(all, Selected(all, wanted), wanted)
  {
    var at := KeptMeans(all, Flags(all, wanted));
  }

  /** The same elements are wanted under both descriptions. */
  lemma SelectAlike<T(!new)>(all: seq<T>, found: seq<T>, wanted: T -> bool, alike: T -> bool)
    requires IsSelection(all, found, wanted) && forall x :: wanted(x) <==> alike(x)
    ensures IsSelection(all, found, alike)
  {
    assert Flags(all, wanted) == Flags(all, alike);
  }
}
