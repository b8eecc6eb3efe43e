/**
 The four ways to move selected objects within an order, as array algorithms and as
 functions on sequences.
 */
module Reordering {
  import opened CodeUnits

  datatype Direction = Front | Forward | Backward | Back

  type Selection = set<Text>

  /** The elements that are selected (or those that are not), in order. */
  function Pick(s: seq<Text>, selected: Selection, wanted: bool): seq<Text> {
    if s == [] then []
    else (if (s[0] in selected) == wanted then [s[0]] else []) + Pick(s[1..], selected, wanted)
  }

  function Reverse(s: seq<Text>): (r: seq<Text>)
    ensures |r| == |s|
  {
    if s == [] then [] else Reverse(s[1..]) + [s[0]]
  }

  /** From the top down, a selected element right below an unselected one changes places with it. */
  function Lifted(s: seq<Text>, selected: Selection): (r: seq<Text>)
    ensures |r| == |s|
  {
    if s == [] then []
    else
      var rest := Lifted(s[1..], selected);
      if s[0] in selected && rest != [] && rest[0] !in selected then [rest[0], s[0]] + rest[1..]
      else [s[0]] + rest
  }

  function Lowered(s: seq<Text>, selected: Selection): seq<Text> {
    Reverse(Lifted(Reverse(s), selected))
  }

  function Reordered(s: seq<Text>, selected: Selection, direction: Direction): seq<Text> {
    match direction
    case Front => Pick(s, selected, false) + Pick(s, selected, true)
    case Back => Pick(s, selected, true) + Pick(s, selected, false)
    case Forward => Lifted(s, selected)
    case Backward => Lowered(s, selected)
  }

  predicate Distinct(s: seq<Text>) {
    forall i, j | 0 <= i < j < |s| :: s[i] != s[j]
  }

  // ----- the array algorithms

  method MoveForward(result: array<Text>, selected: Selection)
    modifies result
    ensures result[..] == Lifted(old(result[..]), selected)
  {
    if result.Length == 0 {
      return;
    }
    ghost var was := result[..];
    var index := result.Length - 1;
    assert was[index..] == [was[index]];
    while index > 0
      invariant 0 <= index < result.Length
      invariant result[..index] == was[..index]
      invariant result[index..] == Lifted(was[index..], selected)
    {
      index := index - 1;
      assert was[index..] == [was[index]] + was[index + 1..];
      assert result[index] == was[index];
      assert result[index + 1] == result[index + 1..][0];
      ghost var rest := result[index + 1..];
      if result[index] in selected && result[index + 1] !in selected {
        result[index], result[index + 1] := result[index + 1], result[index];
        assert result[index..] == [rest[0], was[index]] + rest[1..];
      } else {
        assert result[index..] == [was[index]] + rest;
      }
    }
  }

  method MoveBackward(result: array<Text>, selected: Selection)
    modifies result
    ensures result[..] == Lowered(old(result[..]), selected)
  {
    if result.Length == 0 {
      return;
    }
    ghost var was := result[..];
    var index := 1;
    ReverseStep(was[..0], was[0]);
    assert result[..1] == [] + [was[0]] == was[..1];
    while index < result.Length
      invariant 1 <= index <= result.Length
      invariant result[index..] == was[index..]
      invariant result[..index] == Lowered(was[..index], selected)
    {
      assert was[..index + 1] == was[..index] + [was[index]];
      LoweredStep(was[..index], was[index], selected);
      ghost var done := result[..index];
      assert result[index] == was[index] && result[index - 1] == done[index - 1];
      if result[index] in selected && result[index - 1] !in selected {
        result[index - 1], result[index] := result[index], result[index - 1];
        assert result[..index + 1] == done[..index - 1] + [was[index], done[index - 1]];
      } else {
        assert result[..index + 1] == done + [was[index]];
      }
      index := index + 1;
    }
    assert result[..index] == result[..];
    assert was[..index] == was;
  }

  /** The new order of the ids; front and back only filter, the others swap neighbours in place. */
  method ReorderedIds(ids: seq<Text>, selected: Selection, direction: Direction) returns (result: seq<Text>)
    ensures result == Reordered(ids, selected, direction)
  {
    match direction
    case Front =>
      result := Pick(ids, selected, false) + Pick(ids, selected, true);
    case Back =>
      result := Pick(ids, selected, true) + Pick(ids, selected, false);
    case Forward =>
      var a := new Text[|ids|](i requires 0 <= i < |ids| => ids[i]);
      assert a[..] == ids;
      MoveForward(a, selected);
      result := a[..];
    case Backward =>
      var a := new Text[|ids|](i requires 0 <= i < |ids| => ids[i]);
      assert a[..] == ids;
      MoveBackward(a, selected);
      result := a[..];
  }

  // ----- reversal

  lemma ReverseCons(x: Text, s: seq<Text>)
    ensures Reverse([x] + s) == Reverse(s) + [x]
  {
  }

  lemma {:induction false} ReverseStep(s: seq<Text>, x: Text)
    ensures Reverse(s + [x]) == [x] + Reverse(s)
    decreases |s|
  {
    if s == [] {
      assert s + [x] == [x] && Reverse([x]) == Reverse([x][1..]) + [x];
    } else {
      assert (s + [x])[1..] == s[1..] + [x];
      ReverseStep(s[1..], x);
    }
  }

  lemma {:induction false} ReverseTwice(s: seq<Text>)
    ensures Reverse(Reverse(s)) == s
    decreases |s|
  {
    if s != [] {
      ReverseTwice(s[1..]);
      ReverseStep(Reverse(s[1..]), s[0]);
    }
  }

  lemma {:induction false} ReverseAt(s: seq<Text>, i: nat)
    requires i < |s|
    ensures Reverse(s)[|s| - 1 - i] == s[i]
    decreases |s|
  {
    if i > 0 {
      ReverseAt(s[1..], i - 1);
    }
  }

  lemma ReverseSwapped(y: Text, x: Text, tail: seq<Text>, swapped: seq<Text>)
    requires swapped == [y] + ([x] + tail)
    ensures Reverse(swapped) == Reverse(tail) + [x] + [y]
  {
  }

  /** What appending one element on top does to a lowered order. */
  lemma LoweredStep(s: seq<Text>, x: Text, selected: Selection)
    requires s != []
    ensures var r := Lowered(s, selected); var last := |s| - 1;
      |r| == |s| && Lowered(s + [x], selected)
      == if x in selected && r[last] !in selected then r[..last] + [x, r[last]] else r + [x]
  {
    var rest := Lifted(Reverse(s), selected);
    var y, tail := rest[0], rest[1..];
    ReverseStep(s, x);
    ReverseAt(rest, 0);
    ReverseCons(y, tail);
    assert rest == [y] + tail;
    if x in selected && y !in selected {
      ReverseSwapped(y, x, tail, [y, x] + tail);
    } else {
      ReverseCons(x, rest);
    }
  }

  // ----- both relative orders are kept

  lemma {:induction false} PickAppend(s: seq<Text>, t: seq<Text>, selected: Selection, wanted: bool)
    ensures Pick(s + t, selected, wanted) == Pick(s, selected, wanted) + Pick(t, selected, wanted)
    decreases |s|
  {
    if s == [] {
      assert s + t == t;
    } else {
      assert (s + t)[1..] == s[1..] + t;
      PickAppend(s[1..], t, selected, wanted);
    }
  }

  lemma {:induction false} PickTwice(s: seq<Text>, selected: Selection, first: bool, then': bool)
    ensures Pick(Pick(s, selected, first), selected, then') == if first == then' then Pick(s, selected, first) else []
    decreases |s|
  {
    if s != [] {
      PickTwice(s[1..], selected, first, then');
      PickAppend(if (s[0] in selected) == first then [s[0]] else [], Pick(s[1..], selected, first), selected, then');
    }
  }

  lemma {:induction false} PickReverse(s: seq<Text>, selected: Selection, wanted: bool)
    ensures Pick(Reverse(s), selected, wanted) == Reverse(Pick(s, selected, wanted))
    decreases |s|
  {
    if s != [] {
      var rest := Pick(s[1..], selected, wanted);
      PickReverse(s[1..], selected, wanted);
      PickAppend(Reverse(s[1..]), [s[0]], selected, wanted);
      assert Pick([s[0]], selected, wanted) == if (s[0] in selected) == wanted then [s[0]] else [];
      ReverseCons(s[0], rest);
      assert [] + rest == rest;
    }
  }

  lemma {:induction false} PickLifted(s: seq<Text>, selected: Selection, wanted: bool)
    ensures Pick(Lifted(s, selected), selected, wanted) == Pick(s, selected, wanted)
    decreases |s|
  {
    if s != [] {
      var rest := Lifted(s[1..], selected);
      PickLifted(s[1..], selected, wanted);
      if s[0] in selected && rest != [] && rest[0] !in selected {
        PickAppend([rest[0], s[0]], rest[1..], selected, wanted);
        assert Pick([rest[0], s[0]], selected, wanted) == if wanted then [s[0]] else [rest[0]] by {
          assert [rest[0], s[0]][1..] == [s[0]];
        }
      }
    }
  }

  /** Selected objects keep their order among themselves, and so do the others. */
  lemma RelativeOrdersAreKept(s: seq<Text>, selected: Selection, direction: Direction, wanted: bool)
    ensures Pick(Reordered(s, selected, direction), selected, wanted) == Pick(s, selected, wanted)
  {
    match direction
    case Front =>
      PickAppend(Pick(s, selected, false), Pick(s, selected, true), selected, wanted);
      PickTwice(s, selected, false, wanted);
      PickTwice(s, selected, true, wanted);
    case Back =>
      PickAppend(Pick(s, selected, true), Pick(s, selected, false), selected, wanted);
      PickTwice(s, selected, false, wanted);
      PickTwice(s, selected, true, wanted);
    case Forward =>
      PickLifted(s, selected, wanted);
    case Backward =>
      PickReverse(Lifted(Reverse(s), selected), selected, wanted);
      PickLifted(Reverse(s), selected, wanted);
      PickReverse(s, selected, wanted);
      ReverseTwice(Pick(s, selected, wanted));
  }

  lemma {:induction false} PicksMakeWhole(s: seq<Text>, selected: Selection)
    ensures multiset(s) == multiset(Pick(s, selected, true)) + multiset(Pick(s, selected, false))
    decreases |s|
  {
    if s != [] {
      PicksMakeWhole(s[1..], selected);
      assert s == [s[0]] + s[1..];
    }
  }

  lemma {:induction false} DistinctByCount(s: seq<Text>)
    ensures Distinct(s) <==> forall x | x in multiset(s) :: multiset(s)[x] == 1
    decreases |s|
  {
    if s != [] {
      DistinctByCount(s[1..]);
      assert s == [s[0]] + s[1..];
      assert multiset(s) == multiset{s[0]} + multiset(s[1..]);
      if Distinct(s) {
        assert s[0] !in s[1..];
        assert Distinct(s[1..]);
      } else if s[0] !in s[1..] {
        assert !Distinct(s[1..]) by {
          var i, j :| 0 <= i < j < |s| && s[i] == s[j];
          assert i > 0;
          assert s[1..][i - 1] == s[1..][j - 1];
        }
        var x :| x in multiset(s[1..]) && multiset(s[1..])[x] != 1;
        assert x in multiset(s) && multiset(s)[x] != 1;
      } else {
        assert multiset(s)[s[0]] >= 2;
      }
    }
  }

  lemma ReorderedIsPermutation(s: seq<Text>, selected: Selection, direction: Direction)
    ensures multiset(Reordered(s, selected, direction)) == multiset(s)
    ensures |Reordered(s, selected, direction)| == |s|
    ensures Distinct(s) ==> Distinct(Reordered(s, selected, direction))
  {
    var t := Reordered(s, selected, direction);
    RelativeOrdersAreKept(s, selected, direction, true);
    RelativeOrdersAreKept(s, selected, direction, false);
    PicksMakeWhole(s, selected);
    PicksMakeWhole(t, selected);
    assert |t| == |multiset(t)| && |s| == |multiset(s)|;
    DistinctByCount(s);
    DistinctByCount(t);
  }

  // ----- how far a selected object moves

  function Others(s: seq<Text>, selected: Selection): nat {
    |Pick(s, selected, false)|
  }

  /** The number of unselected objects above x. */
  function OthersAbove(s: seq<Text>, selected: Selection, x: Text): nat {
    if s == [] then 0
    else if s[0] == x then Others(s[1..], selected)
    else OthersAbove(s[1..], selected, x)
  }

  function OthersBelow(s: seq<Text>, selected: Selection, x: Text): nat {
    if s == [] || s[0] == x then 0
    else (if s[0] in selected then 0 else 1) + OthersBelow(s[1..], selected, x)
  }

  lemma {:induction false} AboveAndBelow(s: seq<Text>, selected: Selection, x: Text)
    requires x in s && x in selected
    ensures OthersAbove(s, selected, x) + OthersBelow(s, selected, x) == Others(s, selected)
    decreases |s|
  {
    if s[0] != x {
      AboveAndBelow(s[1..], selected, x);
    }
  }

  lemma {:induction false} AboveAppend(s: seq<Text>, t: seq<Text>, selected: Selection, x: Text)
    ensures OthersAbove(s + t, selected, x)
         == if x in s then OthersAbove(s, selected, x) + Others(t, selected) else OthersAbove(t, selected, x)
    decreases |s|
  {
    if s == [] {
      assert s + t == t;
    } else {
      assert (s + t)[1..] == s[1..] + t;
      if s[0] == x {
        PickAppend(s[1..], t, selected, false);
      } else {
        AboveAppend(s[1..], t, selected, x);
      }
    }
  }

  lemma {:induction false} ReverseMembers(s: seq<Text>)
    ensures multiset(Reverse(s)) == multiset(s)
    ensures Distinct(s) <==> Distinct(Reverse(s))
    decreases |s|
  {
    if s != [] {
      ReverseMembers(s[1..]);
      assert s == [s[0]] + s[1..];
    }
    DistinctByCount(s);
    DistinctByCount(Reverse(s));
  }

  lemma OnlyOne(x: Text, selected: Selection)
    ensures Others([x], selected) == if x in selected then 0 else 1
  {
    assert Pick([x][1..], selected, false) == [];
  }

  lemma {:induction false} AboveReversed(s: seq<Text>, selected: Selection, x: Text)
    requires Distinct(s) && x in s && x in selected
    ensures OthersAbove(Reverse(s), selected, x) == OthersBelow(s, selected, x)
    decreases |s|
  {
    var rest := s[1..];
    ReverseMembers(rest);
    assert x in Reverse(rest) <==> x in multiset(Reverse(rest));
    assert x in rest <==> x in multiset(rest);
    AboveAppend(Reverse(rest), [s[0]], selected, x);
    OnlyOne(s[0], selected);
    if s[0] != x {
      AboveReversed(rest, selected, x);
    } else {
      assert x !in rest;
    }
  }

  lemma {:induction false} TopIsUnselected(s: seq<Text>, selected: Selection)
    requires Others(s, selected) > 0
    ensures s != [] && Lifted(s, selected)[0] !in selected
    decreases |s|
  {
    if s[0] in selected {
      TopIsUnselected(s[1..], selected);
    }
  }

  /** Forward lifts each selected object past exactly one other, if there is one above it. */
  lemma {:induction false} ForwardLiftsByOne(s: seq<Text>, selected: Selection, x: Text)
    requires Distinct(s) && x in s && x in selected
    ensures OthersAbove(Lifted(s, selected), selected, x)
         == if OthersAbove(s, selected, x) == 0 then 0 else OthersAbove(s, selected, x) - 1
    decreases |s|
  {
    var rest := Lifted(s[1..], selected);
    PickLifted(s[1..], selected, false);
    if s[0] in selected && rest != [] && rest[0] !in selected {
      assert ([rest[0], s[0]] + rest[1..])[1..] == [s[0]] + rest[1..];
      assert ([s[0]] + rest[1..])[1..] == rest[1..];
      assert rest == [rest[0]] + rest[1..];
    }
    if s[0] == x {
      if Others(s[1..], selected) > 0 {
        TopIsUnselected(s[1..], selected);
      }
    } else {
      ForwardLiftsByOne(s[1..], selected, x);
    }
  }

  /** Backward lowers each selected object past exactly one other, if there is one below it. */
  lemma BackwardLowersByOne(s: seq<Text>, selected: Selection, x: Text)
    requires Distinct(s) && x in s && x in selected
    ensures OthersBelow(Lowered(s, selected), selected, x)
         == if OthersBelow(s, selected, x) == 0 then 0 else OthersBelow(s, selected, x) - 1
  {
    var r := Reverse(s);
    var lifted := Lifted(r, selected);
    ReverseMembers(s);
    assert x in r <==> x in multiset(r);
    assert x in s <==> x in multiset(s);
    AboveReversed(s, selected, x);
    ForwardLiftsByOne(r, selected, x);
    ReorderedIsPermutation(r, selected, Forward);
    ReverseMembers(lifted);
    assert x in Reverse(lifted) <==> x in multiset(Reverse(lifted));
    AboveReversed(Reverse(lifted), selected, x);
    ReverseTwice(lifted);
  }

  lemma {:induction false} AllPicked(s: seq<Text>, selected: Selection, wanted: bool)
    requires forall i | 0 <= i < |s| :: (s[i] in selected) == wanted
    ensures Pick(s, selected, wanted) == s && Pick(s, selected, !wanted) == []
    decreases |s|
  {
    if s != [] {
      AllPicked(s[1..], selected, wanted);
    }
  }

  lemma {:induction false} PickedAre(s: seq<Text>, selected: Selection, wanted: bool)
    ensures forall x | x in Pick(s, selected, wanted) :: x in s && (x in selected) == wanted
    ensures forall x | x in s && (x in selected) == wanted :: x in Pick(s, selected, wanted)
    decreases |s|
  {
    if s != [] {
      PickedAre(s[1..], selected, wanted);
      assert s == [s[0]] + s[1..];
    }
  }

  lemma {:induction false} NoOthersAbove(s: seq<Text>, selected: Selection, x: Text)
    requires Others(s, selected) == 0
    ensures OthersAbove(s, selected, x) == 0 && OthersBelow(s, selected, x) == 0
    decreases |s|
  {
    if s != [] {
      NoOthersAbove(s[1..], selected, x);
    }
  }

  /** To the front: no other is left above a selected object; to the back: none below. */
  lemma FrontAndBackAreExtreme(s: seq<Text>, selected: Selection, x: Text)
    requires x in s && x in selected
    ensures OthersAbove(Reordered(s, selected, Front), selected, x) == 0
    ensures OthersBelow(Reordered(s, selected, Back), selected, x) == 0
  {
    var chosen, others := Pick(s, selected, true), Pick(s, selected, false);
    PickedAre(s, selected, true);
    PickedAre(s, selected, false);
    AboveAppend(others, chosen, selected, x);
    AboveAppend(chosen, others, selected, x);
    PickTwice(s, selected, true, false);
    PickTwice(s, selected, false, false);
    NoOthersAbove(chosen, selected, x);
    PickAppend(chosen, others, selected, false);
    assert x in chosen + others;
    AboveAndBelow(chosen + others, selected, x);
  }

  // ----- an order is determined by its two parts and the distances

  lemma {:induction false} AboveIsBounded(s: seq<Text>, selected: Selection, x: Text)
    ensures OthersAbove(s, selected, x) <= Others(s, selected)
    decreases |s|
  {
    if s != [] {
      AboveIsBounded(s[1..], selected, x);
    }
  }

  predicate SameHeights(s: seq<Text>, t: seq<Text>, selected: Selection) {
    forall x | x in s && x in selected :: OthersAbove(s, selected, x) == OthersAbove(t, selected, x)
  }

  lemma SameHeightsTail(s: seq<Text>, t: seq<Text>, selected: Selection)
    requires s != [] && t != [] && s[0] == t[0] && Distinct(s) && SameHeights(s, t, selected)
    ensures SameHeights(s[1..], t[1..], selected)
  {
  }

  lemma {:induction false} OrderIsDetermined(s: seq<Text>, t: seq<Text>, selected: Selection)
    requires Distinct(s) && Distinct(t)
    requires forall wanted: bool :: Pick(s, selected, wanted) == Pick(t, selected, wanted)
    requires SameHeights(s, t, selected) && SameHeights(t, s, selected)
    ensures s == t
    decreases |s|
  {
    SameLength(s, t, selected);
    if s != [] {
      FirstAgrees(s, t, selected);
      SameHeightsTail(s, t, selected);
      SameHeightsTail(t, s, selected);
      forall wanted: bool
        ensures Pick(s[1..], selected, wanted) == Pick(t[1..], selected, wanted)
      {
        PickRest(s, t, selected, wanted);
      }
      OrderIsDetermined(s[1..], t[1..], selected);
    }
  }

  lemma SameLength(s: seq<Text>, t: seq<Text>, selected: Selection)
    requires forall wanted: bool :: Pick(s, selected, wanted) == Pick(t, selected, wanted)
    ensures |s| == |t|
  {
    PicksMakeWhole(s, selected);
    PicksMakeWhole(t, selected);
    assert |s| == |multiset(s)| && |t| == |multiset(t)|;
  }

  lemma PickRest(s: seq<Text>, t: seq<Text>, selected: Selection, wanted: bool)
    requires s != [] && t != [] && s[0] == t[0] && Pick(s, selected, wanted) == Pick(t, selected, wanted)
    ensures Pick(s[1..], selected, wanted) == Pick(t[1..], selected, wanted)
  {
    var head := if (s[0] in selected) == wanted then [s[0]] else [];
    assert Pick(s, selected, wanted)[|head|..] == Pick(s[1..], selected, wanted);
    assert Pick(t, selected, wanted)[|head|..] == Pick(t[1..], selected, wanted);
  }

  lemma FirstAgrees(s: seq<Text>, t: seq<Text>, selected: Selection)
    requires s != [] && t != [] && SameHeights(s, t, selected) && SameHeights(t, s, selected)
    requires forall wanted: bool :: Pick(s, selected, wanted) == Pick(t, selected, wanted)
    ensures s[0] == t[0]
  {
    if s[0] in selected {
      HeadsAgree(s, t, selected);
    }
    if t[0] in selected {
      HeadsAgree(t, s, selected);
    }
    var wanted := s[0] in selected;
    assert Pick(s, selected, wanted)[0] == s[0] && Pick(t, selected, wanted)[0] == t[0];
  }

  lemma HeadsAgree(s: seq<Text>, t: seq<Text>, selected: Selection)
    requires s != [] && t != [] && s[0] in selected && SameHeights(s, t, selected)
    requires Pick(s, selected, false) == Pick(t, selected, false)
    ensures t[0] in selected
  {
    AboveIsBounded(t[1..], selected, s[0]);
    assert s[0] in s;
  }

  // ----- backward undoes forward

  predicate TopStays(s: seq<Text>, selected: Selection) {
    s == [] || s[|s| - 1] !in selected || forall i | 0 <= i < |s| :: s[i] in selected
  }

  lemma {:induction false} TopHasNoneAbove(s: seq<Text>, selected: Selection)
    requires s != [] && Distinct(s)
    ensures OthersAbove(s, selected, s[|s| - 1]) == 0
    decreases |s|
  {
    if |s| > 1 {
      TopHasNoneAbove(s[1..], selected);
    }
  }

  lemma {:induction false} AllHaveOneAbove(s: seq<Text>, selected: Selection, x: Text)
    requires s != [] && s[|s| - 1] !in selected && x in s && x in selected
    ensures OthersAbove(s, selected, x) > 0
    decreases |s|
  {
    if s[0] == x {
      PickedAre(s[1..], selected, false);
      assert s[|s| - 1] in s[1..];
    } else {
      AllHaveOneAbove(s[1..], selected, x);
    }
  }

  lemma LoweringALift(s: seq<Text>, selected: Selection, x: Text)
    requires Distinct(s) && x in s && x in selected
    ensures var t := Lowered(Lifted(s, selected), selected); var above := OthersAbove(s, selected, x);
      OthersAbove(t, selected, x) == if above == 0 && Others(s, selected) > 0 then 1 else above
  {
    var lifted := Lifted(s, selected);
    var t := Lowered(lifted, selected);
    assert Reordered(s, selected, Forward) == lifted && Reordered(lifted, selected, Backward) == t;
    ReorderedIsPermutation(s, selected, Forward);
    ReorderedIsPermutation(lifted, selected, Backward);
    assert x in multiset(s) && x in multiset(lifted) && x in multiset(t);
    ForwardLiftsByOne(s, selected, x);
    BackwardLowersByOne(lifted, selected, x);
    RelativeOrdersAreKept(s, selected, Forward, false);
    RelativeOrdersAreKept(lifted, selected, Backward, false);
    AboveAndBelow(s, selected, x);
    AboveAndBelow(lifted, selected, x);
    AboveAndBelow(t, selected, x);
  }

  /** Backward undoes forward exactly when the top object is unselected, or every object is selected. */
  lemma BackwardUndoesForward(s: seq<Text>, selected: Selection)
    requires Distinct(s)
    ensures Lowered(Lifted(s, selected), selected) == s <==> TopStays(s, selected)
  {
    var lifted := Lifted(s, selected);
    var t := Lowered(lifted, selected);
    assert Reordered(s, selected, Forward) == lifted && Reordered(lifted, selected, Backward) == t;
    ReorderedIsPermutation(s, selected, Forward);
    ReorderedIsPermutation(lifted, selected, Backward);
    if TopStays(s, selected) {
      forall wanted: bool
        ensures Pick(s, selected, wanted) == Pick(t, selected, wanted)
      {
        RelativeOrdersAreKept(s, selected, Forward, wanted);
        RelativeOrdersAreKept(lifted, selected, Backward, wanted);
      }
      forall x | x in s && x in selected
        ensures OthersAbove(s, selected, x) == OthersAbove(t, selected, x)
      {
        LoweringALift(s, selected, x);
        if s[|s| - 1] in selected {
          AllPicked(s, selected, true);
        } else {
          AllHaveOneAbove(s, selected, x);
        }
      }
      assert forall x | x in t :: x in s by {
        assert forall x :: x in t <==> x in multiset(t);
      }
      OrderIsDetermined(s, t, selected);
    } else {
      var x := s[|s| - 1];
      TopHasNoneAbove(s, selected);
      LoweringALift(s, selected, x);
      PickedAre(s, selected, false);
    }
  }

  /** Two objects, the upper one selected: forward leaves them, backward then swaps them. */
  lemma ForwardThenBackwardSwaps(lower: Text, upper: Text)
    requires lower != upper
    ensures Lowered(Lifted([lower, upper], {upper}), {upper}) == [upper, lower]
  {
    var s, r, selected := [lower, upper], [upper, lower], {upper};
    assert s[1..] == [upper] && r[1..] == [lower];
    assert Lifted([upper], selected) == [upper] && Lifted([lower], selected) == [lower];
    assert Lifted(s, selected) == s && Lifted(r, selected) == s;
    assert Reverse([upper]) == [upper] && Reverse(s) == r;
  }
}
