/**
Splitting a list into contiguous pieces, each within a bound that every shorter part of an admitted piece also meets. A
split that extends each piece as far as the bound allows has the fewest pieces any split has.
*/
module Packing {

  function Joined<T>(pieces: seq<seq<T>>): seq<T> {
    if pieces == [] then [] else Joined(pieces[..|pieces| - 1]) + pieces[|pieces| - 1]
  }

  lemma {:induction false} JoinedFrom<T>(piece: seq<T>, pieces: seq<seq<T>>)
    ensures Joined([piece] + pieces) == piece + Joined(pieces)
  {
    if pieces == [] {
      assert [piece] + pieces == [piece];
    } else {
      JoinedFrom(piece, pieces[..|pieces| - 1]);
      assert ([piece] + pieces)[..|pieces|] == [piece] + pieces[..|pieces| - 1];
    }
  }

  /** Any way to cut the list, in order and whole, into non-empty pieces that fit. */
  ghost predicate Splits<T>(pieces: seq<seq<T>>, list: seq<T>, fits: seq<T> -> bool) {
    Joined(pieces) == list && forall piece <- pieces :: piece != [] && fits(piece)
  }

  /** A part of what fits one piece fits one too. */
  ghost predicate PartsFit<T>(list: seq<T>, fits: seq<T> -> bool) {
    forall i: nat, j: nat, i': nat, j': nat | i <= i' < j' <= j <= |list| && fits(list[i..j]) :: fits(list[i'..j'])
  }

  /** The piece would not take the first item of the one after it. */
  predicate Refuses<T>(piece: seq<T>, following: seq<T>, fits: seq<T> -> bool) {
    following != [] && !fits(piece + following[..1])
  }

  /** Every piece but the last is as long as the bound allows. */
  predicate Full<T>(pieces: seq<seq<T>>, fits: seq<T> -> bool) {
    forall k | 0 < k < |pieces| :: Refuses(pieces[k - 1], pieces[k], fits)
  }

  /** Where each piece starts, and where the last one ends. */
  function Cuts<T>(pieces: seq<seq<T>>): (cuts: seq<nat>)
    ensures |cuts| == |pieces| + 1
  {
    if pieces == [] then [0] else Cuts(pieces[..|pieces| - 1]) + [|Joined(pieces)|]
  }

  /** Each piece is the part of the list between its cuts. */
  ghost predicate Marks<T>(cuts: seq<nat>, pieces: seq<seq<T>>, list: seq<T>) {
    && |cuts| == |pieces| + 1 && cuts[0] == 0 && cuts[|pieces|] == |list|
    && (forall k | 0 <= k < |pieces| :: MarksPiece(cuts[k], cuts[k + 1], pieces[k], list))
  }

  ghost predicate MarksPiece<T>(i: nat, j: nat, piece: seq<T>, list: seq<T>) {
    i + |piece| == j <= |list| && list[i..j] == piece
  }

  lemma {:induction false} CutsMark<T>(pieces: seq<seq<T>>)
    ensures Marks(Cuts(pieces), pieces, Joined(pieces))
  {
    if pieces != [] {
      var shorter := pieces[..|pieces| - 1];
      CutsMark(shorter);
      forall k | 0 <= k < |shorter|
        ensures MarksPiece(Cuts(pieces)[k], Cuts(pieces)[k + 1], pieces[k], Joined(pieces))
      {
        assert MarksPiece(Cuts(shorter)[k], Cuts(shorter)[k + 1], shorter[k], Joined(shorter));
      }
    }
  }

  lemma {:induction false} CutsIncrease<T>(cuts: seq<nat>, pieces: seq<seq<T>>, list: seq<T>, j: nat, k: nat)
    requires Marks(cuts, pieces, list) && [] !in pieces && j <= k <= |pieces|
    ensures cuts[j] + (k - j) <= cuts[k]
  {
    if j < k {
      CutsIncrease(cuts, pieces, list, j, k - 1);
      assert MarksPiece(cuts[k - 1], cuts[k], pieces[k - 1], list) && pieces[k - 1] in pieces;
    }
  }

  /** A full piece that does not end the list does not fit with one more item. */
  lemma FullTakesNoMore<T>(cuts: seq<nat>, full: seq<seq<T>>, list: seq<T>, fits: seq<T> -> bool, k: nat)
    requires Marks(cuts, full, list) && Full(full, fits) && k < |full| && cuts[k + 1] < |list|
    ensures cuts[k] <= cuts[k + 1] && !fits(list[cuts[k]..cuts[k + 1] + 1])
  {
    assert MarksPiece(cuts[k], cuts[k + 1], full[k], list);
    assert MarksPiece(cuts[k + 1], cuts[k + 2], full[k + 1], list);
    assert Refuses(full[k], full[k + 1], fits);
    assert list[cuts[k]..cuts[k + 1] + 1] == full[k] + full[k + 1][..1];
  }

  /** However another split cuts the list, its first pieces reach no further than as many full ones. */
  lemma {:induction false} FullStaysAhead<T>(cuts: seq<nat>, full: seq<seq<T>>, otherCuts: seq<nat>, other: seq<seq<T>>,
                                             list: seq<T>, fits: seq<T> -> bool, k: nat)
    requires PartsFit(list, fits) && Full(full, fits) && Splits(other, list, fits)
    requires Marks(cuts, full, list) && Marks(otherCuts, other, list)
    requires k <= |full| && k <= |other|
    ensures otherCuts[k] <= cuts[k]
  {
    if k > 0 {
      FullStaysAhead(cuts, full, otherCuts, other, list, fits, k - 1);
      assert MarksPiece(cuts[k - 1], cuts[k], full[k - 1], list);
      assert MarksPiece(otherCuts[k - 1], otherCuts[k], other[k - 1], list) && other[k - 1] in other;
      if cuts[k] < |list| {
        FullTakesNoMore(cuts, full, list, fits, k - 1);
      }
    }
  }

  /** No split has fewer pieces than one whose pieces are full. */
  lemma FullIsMinimal<T>(full: seq<seq<T>>, other: seq<seq<T>>, list: seq<T>, fits: seq<T> -> bool)
    requires PartsFit(list, fits) && Splits(full, list, fits) && Full(full, fits) && Splits(other, list, fits)
    ensures |full| <= |other|
  {
    CutsMark(full);
    CutsMark(other);
    if |other| < |full| {
      FullStaysAhead(Cuts(full), full, Cuts(other), other, list, fits, |other|);
      CutsIncrease(Cuts(full), full, list, |other|, |full|);
    }
  }

  /** Where the piece that starts at `first` and has reached `end` stops when it takes all it can. */
  function Filled<T>(list: seq<T>, fits: seq<T> -> bool, first: nat, end: nat): (stop: nat)
    requires first <= end <= |list| && fits(list[first..end])
    ensures end <= stop <= |list| && fits(list[first..stop])
    ensures stop == |list| || !fits(list[first..stop + 1])
    decreases |list| - end
  {
    if end < |list| && fits(list[first..end + 1]) then Filled(list, fits, first, end + 1) else end
  }

  lemma StartsAlike<T>(pieces: seq<seq<T>>)
    requires pieces != [] && pieces[0] != []
    ensures Joined(pieces) != [] && pieces[0][..1] == Joined(pieces)[..1]
  {
    JoinedFrom(pieces[0], pieces[1..]);
    assert pieces == [pieces[0]] + pieces[1..];
  }

  /** A filled piece and full pieces of the rest are full pieces of both. */
  lemma FilledThenRest<T>(list: seq<T>, fits: seq<T> -> bool, first: nat, rest: seq<seq<T>>)
    requires first < |list| && fits(list[first..first])
    requires first < Filled(list, fits, first, first) < |list|
    requires rest != [] && Splits(rest, list[Filled(list, fits, first, first)..], fits) && Full(rest, fits)
    ensures var pieces := [list[first..Filled(list, fits, first, first)]] + rest;
      Splits(pieces, list[first..], fits) && Full(pieces, fits)
  {
    var end := Filled(list, fits, first, first);
    var piece := list[first..end];
    JoinedFrom(piece, rest);
    assert rest[0] in rest;
    StartsAlike(rest);
    assert list[first..] == piece + list[end..];
    assert piece + rest[0][..1] == list[first..end + 1];
    var pieces := [piece] + rest;
    forall k | 0 < k < |pieces| ensures Refuses(pieces[k - 1], pieces[k], fits) {
      if k > 1 {
        assert Refuses(rest[k - 2], rest[k - 1], fits);
      }
    }
  }
}
