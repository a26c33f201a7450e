/** Cutting a queue of sized items into consecutive batches, for any item type and size. */
module Greedy {

  function Sum<T>(size: T -> nat, items: seq<T>): nat {
    if items == [] then 0 else size(items[0]) + Sum(size, items[1..])
  }

  lemma {:induction false} SumAppend<T>(size: T -> nat, a: seq<T>, b: seq<T>)
    ensures Sum(size, a + b) == Sum(size, a) + Sum(size, b)
  {
    if a == [] {
      assert a + b == b;
    } else {
      assert (a + b)[1..] == a[1..] + b;
      SumAppend(size, a[1..], b);
    }
  }

  lemma SumSnoc<T>(size: T -> nat, items: seq<T>, i: nat)
    requires i < |items|
    ensures Sum(size, items[..i + 1]) == Sum(size, items[..i]) + size(items[i])
  {
    assert items[..i + 1] == items[..i] + [items[i]];
    SumAppend(size, items[..i], [items[i]]);
    assert Sum(size, [items[i]]) == size(items[i]) + Sum(size, [items[i]][1..]);
  }

  lemma SumPrefix<T>(size: T -> nat, items: seq<T>, i: nat, j: nat)
    requires i <= j <= |items|
    ensures Sum(size, items[..i]) <= Sum(size, items[..j])
  {
    assert items[..j] == items[..i] + items[i..j];
    SumAppend(size, items[..i], items[i..j]);
  }

  /** Number of leading items whose sizes sum to at most `limit`. */
  function Fit<T>(size: T -> nat, items: seq<T>, limit: nat): (k: nat)
    ensures k <= |items|
  {
    if items == [] || size(items[0]) > limit then 0 else 1 + Fit(size, items[1..], limit - size(items[0]))
  }

  /** The prefix cut by `Fit` is the longest that fits. */
  lemma {:induction false} FitIsLongest<T>(size: T -> nat, items: seq<T>, limit: nat, k: nat)
    requires k <= |items|
    ensures Sum(size, items[..k]) <= limit <==> k <= Fit(size, items, limit)
  {
    if items != [] && k > 0 {
      assert items[..k][1..] == items[1..][..k - 1];
      if size(items[0]) <= limit {
        FitIsLongest(size, items[1..], limit - size(items[0]), k - 1);
      }
    }
  }

  /** Where the split loop stops: at the item that exceeds the limit, or nowhere, leaving index 0. */
  function SplitIndex<T>(size: T -> nat, items: seq<T>, limit: nat): (k: nat)
    ensures k <= |items|
  {
    if Sum(size, items) <= limit then 0 else Fit(size, items, limit)
  }

  /** The split loop's result, from what it knows when it stops. */
  lemma SplitLoopStops<T>(size: T -> nat, items: seq<T>, limit: nat, idx: nat, found: nat)
    requires idx <= |items| && Sum(size, items[..idx]) <= limit
    requires idx < |items| ==> Sum(size, items[..idx + 1]) > limit && found == idx
    requires idx == |items| ==> found == 0
    ensures found == SplitIndex(size, items, limit)
  {
    assert items[..|items|] == items;
    FitIsLongest(size, items, limit, idx);
    if idx < |items| {
      FitIsLongest(size, items, limit, idx + 1);
      SumPrefix(size, items, idx + 1, |items|);
    }
  }

  // ---------- lists of batches ----------

  /** A batch taken from the front of a queue; `cleared` when it was the whole queue. */
  datatype Cut<T> = Cut(batch: seq<T>, cleared: bool)

  function Flatten<T>(cuts: seq<Cut<T>>): seq<T> {
    if cuts == [] then [] else cuts[0].batch + Flatten(cuts[1..])
  }

  function Join<T>(pieces: seq<seq<T>>): seq<T> {
    if pieces == [] then [] else pieces[0] + Join(pieces[1..])
  }

  function NonEmpty<T>(cuts: seq<Cut<T>>): (k: nat)
    ensures k == 0 <==> Flatten(cuts) == []
  {
    if cuts == [] then 0 else (if cuts[0].batch == [] then 0 else 1) + NonEmpty(cuts[1..])
  }

  /** Number of cleared batches after which more items were taken. */
  function Breaks<T>(cuts: seq<Cut<T>>): nat {
    if cuts == [] then 0 else (if cuts[0].cleared && Flatten(cuts[1..]) != [] then 1 else 0) + Breaks(cuts[1..])
  }

  /**
   What the batcher keeps of its batches: each fits, and an item is always left that would have overfilled
   a non-empty batch of the split branch. `tail` is what comes after the batches.
   */
  ghost predicate Tight<T>(size: T -> nat, cuts: seq<Cut<T>>, tail: seq<T>, limit: nat) {
    cuts == [] ||
    (var batch, rest := cuts[0].batch, Flatten(cuts[1..]) + tail;
     && Sum(size, batch) <= limit
     && (batch != [] && !cuts[0].cleared ==> rest != [] && Sum(size, batch) + size(rest[0]) > limit)
     && Tight(size, cuts[1..], tail, limit))
  }

  lemma {:induction false} FlattenSnoc<T>(cuts: seq<Cut<T>>, cut: Cut<T>)
    ensures Flatten(cuts + [cut]) == Flatten(cuts) + cut.batch
  {
    if cuts == [] {
      assert cuts + [cut] == [cut];
      assert Flatten([cut][1..]) == [];
    } else {
      assert (cuts + [cut])[1..] == cuts[1..] + [cut];
      FlattenSnoc(cuts[1..], cut);
    }
  }

  /** More items behind the queue change nothing. */
  lemma {:induction false} TightExtends<T>(size: T -> nat, cuts: seq<Cut<T>>, tail: seq<T>, more: seq<T>, limit: nat)
    requires Tight(size, cuts, tail, limit)
    ensures Tight(size, cuts, tail + more, limit)
  {
    if cuts != [] {
      TightExtends(size, cuts[1..], tail, more, limit);
      assert Flatten(cuts[1..]) + (tail + more) == (Flatten(cuts[1..]) + tail) + more;
    }
  }

  /** Taking one more batch from the front of the tail. */
  lemma {:induction false} TightSnoc<T>(size: T -> nat, cuts: seq<Cut<T>>, cut: Cut<T>, tail: seq<T>, limit: nat)
    requires Tight(size, cuts, cut.batch + tail, limit)
    requires Tight(size, [cut], tail, limit)
    ensures Tight(size, cuts + [cut], tail, limit)
  {
    if cuts == [] {
      assert cuts + [cut] == [cut];
    } else {
      assert (cuts + [cut])[1..] == cuts[1..] + [cut];
      TightSnoc(size, cuts[1..], cut, tail, limit);
      FlattenSnoc(cuts[1..], cut);
      assert Flatten(cuts[1..]) + (cut.batch + tail) == (Flatten(cuts[1..]) + cut.batch) + tail;
    }
  }

  /** Taking one more batch from the front of the queue keeps the list tight and its items in order. */
  lemma TakeCut<T>(size: T -> nat, cuts: seq<Cut<T>>, cut: Cut<T>, rest: seq<T>, limit: nat)
    requires Tight(size, cuts, cut.batch + rest, limit) && Tight(size, [cut], rest, limit)
    ensures Tight(size, cuts + [cut], rest, limit)
    ensures Flatten(cuts + [cut]) + rest == Flatten(cuts) + (cut.batch + rest)
  {
    TightSnoc(size, cuts, cut, rest, limit);
    FlattenSnoc(cuts, cut);
  }

  ghost predicate Fits<T>(size: T -> nat, pieces: seq<seq<T>>, limit: nat) {
    forall i :: 0 <= i < |pieces| ==> Sum(size, pieces[i]) <= limit
  }

  /** Items that begin with a batch and one more item sum to at least as much. */
  lemma OneMoreItem<T>(size: T -> nat, items: seq<T>, batch: seq<T>, item: T)
    requires |items| > |batch| && items[..|batch|] == batch && items[|batch|] == item
    ensures Sum(size, items) >= Sum(size, batch) + size(item)
  {
    SumSnoc(size, items, |batch|);
    SumPrefix(size, items, |batch| + 1, |items|);
    assert items[..|items|] == items;
  }

  /** A part of a piece that starts where a tight batch starts cannot reach past it. */
  lemma PartEndsInBatch<T>(size: T -> nat, part: seq<T>, batch: seq<T>, rest: seq<T>, limit: nat)
    requires part <= batch + rest && Sum(size, part) <= limit
    requires rest != [] ==> Sum(size, batch) + size(rest[0]) > limit
    ensures |part| <= |batch|
  {
    if |part| > |batch| {
      assert part[..|batch|] == batch;
      OneMoreItem(size, part, batch, rest[0]);
    }
  }

  /**
   No division of the same items into pieces that fit uses fewer pieces than there are non-empty batches,
   apart from the breaks. `extra` is what the pieces still have to cover before the first batch.
   */
  lemma {:induction false} GreedyStaysAhead<T>(size: T -> nat, cuts: seq<Cut<T>>, tail: seq<T>, extra: seq<T>,
                                               pieces: seq<seq<T>>, limit: nat)
    requires Tight(size, cuts, tail, limit) && Fits(size, pieces, limit)
    requires Join(pieces) == extra + Flatten(cuts)
    ensures NonEmpty(cuts) <= |pieces| + Breaks(cuts)
    decreases |cuts| + |pieces|
  {
    if cuts == [] || NonEmpty(cuts) == 0 {
    } else {
      var batch, rest := cuts[0].batch, Flatten(cuts[1..]);
      assert Join(pieces) == (extra + batch) + rest;
      if batch == [] || (cuts[0].cleared && rest != []) {
        GreedyStaysAhead(size, cuts[1..], tail, extra + batch, pieces, limit);
      } else if rest != [] {
        var piece, others := pieces[0], pieces[1..];
        assert Fits(size, others, limit);
        if |piece| <= |extra| {
          assert Join(others) == (extra + Flatten(cuts))[|piece|..] == extra[|piece|..] + Flatten(cuts);
          GreedyStaysAhead(size, cuts, tail, extra[|piece|..], others, limit);
        } else {
          var part := piece[|extra|..];
          assert piece == extra + part;
          SumAppend(size, extra, part);
          assert part <= batch + rest;
          assert (rest + tail)[0] == rest[0];
          PartEndsInBatch(size, part, batch, rest, limit);
          assert Join(others) == ((extra + batch) + rest)[|piece|..] == (extra + batch)[|piece|..] + rest;
          GreedyStaysAhead(size, cuts[1..], tail, (extra + batch)[|piece|..], others, limit);
        }
      }
    }
  }

  /** The bound for a division of exactly the batched items. */
  lemma GreedyBound<T>(size: T -> nat, cuts: seq<Cut<T>>, tail: seq<T>, pieces: seq<seq<T>>, limit: nat)
    requires Tight(size, cuts, tail, limit) && Fits(size, pieces, limit) && Join(pieces) == Flatten(cuts)
    ensures NonEmpty(cuts) <= |pieces| + Breaks(cuts)
  {
    assert Join(pieces) == [] + Flatten(cuts);
    GreedyStaysAhead(size, cuts, tail, [], pieces, limit);
  }

  // ---------- the fewest pieces ----------

  /**
   Number of pieces opened by going through the items once and opening a new piece when an item does not fit
   the open one. `room` is what the open piece has left, -1 when none is open.
   */
  function Opened<T>(size: T -> nat, items: seq<T>, room: int, limit: nat): nat {
    if items == [] then 0
    else if size(items[0]) <= room then Opened(size, items[1..], room - size(items[0]), limit)
    else 1 + Opened(size, items[1..], limit - size(items[0]), limit)
  }

  /** A list that fits the open piece goes into it. */
  lemma {:induction false} OpenedInside<T>(size: T -> nat, a: seq<T>, b: seq<T>, room: int, limit: nat)
    requires Sum(size, a) <= room
    ensures Opened(size, a + b, room, limit) == Opened(size, b, room - Sum(size, a), limit)
  {
    if a == [] {
      assert a + b == b;
    } else {
      assert (a + b)[1..] == a[1..] + b;
      OpenedInside(size, a[1..], b, room - size(a[0]), limit);
    }
  }

  /** How much of a list goes into the open piece. */
  function Taken<T>(size: T -> nat, items: seq<T>, room: int): (k: nat)
    ensures k <= |items|
  {
    if room < 0 then 0 else Fit(size, items, room)
  }

  /** A list that fits a piece, but not the open one, opens exactly one piece for what is left of it. */
  lemma {:induction false} OpenedAcross<T>(size: T -> nat, a: seq<T>, b: seq<T>, room: int, limit: nat)
    requires a != [] && room < Sum(size, a) <= limit
    ensures Opened(size, a + b, room, limit) ==
            1 + Opened(size, b, limit - Sum(size, a[Taken(size, a, room)..]), limit)
  {
    assert (a + b)[1..] == a[1..] + b;
    if size(a[0]) > room {
      OpenedInside(size, a[1..], b, limit - size(a[0]), limit);
      assert a[Taken(size, a, room)..] == a;
    } else {
      OpenedAcross(size, a[1..], b, room - size(a[0]), limit);
      assert a[Taken(size, a, room)..] == a[1..][Taken(size, a[1..], room - size(a[0]))..];
    }
  }

  /** No division into pieces that fit has fewer pieces than are opened. */
  lemma {:induction false} OpenedIsFewest<T>(size: T -> nat, pieces: seq<seq<T>>, room: int, limit: nat)
    requires Fits(size, pieces, limit)
    ensures Opened(size, Join(pieces), room, limit) <= |pieces|
    decreases |pieces|
  {
    if pieces != [] {
      var piece, others := pieces[0], pieces[1..];
      assert Fits(size, others, limit);
      if piece == [] {
        assert Join(pieces) == Join(others);
        OpenedIsFewest(size, others, room, limit);
      } else if Sum(size, piece) <= room {
        OpenedInside(size, piece, Join(others), room, limit);
        OpenedIsFewest(size, others, room - Sum(size, piece), limit);
      } else {
        OpenedAcross(size, piece, Join(others), room, limit);
        OpenedIsFewest(size, others, limit - Sum(size, piece[Taken(size, piece, room)..]), limit);
      }
    }
  }

  /** The pieces opened: what goes into the piece already open, and the new ones. */
  lemma {:induction false} OpenedPieces<T>(size: T -> nat, items: seq<T>, room: int, limit: nat)
    returns (first: seq<T>, pieces: seq<seq<T>>)
    requires forall x :: x in items ==> size(x) <= limit
    ensures items == first + Join(pieces) && |pieces| == Opened(size, items, room, limit)
    ensures (first == [] || Sum(size, first) <= room) && Fits(size, pieces, limit)
  {
    first, pieces := [], [];
    if items != [] {
      var x := items[0];
      assert forall y :: y in items[1..] ==> y in items;
      if size(x) <= room {
        first, pieces := OpenedPieces(size, items[1..], room - size(x), limit);
        first := [x] + first;
        assert items == [x] + items[1..];
      } else {
        var more, others := OpenedPieces(size, items[1..], limit - size(x), limit);
        pieces := [[x] + more] + others;
        assert pieces[1..] == others;
        assert items == [x] + items[1..];
      }
    }
  }

  /**
   Number of batches that would have gone whole into the room their predecessors leave. `room` is what the
   piece open before them has left. It takes one pass over the batches and looks at no other division.
   */
  function Swallowed<T>(size: T -> nat, cuts: seq<Cut<T>>, room: int, limit: nat): nat {
    if cuts == [] then 0
    else
      var batch := cuts[0].batch;
      if batch == [] then Swallowed(size, cuts[1..], room, limit)
      else if Sum(size, batch) <= room then 1 + Swallowed(size, cuts[1..], room - Sum(size, batch), limit)
      else Swallowed(size, cuts[1..], limit - Sum(size, batch[Taken(size, batch, room)..]), limit)
  }

  ghost predicate BatchesFit<T>(size: T -> nat, cuts: seq<Cut<T>>, limit: nat) {
    forall i :: 0 <= i < |cuts| ==> Sum(size, cuts[i].batch) <= limit
  }

  lemma {:induction false} TightBatchesFit<T>(size: T -> nat, cuts: seq<Cut<T>>, tail: seq<T>, limit: nat)
    requires Tight(size, cuts, tail, limit)
    ensures BatchesFit(size, cuts, limit)
  {
    if cuts != [] {
      TightBatchesFit(size, cuts[1..], tail, limit);
      assert forall i :: 1 <= i < |cuts| ==> cuts[i] == cuts[1..][i - 1];
    }
  }

  /** The non-empty batches are the pieces opened for their items and the swallowed ones. */
  lemma {:induction false} SwallowedIsExcess<T>(size: T -> nat, cuts: seq<Cut<T>>, room: int, limit: nat)
    requires BatchesFit(size, cuts, limit)
    ensures NonEmpty(cuts) == Opened(size, Flatten(cuts), room, limit) + Swallowed(size, cuts, room, limit)
    decreases |cuts|
  {
    if cuts != [] {
      var batch, later := cuts[0].batch, cuts[1..];
      assert BatchesFit(size, later, limit);
      if batch == [] {
        assert Flatten(cuts) == Flatten(later);
        SwallowedIsExcess(size, later, room, limit);
      } else if Sum(size, batch) <= room {
        OpenedInside(size, batch, Flatten(later), room, limit);
        SwallowedIsExcess(size, later, room - Sum(size, batch), limit);
      } else {
        OpenedAcross(size, batch, Flatten(later), room, limit);
        SwallowedIsExcess(size, later, limit - Sum(size, batch[Taken(size, batch, room)..]), limit);
      }
    }
  }

  lemma {:induction false} ItemsFit<T>(size: T -> nat, cuts: seq<Cut<T>>, limit: nat)
    requires BatchesFit(size, cuts, limit)
    ensures forall x :: x in Flatten(cuts) ==> size(x) <= limit
  {
    if cuts != [] {
      ItemsFit(size, cuts[1..], limit);
      EachWithinSum(size, cuts[0].batch);
    }
  }

  lemma {:induction false} EachWithinSum<T>(size: T -> nat, items: seq<T>)
    ensures forall x :: x in items ==> size(x) <= Sum(size, items)
  {
    if items != [] {
      EachWithinSum(size, items[1..]);
    }
  }

  /** `cuts` are as few non-empty batches as any division of their items within the limit has pieces. */
  ghost predicate Fewest<T(!new)>(size: T -> nat, cuts: seq<Cut<T>>, limit: nat) {
    forall pieces :: Fits(size, pieces, limit) && Join(pieces) == Flatten(cuts) ==> NonEmpty(cuts) <= |pieces|
  }

  /**
   The exact excess over the best division is the number of swallowed batches, so the batches are the fewest
   possible if and only if none is swallowed. For batches cut as the batcher cuts them that takes a break.
   */
  lemma FewestIff<T(!new)>(size: T -> nat, cuts: seq<Cut<T>>, tail: seq<T>, limit: nat) returns (best: seq<seq<T>>)
    requires Tight(size, cuts, tail, limit)
    ensures Fits(size, best, limit) && Join(best) == Flatten(cuts)
    ensures NonEmpty(cuts) == |best| + Swallowed(size, cuts, -1, limit)
    ensures forall pieces :: Fits(size, pieces, limit) && Join(pieces) == Flatten(cuts) ==> |best| <= |pieces|
    ensures Fewest(size, cuts, limit) <==> Swallowed(size, cuts, -1, limit) == 0
    ensures Swallowed(size, cuts, -1, limit) <= Breaks(cuts)
  {
    TightBatchesFit(size, cuts, tail, limit);
    SwallowedIsExcess(size, cuts, -1, limit);
    ItemsFit(size, cuts, limit);
    var first;
    first, best := OpenedPieces(size, Flatten(cuts), -1, limit);
    assert first == [];
    forall pieces | Fits(size, pieces, limit) && Join(pieces) == Flatten(cuts)
      ensures |best| <= |pieces|
    {
      OpenedIsFewest(size, pieces, -1, limit);
    }
    GreedyBound(size, cuts, tail, best, limit);
  }
}
