/**
  Linear probing without an upper bound: the slot that an event finally gets
  when it asks for slot `r` and moves up by one until the slot is free.
 */
module Probing {

  ghost function AtOrAbove(occupied: set<int>, r: int): set<int> {
    set k | k in occupied && k >= r
  }

  /** The least free slot at or above `r`. */
  ghost function FirstFree(occupied: set<int>, r: int): (slot: int)
    ensures slot >= r && slot !in occupied
    ensures forall k :: r <= k < slot ==> k in occupied
    decreases AtOrAbove(occupied, r)
  {
    if r !in occupied then
      r
    else
      assert r in AtOrAbove(occupied, r) && r !in AtOrAbove(occupied, r + 1);
      FirstFree(occupied, r + 1)
  }

  lemma FirstFreeUnique(occupied: set<int>, r: int, slot: int)
    requires slot >= r && slot !in occupied
    requires forall k :: r <= k < slot ==> k in occupied
    ensures slot == FirstFree(occupied, r)
  {
  }

  /** An event moves by at most the number of occupied slots. */
  lemma {:induction false} BumpBound(occupied: set<int>, r: int)
    ensures FirstFree(occupied, r) - r <= |AtOrAbove(occupied, r)| <= |occupied|
    decreases AtOrAbove(occupied, r)
  {
    assert AtOrAbove(occupied, r) <= occupied;
    SubsetSize(AtOrAbove(occupied, r), occupied);
    if r in occupied {
      assert AtOrAbove(occupied, r) == AtOrAbove(occupied, r + 1) + {r};
      BumpBound(occupied, r + 1);
    }
  }

  lemma SubsetSize(a: set<int>, b: set<int>)
    requires a <= b
    ensures |a| <= |b|
  {
    assert b == a + (b - a);
  }

  // Filling several requests in a row

  /** The occupied slots after the requests have been served in order. */
  ghost function Fill(occupied: set<int>, requests: seq<int>): set<int>
    decreases |requests|
  {
    if requests == [] then occupied
    else Fill(occupied + {FirstFree(occupied, requests[0])}, requests[1..])
  }

  /** The sum of the distances by which the requests are moved. */
  ghost function TotalBump(occupied: set<int>, requests: seq<int>): int
    decreases |requests|
  {
    if requests == [] then 0
    else
      var slot := FirstFree(occupied, requests[0]);
      slot - requests[0] + TotalBump(occupied + {slot}, requests[1..])
  }

  /** Two requests take the same two slots whichever comes first. */
  lemma SwapTwo(occupied: set<int>, a: int, b: int)
    ensures
      var slotA := FirstFree(occupied, a);
      var slotB := FirstFree(occupied, b);
      var thenB := FirstFree(occupied + {slotA}, b);
      var thenA := FirstFree(occupied + {slotB}, a);
      {slotA, thenB} == {slotB, thenA} && slotA + thenB == slotB + thenA
  {
    var slotA := FirstFree(occupied, a);
    var slotB := FirstFree(occupied, b);
    if slotA == slotB {
      var next := FirstFree(occupied + {slotA}, slotA);
      FirstFreeUnique(occupied + {slotA}, a, next);
      FirstFreeUnique(occupied + {slotA}, b, next);
    } else {
      FirstFreeUnique(occupied + {slotA}, b, slotB);
      FirstFreeUnique(occupied + {slotB}, a, slotA);
    }
  }

  lemma FillSwap(occupied: set<int>, a: int, b: int, rest: seq<int>)
    ensures Fill(occupied, [a, b] + rest) == Fill(occupied, [b, a] + rest)
    ensures TotalBump(occupied, [a, b] + rest) == TotalBump(occupied, [b, a] + rest)
  {
    SwapTwo(occupied, a, b);
    FillTwo(occupied, a, b, rest);
    FillTwo(occupied, b, a, rest);
  }

  lemma FillTwo(occupied: set<int>, a: int, b: int, rest: seq<int>)
    ensures
      var slotA := FirstFree(occupied, a);
      var slotB := FirstFree(occupied + {slotA}, b);
      && Fill(occupied, [a, b] + rest) == Fill(occupied + {slotA, slotB}, rest)
      && TotalBump(occupied, [a, b] + rest)
         == slotA + slotB - a - b + TotalBump(occupied + {slotA, slotB}, rest)
  {
    var slotA := FirstFree(occupied, a);
    var slotB := FirstFree(occupied + {slotA}, b);
    assert ([a, b] + rest)[1..] == [b] + rest && ([b] + rest)[1..] == rest;
    assert occupied + {slotA} + {slotB} == occupied + {slotA, slotB};
  }

  /** Serving the request at index `i` first changes nothing in the end. */
  lemma {:induction false} FillMoveToFront(occupied: set<int>, requests: seq<int>, i: nat)
    requires i < |requests|
    ensures
      var moved := [requests[i]] + requests[..i] + requests[i + 1..];
      && Fill(occupied, requests) == Fill(occupied, moved)
      && TotalBump(occupied, requests) == TotalBump(occupied, moved)
    decreases i
  {
    if i == 0 {
      assert [requests[0]] + requests[..0] + requests[1..] == requests;
    } else {
      var first, x := requests[0], requests[i];
      var rest := requests[1..i] + requests[i + 1..];
      MovedParts(requests, i);
      FillMoveToFront(occupied + {FirstFree(occupied, first)}, requests[1..], i - 1);
      FillFirst(occupied, first, [x] + rest);
      assert [first] + ([x] + rest) == [first, x] + rest;
      FillSwap(occupied, first, x, rest);
    }
  }

  lemma MovedParts(requests: seq<int>, i: nat)
    requires 0 < i < |requests|
    ensures
      var tail := requests[1..];
      var rest := requests[1..i] + requests[i + 1..];
      && [tail[i - 1]] + tail[..i - 1] + tail[i..] == [requests[i]] + rest
      && [requests[i]] + requests[..i] + requests[i + 1..] == [requests[i], requests[0]] + rest
  {
  }

  /** The same requests in any order end in the same slots, with the same
      total displacement. */
  lemma {:induction false} FillPermuted(occupied: set<int>, xs: seq<int>, ys: seq<int>)
    requires multiset(xs) == multiset(ys)
    ensures Fill(occupied, xs) == Fill(occupied, ys)
    ensures TotalBump(occupied, xs) == TotalBump(occupied, ys)
    decreases |xs|
  {
    if xs == [] {
      assert |ys| == |multiset(ys)| == 0;
    } else {
      assert xs[0] in multiset(ys);
      var i :| 0 <= i < |ys| && ys[i] == xs[0];
      var others := ys[..i] + ys[i + 1..];
      RemoveSame(xs, ys, i);
      FillMoveToFront(occupied, ys, i);
      assert [ys[i]] + ys[..i] + ys[i + 1..] == [xs[0]] + others;
      FillFirst(occupied, xs[0], others);
      FillPermuted(occupied + {FirstFree(occupied, xs[0])}, xs[1..], others);
    }
  }

  lemma FillFirst(occupied: set<int>, x: int, rest: seq<int>)
    ensures
      var slot := FirstFree(occupied, x);
      && Fill(occupied, [x] + rest) == Fill(occupied + {slot}, rest)
      && TotalBump(occupied, [x] + rest) == slot - x + TotalBump(occupied + {slot}, rest)
  {
  }

  lemma RemoveSame<T>(xs: seq<T>, ys: seq<T>, i: nat)
    requires multiset(xs) == multiset(ys) && xs != [] && i < |ys| && ys[i] == xs[0]
    ensures multiset(xs[1..]) == multiset(ys[..i] + ys[i + 1..])
  {
    assert xs == [xs[0]] + xs[1..];
    assert ys == ys[..i] + [ys[i]] + ys[i + 1..];
    assert multiset(xs[1..]) == multiset(xs) - multiset{xs[0]};
    assert multiset(ys[..i] + ys[i + 1..]) == multiset(ys) - multiset{ys[i]};
  }
}
