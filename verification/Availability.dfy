/**
`_busy_from_availability_view` of bin/_smoke_lib.py: Graph's availability string, one character
per half hour from a half-hour boundary of the epoch, turned into busy blocks.
Instants are integers, microseconds since the UNIX epoch.
*/
module Availability {

  const THIRTY_MIN: int := 1_800_000_000

  datatype Block = Block(start: int, end: int)

  /** '0' is free and '4' is working elsewhere; anything else is busy. */
  predicate BusyChar(c: char) {
    c != '0' && c != '4'
  }

  /** The half-hour boundary at or before `winStart`. */
  function Floored(winStart: int): (f: int)
    ensures f <= winStart < f + THIRTY_MIN && f % THIRTY_MIN == 0
  {
    winStart / THIRTY_MIN * THIRTY_MIN
  }

  /** The character that covers instant `x`. */
  function SlotOf(winStart: int, x: int): int {
    (x - Floored(winStart)) / THIRTY_MIN
  }

  predicate Inside(b: Block, x: int) {
    b.start <= x < b.end
  }

  /** The block of character `i`. */
  function SlotBlock(winStart: int, winEnd: int, i: int): Block {
    var start := Floored(winStart) + i * THIRTY_MIN;
    Block(start, if start + THIRTY_MIN < winEnd then start + THIRTY_MIN else winEnd)
  }

  /** The blocks of a view: one for each busy character, in the order of the view. */
  function Blocks(view: string, winStart: int, winEnd: int): seq<Block> {
    if view == "" then [] else
      var n := |view| - 1;
      var before := Blocks(view[..n], winStart, winEnd);
      if BusyChar(view[n]) then before + [SlotBlock(winStart, winEnd, n)] else before
  }

  method BusyFromAvailabilityView(view: string, winStart: int, winEnd: int) returns (busy: seq<Block>)
    ensures busy == Blocks(view, winStart, winEnd)
  {
    var floorUnits := winStart / THIRTY_MIN;
    var flooredStart := floorUnits * THIRTY_MIN;
    busy := [];
    for i := 0 to |view|
      invariant busy == Blocks(view[..i], winStart, winEnd)
    {
      assert view[..i + 1][..i] == view[..i];
      var ch := view[i];
      if ch == '0' || ch == '4' {
        continue;
      }
      var slotStart := flooredStart + i * THIRTY_MIN;
      var slotEnd := if slotStart + THIRTY_MIN < winEnd then slotStart + THIRTY_MIN else winEnd;
      busy := busy + [Block(slotStart, slotEnd)];
    }
    assert view[..|view|] == view;
  }

  ghost predicate IsBusySlot(view: string, i: int) {
    0 <= i < |view| && BusyChar(view[i])
  }

  /** The blocks are exactly those of the busy characters. */
  lemma {:induction false} BlockIffBusySlot(view: string, winStart: int, winEnd: int, b: Block)
    ensures b in Blocks(view, winStart, winEnd) <==>
            exists i :: IsBusySlot(view, i) && b == SlotBlock(winStart, winEnd, i)
  {
    if view != "" {
      var n := |view| - 1;
      BlockIffBusySlot(view[..n], winStart, winEnd, b);
      forall i ensures IsBusySlot(view, i) <==> IsBusySlot(view[..n], i) || (i == n && BusyChar(view[n])) {
      }
    }
  }

  lemma SlotCovers(winStart: int, x: int, i: int)
    ensures SlotOf(winStart, x) == i <==>
            Floored(winStart) + i * THIRTY_MIN <= x < Floored(winStart) + (i + 1) * THIRTY_MIN
  {
  }

  /** An instant of the window lies in some block exactly when its half hour is marked busy. */
  lemma BlocksAreBusyTime(view: string, winStart: int, winEnd: int, x: int)
    requires Floored(winStart) <= x < winEnd
    ensures (exists b :: b in Blocks(view, winStart, winEnd) && Inside(b, x)) <==>
            SlotOf(winStart, x) < |view| && BusyChar(view[SlotOf(winStart, x)])
  {
    var i := SlotOf(winStart, x);
    SlotCovers(winStart, x, i);
    if b :| b in Blocks(view, winStart, winEnd) && Inside(b, x) {
      BlockIffBusySlot(view, winStart, winEnd, b);
      var j :| IsBusySlot(view, j) && b == SlotBlock(winStart, winEnd, j);
      SlotCovers(winStart, x, j);
    }
    if IsBusySlot(view, i) {
      var b := SlotBlock(winStart, winEnd, i);
      BlockIffBusySlot(view, winStart, winEnd, b);
      assert Inside(b, x);
    }
  }

  /** How many half hours the window touches. */
  function Ceil(winStart: int, winEnd: int): int {
    (winEnd - Floored(winStart) + THIRTY_MIN - 1) / THIRTY_MIN
  }

  lemma BeginsInWindow(winStart: int, winEnd: int, i: int)
    ensures i < Ceil(winStart, winEnd) <==> Floored(winStart) + i * THIRTY_MIN < winEnd
  {
  }

  ghost predicate Tidy(busy: seq<Block>, winEnd: int) {
    && (forall k | 0 <= k < |busy| :: busy[k].start < busy[k].end <= winEnd)
    && (forall j, k | 0 <= j < k < |busy| :: busy[j].end <= busy[k].start)
  }

  /** Blocks are non-empty, disjoint and in order exactly when no busy character lies past the window. */
  lemma {:induction false} BlocksTidyIff(view: string, winStart: int, winEnd: int)
    ensures Tidy(Blocks(view, winStart, winEnd), winEnd) <==>
            forall i :: IsBusySlot(view, i) ==> i < Ceil(winStart, winEnd)
  {
    if view != "" {
      var n := |view| - 1;
      var before := Blocks(view[..n], winStart, winEnd);
      var last := SlotBlock(winStart, winEnd, n);
      BlocksTidyIff(view[..n], winStart, winEnd);
      forall i ensures IsBusySlot(view, i) <==> IsBusySlot(view[..n], i) || (i == n && BusyChar(view[n])) {
      }
      BeginsInWindow(winStart, winEnd, n);
      forall b | b in before ensures b.end <= last.start {
        BlockIffBusySlot(view[..n], winStart, winEnd, b);
      }
      if BusyChar(view[n]) {
        TidySnoc(before, last, winEnd);
        assert IsBusySlot(view, n);
      } else {
        assert Blocks(view, winStart, winEnd) == before;
        assert forall i :: IsBusySlot(view[..n], i) <==> IsBusySlot(view, i);
      }
    }
  }

  lemma TidySnoc(before: seq<Block>, last: Block, winEnd: int)
    requires forall b | b in before :: b.end <= last.start
    ensures Tidy(before + [last], winEnd) <==> Tidy(before, winEnd) && last.start < last.end <= winEnd
  {
    var all := before + [last];
    assert all[|before|] == last;
    assert forall k | 0 <= k < |before| :: all[k] == before[k];
  }

  /** A second busy half hour behind a window of one: its block ends before it begins. */
  lemma PastWindowExample()
    ensures !Tidy(Blocks("01", 0, THIRTY_MIN), THIRTY_MIN)
  {
    BlocksTidyIff("01", 0, THIRTY_MIN);
    assert IsBusySlot("01", 1) && Ceil(0, THIRTY_MIN) == 1;
  }
}
