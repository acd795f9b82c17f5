/** The featured-books carousel: one current index into the list of books, moved one step
    back or forward with wrap-around, and the one item at that index marked active. */
module Carousel {
  import opened Query

  /** `nextSlide`'s updater: the last index wraps to 0, any other index moves up by one. */
  function NextIndex(prev: int, len: int): (next: int)
    ensures 0 <= prev < len ==> 0 <= next < len
    ensures 0 <= prev < len ==> next == (prev + 1) % len
  {
    if prev == len - 1 then 0 else prev + 1
  }

  /** `prevSlide`'s updater: 0 wraps to the last index, any other index moves down by one. */
  function PrevIndex(prev: int, len: int): (next: int)
    ensures 0 <= prev < len ==> 0 <= next < len
    ensures 0 <= prev < len ==> next == (prev - 1) % len
  {
    if prev == 0 then len - 1 else prev - 1
  }

  /** Going forward then back, or back then forward, returns to the same slide. */
  lemma NextPrevInverse(i: int, len: int)
    requires 0 <= i < len
    ensures PrevIndex(NextIndex(i, len), len) == i
    ensures NextIndex(PrevIndex(i, len), len) == i
  {
  }

  /** The index after `n` presses of the forward button. */
  function Advance(i: int, len: int, n: nat): int {
    if n == 0 then i else NextIndex(Advance(i, len, n - 1), len)
  }

  /** Pressing `a` times and then `b` times is pressing `a + b` times. */
  lemma {:induction false} AdvanceAdd(i: int, len: int, a: nat, b: nat)
    ensures Advance(Advance(i, len, a), len, b) == Advance(i, len, a + b)
  {
    if b > 0 {
      AdvanceAdd(i, len, a, b - 1);
    }
  }

  /** Before the end of the list is reached, each press moves one place up. */
  lemma {:induction false} AdvanceWithin(i: int, len: int, n: nat)
    requires 0 <= i && i + n < len
    ensures Advance(i, len, n) == i + n
  {
    if n > 0 {
      AdvanceWithin(i, len, n - 1);
    }
  }

  /** A full round of forward presses comes back to the starting slide. */
  lemma FullRoundReturns(i: int, len: int)
    requires 0 <= i < len
    ensures Advance(i, len, len) == i
  {
    var toLast := len - 1 - i;
    AdvanceWithin(i, len, toLast);
    assert Advance(len - 1, len, 1) == 0;
    AdvanceAdd(i, len, toLast, 1);
    AdvanceWithin(0, len, i);
    AdvanceAdd(i, len, toLast + 1, i);
  }

  /** The `active` class of each of `len` items: set on the item at `current` only. */
  function ActiveFlags(len: nat, current: int): (flags: seq<bool>)
    ensures |flags| == len
    ensures forall k :: 0 <= k < len ==> (flags[k] <==> k == current)
  {
    seq(len, k requires 0 <= k < len => k == current)
  }

  /** An index inside the list marks exactly one item active; any other marks none. */
  lemma ExactlyOneActive(len: nat, current: int)
    ensures Count(ActiveFlags(len, current), (b: bool) => b) == if 0 <= current < len then 1 else 0
  {
    var flags := ActiveFlags(len, current);
    CountAtMostOne(flags, (b: bool) => b);
    if 0 <= current < len {
      assert flags[current];
    }
  }

  /** The carousel's state: `currentIndex`. The list length is read at each press, as the
      updaters read `ebooks.length`. */
  class CarouselState {
    var currentIndex: int

    /** `useState(0)`. */
    constructor()
      ensures currentIndex == 0
    {
      currentIndex := 0;
    }

    method PrevSlide(len: nat)
      modifies this
      ensures currentIndex == PrevIndex(old(currentIndex), len)
      ensures 0 <= old(currentIndex) < len ==> 0 <= currentIndex < len
    {
      currentIndex := if currentIndex == 0 then len - 1 else currentIndex - 1;
    }

    method NextSlide(len: nat)
      modifies this
      ensures currentIndex == NextIndex(old(currentIndex), len)
      ensures 0 <= old(currentIndex) < len ==> 0 <= currentIndex < len
    {
      currentIndex := if currentIndex == len - 1 then 0 else currentIndex + 1;
    }

    /** The items' `active` flags as the list of `len` books renders them. */
    function Active(len: nat): (flags: seq<bool>)
      reads this
      ensures Count(flags, (b: bool) => b) == if 0 <= currentIndex < len then 1 else 0
    {
      ExactlyOneActive(len, currentIndex);
      ActiveFlags(len, currentIndex)
    }
  }
}
