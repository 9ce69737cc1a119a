/**
 * The back/forward state machine the editor and the preview share: the
 * current slide index, its first/last flags, the visibility of the two
 * arrow buttons, and the 1-based slide segment written to the address.
 */
module Navigator {
  import opened Wrappers
  import opened Js

  /** The index after `goBackSlide`, whose guard is `slideNumber !== 0`. */
  function Back(index: int): (r: int)
    ensures r == index <==> index == 0
    ensures r != index ==> r == index - 1
    ensures 0 <= index ==> 0 <= r <= index
  {
    if index != 0 then index - 1 else index
  }

  /** The index after `goForwardSlide`, whose guard is `slideNumber !== length - 1`. */
  function Forward(index: int, len: nat): (r: int)
    ensures r == index <==> index == len - 1
    ensures r != index ==> r == index + 1
    ensures 0 <= index < len ==> index <= r < len
  {
    if index != len - 1 then index + 1 else index
  }

  predicate IsFirst(index: int) {
    index == 0
  }

  predicate IsLast(index: int, len: nat) {
    index == len - 1
  }

  /** Style of the back arrow: shown when not on the first slide and there is more than one. */
  predicate BackVisible(index: int, len: nat) {
    !IsFirst(index) && len > 1
  }

  /** Style of the forward arrow: shown when not on the last slide and there is more than one. */
  predicate ForwardVisible(index: int, len: nat) {
    !IsLast(index, len) && len > 1
  }

  /** On an index inside the slides, a visible arrow always moves, a hidden one never does,
      and with two or more slides at least one arrow is shown. */
  lemma ArrowsMatchMoves(index: int, len: nat)
    requires 0 <= index < len
    ensures BackVisible(index, len) <==> Back(index) != index
    ensures ForwardVisible(index, len) <==> Forward(index, len) != index
    ensures len > 1 ==> BackVisible(index, len) || ForwardVisible(index, len)
  {
  }

  datatype Move = GoBack | GoForward

  /** The index after a run of arrow presses (button clicks or arrow keys). */
  function Run(index: int, len: nat, moves: seq<Move>): int
    decreases |moves|
  {
    if moves == [] then index
    else
      var next := if moves[0] == GoBack then Back(index) else Forward(index, len);
      Run(next, len, moves[1..])
  }

  /** However the arrows are pressed, an index that starts on a slide stays on a slide,
      and it never moves further than one slide per press. */
  lemma {:induction false} RunStaysInBounds(index: int, len: nat, moves: seq<Move>)
    requires 0 <= index < len
    ensures 0 <= Run(index, len, moves) < len
    ensures index - |moves| <= Run(index, len, moves) <= index + |moves|
    decreases |moves|
  {
    if moves != [] {
      var next := if moves[0] == GoBack then Back(index) else Forward(index, len);
      RunStaysInBounds(next, len, moves[1..]);
    }
  }

  /** Going forward then back returns to the start unless forward was a no-op at the end. */
  lemma ForwardThenBack(index: int, len: nat)
    requires 0 <= index < len - 1
    ensures Back(Forward(index, len)) == index
  {
  }

  /** The 1-based slide number written into the address for a 0-based index. */
  function SlideSegment(index: nat): (s: string)
    ensures |s| >= 1 && AllDigits(s)
  {
    NatToString(index + 1)
  }

  /** The initial index a page takes from its address: `parseInt(slide, 10) - 1`,
      `None` when the segment is not a number. */
  function InitialIndex(slide: string): (r: Option<int>)
    ensures r.Some? <==> ParseInt(slide).Some?
    ensures r.Some? ==> r.value + 1 == ParseInt(slide).value
  {
    match ParseInt(slide)
    case None => None
    case Some(n) => Some(n - 1)
  }

  /** The slide number written after a move reads back as the index it was written for. */
  lemma SegmentRoundTrip(index: nat)
    ensures InitialIndex(SlideSegment(index)) == Some(index)
  {
    ParseIntOfNatToString(index + 1);
  }

  /** The dashboard's links open slide "1", the first slide. */
  lemma FirstSegmentIsFirstSlide()
    ensures InitialIndex("1") == Some(0)
  {
    assert SlideSegment(0) == "1";
    SegmentRoundTrip(0);
  }
}
