/**
 * The editor's operations on a presentation's list of slides, as values:
 * adding and deleting a slide, the two-step background change, and
 * appending an element to one slide.
 */
module SlideList {
  import opened Js
  import opened Document

  /** `addSlide`: a copy of the slides with a fresh default slide at the end. */
  function AddSlide(slides: seq<Slide>): (r: seq<Slide>)
    ensures |r| == |slides| + 1
    ensures r[..|slides|] == slides
    ensures r[|slides|] == NewSlide()
  {
    slides + [NewSlide()]
  }

  /** The alert `deleteSlide` raises instead of deleting. */
  const ONLY_SLIDE_ALERT: string := "Cannot delete only slide"

  datatype Deletion =
    | Refused
    | Deleted(slides: seq<Slide>, slideNumber: int)

  /** `deleteSlide`: refuse on a one-slide presentation; otherwise splice the
      current slide out of a copy and pick the new current index: the new last
      slide if the last one went, still 0 if slide 0 went, else the slide before. */
  function DeleteSlide(slides: seq<Slide>, slideNumber: int): (d: Deletion)
    ensures d.Refused? <==> |slides| == 1
    ensures d.Deleted? ==> d.slides == SpliceOne(slides, slideNumber)
  {
    if |slides| == 1 then Refused
    else
      var rest := SpliceOne(slides, slideNumber);
      var next :=
        if slideNumber == |rest| then |rest| - 1
        else if slideNumber == 0 then slideNumber
        else slideNumber - 1;
      Deleted(rest, next)
  }

  /** Deleting the current slide of a presentation with more than one removes exactly
      that slide, keeps the others in order, and leaves a current index on a slide. */
  lemma DeleteSlideEffect(slides: seq<Slide>, slideNumber: int)
    requires 1 < |slides| && 0 <= slideNumber < |slides|
    ensures var d := DeleteSlide(slides, slideNumber);
            && d.Deleted?
            && d.slides == slides[..slideNumber] + slides[slideNumber + 1..]
            && |d.slides| == |slides| - 1
            && 0 <= d.slideNumber < |d.slides|
            && d.slideNumber == (if slideNumber == |slides| - 1 then |slides| - 2
                                 else if slideNumber == 0 then 0
                                 else slideNumber - 1)
  {
    SpliceOneAt(slides, slideNumber);
  }

  /** Adding a slide and then deleting it while it is current gives back the slides
      and moves to the slide that was last before. */
  lemma AddThenDeleteLast(slides: seq<Slide>)
    requires |slides| >= 1
    ensures DeleteSlide(AddSlide(slides), |slides|) == Deleted(slides, |slides| - 1)
  {
    var added := AddSlide(slides);
    SpliceOneAt(added, |slides|);
    assert added[..|slides|] + added[|slides| + 1..] == slides;
  }

  /** First step of `changeBackground`: a slide still on the sentinel takes the default colour. */
  function Materialise(slide: Slide, defaultColor: string): (r: Slide)
    ensures r.obj == slide.obj
    ensures slide.background != DEFAULT_BACKGROUND ==> r == slide
  {
    if slide.background == DEFAULT_BACKGROUND then slide.(background := defaultColor) else slide
  }

  /** The backfill over every slide of the presentation. */
  function Backfill(slides: seq<Slide>, defaultColor: string): (r: seq<Slide>)
    ensures |r| == |slides|
    ensures forall i :: 0 <= i < |r| ==> r[i] == Materialise(slides[i], defaultColor)
  {
    seq(|slides|, i requires 0 <= i < |slides| => Materialise(slides[i], defaultColor))
  }

  /** `changeBackground`: the backfill, then the current slide takes `color`. */
  function ChangeBackground(slides: seq<Slide>, slideNumber: nat, defaultColor: string, color: string): (r: seq<Slide>)
    requires slideNumber < |slides|
    ensures |r| == |slides| && r[slideNumber].background == color
    ensures forall i :: 0 <= i < |r| ==> r[i].obj == slides[i].obj
  {
    var filled := Backfill(slides, defaultColor);
    filled[slideNumber := filled[slideNumber].(background := color)]
  }

  /** After a background change the current slide has `color`, every other slide that was on
      the sentinel has `defaultColor`, every other slide keeps its colour, and no element moves. */
  lemma ChangeBackgroundEffect(slides: seq<Slide>, slideNumber: nat, defaultColor: string, color: string, i: int)
    requires slideNumber < |slides| && 0 <= i < |slides|
    ensures var r := ChangeBackground(slides, slideNumber, defaultColor, color);
            && |r| == |slides|
            && r[i].obj == slides[i].obj
            && r[i].background == (if i == slideNumber then color
                                   else if slides[i].background == DEFAULT_BACKGROUND then defaultColor
                                   else slides[i].background)
  {
  }

  /** The backfill is idempotent. */
  lemma BackfillIdempotent(slides: seq<Slide>, defaultColor: string)
    ensures Backfill(Backfill(slides, defaultColor), defaultColor) == Backfill(slides, defaultColor)
  {
    var once := Backfill(slides, defaultColor);
    var twice := Backfill(once, defaultColor);
    forall i | 0 <= i < |slides|
      ensures twice[i] == once[i]
    {
      if slides[i].background == DEFAULT_BACKGROUND && defaultColor == DEFAULT_BACKGROUND {
        assert once[i] == slides[i];
      }
    }
  }

  /** Submitting the background form twice with the same colours is the same as once. */
  lemma ChangeBackgroundIdempotent(slides: seq<Slide>, slideNumber: nat, defaultColor: string, color: string)
    requires slideNumber < |slides|
    ensures var once := ChangeBackground(slides, slideNumber, defaultColor, color);
            ChangeBackground(once, slideNumber, defaultColor, color) == once
  {
    var once := ChangeBackground(slides, slideNumber, defaultColor, color);
    var twice := ChangeBackground(once, slideNumber, defaultColor, color);
    forall i | 0 <= i < |slides|
      ensures twice[i] == once[i]
    {
      ChangeBackgroundEffect(slides, slideNumber, defaultColor, color, i);
      ChangeBackgroundEffect(once, slideNumber, defaultColor, color, i);
    }
  }

  /** The backfill is one-shot: a slide added afterwards is on the sentinel again. */
  lemma SlideAddedAfterBackfillIsDefault(slides: seq<Slide>, slideNumber: nat, defaultColor: string, color: string)
    requires slideNumber < |slides|
    ensures var r := AddSlide(ChangeBackground(slides, slideNumber, defaultColor, color));
            r[|slides|].background == DEFAULT_BACKGROUND
  {
  }

  /** `slides[slideNumber].obj.push(e)`. */
  function PushElement(slides: seq<Slide>, slideNumber: nat, e: Element): (r: seq<Slide>)
    requires slideNumber < |slides|
    ensures |r| == |slides|
    ensures r[slideNumber].background == slides[slideNumber].background
    ensures r[slideNumber].obj == slides[slideNumber].obj + [e]
    ensures forall i :: 0 <= i < |r| && i != slideNumber ==> r[i] == slides[i]
  {
    slides[slideNumber := slides[slideNumber].(obj := slides[slideNumber].obj + [e])]
  }
}
