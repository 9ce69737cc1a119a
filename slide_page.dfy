/**
 * The slide component: the displayed background, the percent/pixel
 * arithmetic of element boxes, their stacking order, and the gestures that
 * edit one element (delete, drag, resize, font) and write it back into the
 * presentation.
 */
module SlidePage {
  import opened Wrappers
  import opened Js
  import opened Document

  /** The colour painted behind the slide: white for a slide still on the sentinel. */
  function DisplayedBackground(background: string): (colour: string)
    ensures colour != DEFAULT_BACKGROUND
    ensures background != DEFAULT_BACKGROUND ==> colour == background
    ensures background == DEFAULT_BACKGROUND ==> colour == "white"
  {
    var bgColour := "white";
    if background != DEFAULT_BACKGROUND then background else bgColour
  }

  /** A box size in pixels as a percentage of the slide's size in pixels (exact arithmetic). */
  function ToPercent(childPx: real, parentPx: real): (r: real)
    requires parentPx > 0.0
    ensures r * parentPx == childPx * 100.0
  {
    (childPx / parentPx) * 100.0
  }

  /** A stored percentage as pixels of a slide of the given size. */
  function ToPixels(percent: real, parentPx: real): (r: real)
    ensures r * 100.0 == percent * parentPx
  {
    (percent / 100.0) * parentPx
  }

  /** Rendering a size stored by a resize gives back the pixel size the gesture produced. */
  lemma PixelsOfPercent(childPx: real, parentPx: real)
    requires parentPx > 0.0
    ensures ToPixels(ToPercent(childPx, parentPx), parentPx) == childPx
  {
    var q := childPx / parentPx;
    assert q * parentPx == childPx;
    calc {
      ToPixels(ToPercent(childPx, parentPx), parentPx);
      ((q * 100.0) / 100.0) * parentPx;
      { assert (q * 100.0) / 100.0 == q; }
      q * parentPx;
    }
  }

  /** Storing the rendered pixel size as a percentage gives back the stored percentage. */
  lemma PercentOfPixels(percent: real, parentPx: real)
    requires parentPx > 0.0
    ensures ToPercent(ToPixels(percent, parentPx), parentPx) == percent
  {
    var p := percent / 100.0;
    assert (p * parentPx) / parentPx == p;
    assert p * 100.0 == percent;
  }

  /** The stacking level of the element at `index`. */
  function ZIndex(index: nat): (z: nat)
    ensures z >= 1
  {
    index + 1
  }

  /** Later elements stack strictly above earlier ones. */
  lemma LaterElementsAbove(i: nat, j: nat)
    requires i < j
    ensures ZIndex(i) < ZIndex(j)
  {
  }

  /** `handleDrag`'s change to one element: the new position, nothing else. */
  function Drag(e: Element, x: real, y: real): (r: Element)
    ensures r.xPos == x && r.yPos == y
    ensures r.content == e.content && r.width == e.width && r.height == e.height && r.fontFamily == e.fontFamily
  {
    e.(xPos := x, yPos := y)
  }

  /** Dragging an element back to where it was restores it. */
  lemma DragBack(e: Element, x: real, y: real)
    ensures Drag(Drag(e, x, y), e.xPos, e.yPos) == e
  {
  }

  /** `handleResize`'s change to one element: size as percentages of the slide, and position, together. */
  function Resize(e: Element, childW: real, childH: real, parentW: real, parentH: real, x: real, y: real): (r: Element)
    requires parentW > 0.0 && parentH > 0.0
    ensures r.width == ToPercent(childW, parentW) && r.height == ToPercent(childH, parentH)
    ensures r.xPos == x && r.yPos == y
    ensures r.content == e.content && r.fontFamily == e.fontFamily
  {
    e.(width := ToPercent(childW, parentW), height := ToPercent(childH, parentH), xPos := x, yPos := y)
  }

  /** A resized element renders at the pixel size the gesture left it, on a slide of the same size. */
  lemma ResizeRendersAtGestureSize(e: Element, childW: real, childH: real, parentW: real, parentH: real, x: real, y: real)
    requires parentW > 0.0 && parentH > 0.0
    ensures var r := Resize(e, childW, childH, parentW, parentH, x, y);
            ToPixels(r.width, parentW) == childW && ToPixels(r.height, parentH) == childH
  {
    PixelsOfPercent(childW, parentW);
    PixelsOfPercent(childH, parentH);
  }

  /** `handleFontSubmit`'s change to one element: the font property, whatever the element's kind. */
  function SetFont(e: Element, font: string): (r: Element)
    ensures r.fontFamily == Some(font)
    ensures r.content == e.content && r.width == e.width && r.height == e.height
    ensures r.xPos == e.xPos && r.yPos == e.yPos
  {
    e.(fontFamily := Some(font))
  }

  /** The font an element is drawn with: only a text element uses its font property. */
  function RenderedFont(e: Element): (f: Option<string>)
    ensures e.content.Text? ==> f == e.fontFamily
    ensures !e.content.Text? ==> f.None?
  {
    if e.content.Text? then e.fontFamily else None
  }

  /** Setting the font of a text element changes how it is drawn; of any other element, it does not. */
  lemma SetFontRendering(e: Element, font: string)
    ensures e.content.Text? ==> RenderedFont(SetFont(e, font)) == Some(font)
    ensures !e.content.Text? ==> RenderedFont(SetFont(e, font)) == RenderedFont(e)
  {
  }

  /** `updatePresentation`: element `e` written at `index` of the current slide's list. */
  function WriteBack(slides: seq<Slide>, slideNumber: nat, index: nat, e: Element): (r: seq<Slide>)
    requires slideNumber < |slides| && index < |slides[slideNumber].obj|
    ensures |r| == |slides|
    ensures r[slideNumber].background == slides[slideNumber].background
    ensures |r[slideNumber].obj| == |slides[slideNumber].obj| && r[slideNumber].obj[index] == e
    ensures forall j :: 0 <= j < |r[slideNumber].obj| && j != index ==> r[slideNumber].obj[j] == slides[slideNumber].obj[j]
    ensures forall i :: 0 <= i < |r| && i != slideNumber ==> r[i] == slides[i]
  {
    var currSlide := slides[slideNumber];
    slides[slideNumber := currSlide.(obj := currSlide.obj[index := e])]
  }

  /** `handleDelete`: a copy of the current slide's list with `index` spliced out. */
  function RemoveElement(slides: seq<Slide>, slideNumber: nat, index: int): (r: seq<Slide>)
    requires slideNumber < |slides|
    ensures |r| == |slides|
    ensures r[slideNumber] == slides[slideNumber].(obj := SpliceOne(slides[slideNumber].obj, index))
    ensures forall i :: 0 <= i < |r| && i != slideNumber ==> r[i] == slides[i]
  {
    var currSlide := slides[slideNumber];
    slides[slideNumber := currSlide.(obj := SpliceOne(currSlide.obj, index))]
  }

  /** Removing the element at `index` shortens the list by one and keeps the others in order. */
  lemma RemoveElementEffect(slides: seq<Slide>, slideNumber: nat, index: int)
    requires slideNumber < |slides| && 0 <= index < |slides[slideNumber].obj|
    ensures var obj := slides[slideNumber].obj;
            var r := RemoveElement(slides, slideNumber, index);
            && r[slideNumber].obj == obj[..index] + obj[index + 1..]
            && |r[slideNumber].obj| == |obj| - 1
  {
    SpliceOneAt(slides[slideNumber].obj, index);
  }

  /** Deleting the element just added removes it again. */
  lemma DeleteLastUndoesAdd(slides: seq<Slide>, slideNumber: nat, e: Element)
    requires slideNumber < |slides|
    ensures var added := slides[slideNumber := slides[slideNumber].(obj := slides[slideNumber].obj + [e])];
            RemoveElement(added, slideNumber, |slides[slideNumber].obj|) == slides
  {
    var obj := slides[slideNumber].obj;
    SpliceOneAt(obj + [e], |obj|);
    assert (obj + [e])[..|obj|] + (obj + [e])[|obj| + 1..] == obj;
  }

  /** The slide component: its props (the presentation, the slide index, the id to save
      under, preview mode), the collection it loaded, and its local copy of the elements.
      The id to save under is absent when the page that renders the slide has none. */
  class SlideView {
    var currPres: Presentation
    const slideNumber: int
    const presId: Option<int>
    const isPreview: bool
    const store: Collection
    var elements: seq<Element>

    /** The slide exists and the local elements are that slide's list. */
    ghost predicate Valid()
      reads this
    {
      0 <= slideNumber < |currPres.slides| && elements == currPres.slides[slideNumber].obj
    }

    /** `{ ...data.store, [presId]: newPres }`: an absent id is written as the `"null"` property. */
    function SavedStore(): (r: Collection)
      reads this
      ensures PropertyKey(presId) in r && r[PropertyKey(presId)] == currPres
      ensures forall k :: k in store && k != PropertyKey(presId) ==> k in r && r[k] == store[k]
    {
      store[PropertyKey(presId) := currPres]
    }

    constructor (currPres: Presentation, slideNumber: int, presId: Option<int>, isPreview: bool, store: Collection)
      requires 0 <= slideNumber < |currPres.slides|
      ensures Valid()
      ensures this.currPres == currPres && this.slideNumber == slideNumber && this.presId == presId
      ensures this.isPreview == isPreview && this.store == store
    {
      this.currPres := currPres;
      this.slideNumber := slideNumber;
      this.presId := presId;
      this.isPreview := isPreview;
      this.store := store;
      elements := currPres.slides[slideNumber].obj;
    }

    /** The context-menu delete; it is wired in preview too. */
    method HandleDelete(index: int) returns (saved: Collection)
      requires Valid()
      modifies this`currPres, this`elements
      ensures Valid()
      ensures currPres == old(currPres).(slides := RemoveElement(old(currPres.slides), slideNumber, index))
      ensures saved == SavedStore()
    {
      var currSlide := currPres.slides[slideNumber];
      var newObj := SpliceOne(currSlide.obj, index);
      var updatedCurrSlide := currSlide.(obj := newObj);
      currPres := currPres.(slides := currPres.slides[slideNumber := updatedCurrSlide]);
      elements := newObj;
      saved := SavedStore();
    }

    /** Only called for a rendered element; dragging is disabled in preview. */
    method HandleDrag(index: int, x: real, y: real) returns (saved: Collection)
      requires Valid() && !isPreview && 0 <= index < |elements|
      modifies this`currPres, this`elements
      ensures Valid()
      ensures currPres == old(currPres).(slides := WriteBack(old(currPres.slides), slideNumber, index, Drag(old(elements[index]), x, y)))
      ensures saved == SavedStore()
    {
      var newElements := elements;
      newElements := newElements[index := newElements[index].(xPos := x, yPos := y)];
      elements := newElements;
      saved := UpdatePresentation(index);
    }

    /** Only called for a rendered element; resizing is disabled in preview. The slide's
        pixel size is positive. */
    method HandleResize(index: int, childW: real, childH: real, parentW: real, parentH: real, x: real, y: real)
      returns (saved: Collection)
      requires Valid() && !isPreview && 0 <= index < |elements|
      requires parentW > 0.0 && parentH > 0.0
      modifies this`currPres, this`elements
      ensures Valid()
      ensures currPres == old(currPres).(slides := WriteBack(old(currPres.slides), slideNumber, index,
                                                  Resize(old(elements[index]), childW, childH, parentW, parentH, x, y)))
      ensures saved == SavedStore()
    {
      var newElements := elements;
      var e := newElements[index];
      e := e.(width := (childW / parentW) * 100.0, height := (childH / parentH) * 100.0);
      e := e.(xPos := x, yPos := y);
      newElements := newElements[index := e];
      elements := newElements;
      saved := UpdatePresentation(index);
    }

    /** The font form, submitted for the selected element. */
    method HandleFontSubmit(index: int, selectedFont: string) returns (saved: Collection)
      requires Valid() && 0 <= index < |elements|
      modifies this`currPres, this`elements
      ensures Valid()
      ensures currPres == old(currPres).(slides := WriteBack(old(currPres.slides), slideNumber, index, SetFont(old(elements[index]), selectedFont)))
      ensures saved == SavedStore()
    {
      var newElements := elements;
      newElements := newElements[index := newElements[index].(fontFamily := Some(selectedFont))];
      elements := newElements;
      saved := UpdatePresentation(index);
    }

    /** Copies the local element at `index` into the presentation; the local list differs
        from the slide's list at most at `index`. */
    method UpdatePresentation(index: int) returns (saved: Collection)
      requires 0 <= slideNumber < |currPres.slides|
      requires |elements| == |currPres.slides[slideNumber].obj| && 0 <= index < |elements|
      requires forall j :: 0 <= j < |elements| && j != index ==> elements[j] == currPres.slides[slideNumber].obj[j]
      modifies this`currPres
      ensures Valid()
      ensures currPres == old(currPres).(slides := WriteBack(old(currPres.slides), slideNumber, index, elements[index]))
      ensures saved == SavedStore()
    {
      var newElement := elements[index];
      var currSlide := currPres.slides[slideNumber];
      var newObj := currSlide.obj[index := newElement];
      currSlide := currSlide.(obj := newObj);
      currPres := currPres.(slides := currPres.slides[slideNumber := currSlide]);
      saved := SavedStore();
    }
  }
}
