/**
 * The preview page: the presentation named by the `presId` query parameter,
 * shown one slide at a time with the same back/forward navigation as the
 * editor, and the slide drawn with dragging and resizing switched off.
 *
 * The page reads `presId` from the address on every render. The editor opens
 * the preview with `?presId=` in the address, but the arrows navigate to
 * `/presentation/{key}/preview/{n}` without it, so after a move the page has
 * no id: the slide it renders is told to save under `null`. The page takes
 * the presentation from the collection once, when the collection arrives;
 * after that the slide component replaces it through the setter the page
 * hands it, so an element delete in the preview is what the page shows and
 * what the next delete starts from.
 */
module PreviewPage {
  import opened Wrappers
  import opened Js
  import opened Document
  import opened Navigator
  import SlidePage

  class PreviewSession {
    const key: int
    var presId: Option<int>
    const store: Collection
    var currPres: Presentation
    var slideNumber: int

    ghost predicate Valid()
      reads this
    {
      0 <= slideNumber < |currPres.slides|
    }

    /** The page after the collection has loaded, at the slide the address names, with
        the presentation stored under the address's `presId`. */
    constructor (store: Collection, key: int, presId: Option<int>, slide: string)
      requires PropertyKey(presId) in store
      requires InitialIndex(slide).Some? && 0 <= InitialIndex(slide).value < |store[PropertyKey(presId)].slides|
      ensures Valid() && this.store == store && this.key == key && this.presId == presId
      ensures currPres == store[PropertyKey(presId)] && slideNumber == InitialIndex(slide).value
    {
      this.store := store;
      this.key := key;
      this.presId := presId;
      currPres := store[PropertyKey(presId)];
      slideNumber := InitialIndex(slide).value;
    }

    /** A move to the previous slide navigates to an address without the query, so the
        page's `presId` is then absent. */
    method GoBackSlide() returns (nav: Option<Route>)
      requires Valid()
      modifies this`slideNumber, this`presId
      ensures Valid() && slideNumber == Back(old(slideNumber))
      ensures nav == if old(slideNumber) != 0 then Some(PreviewRoute(key, SlideSegment(slideNumber), None)) else None
      ensures presId == if old(slideNumber) != 0 then None else old(presId)
    {
      nav := None;
      if slideNumber != 0 {
        slideNumber := slideNumber - 1;
        nav := Some(PreviewRoute(key, NatToString((slideNumber + 1 + 1) - 1), None));
        presId := None;
      }
    }

    /** A move to the next slide navigates to an address without the query, so the
        page's `presId` is then absent. */
    method GoForwardSlide() returns (nav: Option<Route>)
      requires Valid()
      modifies this`slideNumber, this`presId
      ensures Valid() && slideNumber == Forward(old(slideNumber), |currPres.slides|)
      ensures nav == if old(slideNumber) != |currPres.slides| - 1 then Some(PreviewRoute(key, SlideSegment(slideNumber), None)) else None
      ensures presId == if old(slideNumber) != |currPres.slides| - 1 then None else old(presId)
    {
      nav := None;
      if slideNumber != |currPres.slides| - 1 {
        slideNumber := slideNumber + 1;
        nav := Some(PreviewRoute(key, NatToString((slideNumber - 1 + 1) + 1), None));
        presId := None;
      }
    }

    /** The previous-slide move with the query string carried into the new address. */
    method GoBackSlideKeepingQuery() returns (nav: Option<Route>)
      requires Valid()
      modifies this`slideNumber
      ensures Valid() && slideNumber == Back(old(slideNumber)) && presId == old(presId)
      ensures nav == if old(slideNumber) != 0 then Some(PreviewRoute(key, SlideSegment(slideNumber), presId)) else None
    {
      nav := None;
      if slideNumber != 0 {
        slideNumber := slideNumber - 1;
        nav := Some(PreviewRoute(key, SlideSegment(slideNumber), presId));
      }
    }

    /** The next-slide move with the query string carried into the new address. */
    method GoForwardSlideKeepingQuery() returns (nav: Option<Route>)
      requires Valid()
      modifies this`slideNumber
      ensures Valid() && slideNumber == Forward(old(slideNumber), |currPres.slides|) && presId == old(presId)
      ensures nav == if old(slideNumber) != |currPres.slides| - 1 then Some(PreviewRoute(key, SlideSegment(slideNumber), presId)) else None
    {
      nav := None;
      if slideNumber != |currPres.slides| - 1 {
        slideNumber := slideNumber + 1;
        nav := Some(PreviewRoute(key, SlideSegment(slideNumber), presId));
      }
    }

    /** `setCurrPres`, the setter the page hands to the slide component: the slide's
        presentation becomes the page's. The page then shows slide `slideNumber` of it. */
    method SetCurrPres(p: Presentation)
      modifies this`currPres
      ensures currPres == p
      ensures Valid() <==> 0 <= slideNumber < |p.slides|
    {
      currPres := p;
    }

    /** The slide component for the current slide, in preview mode, told to save under the
        page's current `presId`. */
    method RenderSlide() returns (view: SlidePage.SlideView)
      requires Valid()
      ensures fresh(view) && view.Valid() && view.isPreview
      ensures view.currPres == currPres && view.slideNumber == slideNumber && view.presId == presId
      ensures view.store == store
    {
      view := new SlidePage.SlideView(currPres, slideNumber, presId, true, store);
    }
  }
}
