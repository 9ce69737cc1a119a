/**
 * The presentation editor page: deleting and renaming the presentation,
 * moving between slides, adding and deleting slides, adding the four kinds of
 * element to the current slide, and changing backgrounds. Every change hands
 * the whole collection to the store's save call; that value is what the
 * methods return.
 *
 * The page works on objects: the presentation it shows (`currPres`) starts as
 * the very object of the fetched collection (`data.store[key]`), copy-based
 * changes replace it by a new object that shares the slide objects, and the
 * element forms and the background change update slide objects in place.
 */
module PresentationPage {
  import opened Wrappers
  import opened Js
  import opened Document
  import opened Store
  import opened Navigator
  import opened SlideList
  import opened Elements

  /** `handleDelete`: the store's values as a list, the presentation at `key - 1`
      spliced out, and the list keyed from 1 again. */
  function DeletePresentation(c: Collection, key: int): (r: Collection)
    requires Contiguous(c)
    ensures Contiguous(r)
  {
    Rebuild(SpliceOne(Values(c), key - 1))
  }

  /** Deleting id `key` of `1..n` leaves ids `1..n-1`: lower ids keep their presentation
      and each higher one moves down by one. */
  lemma DeletePresentationRenumbers(c: Collection, key: int)
    requires Contiguous(c) && 1 <= key <= |c|
    ensures |DeletePresentation(c, key)| == |c| - 1
    ensures DeletePresentation(c, key).Keys == KeyRange(|c| - 1)
    ensures forall j :: 1 <= j < key ==>
              Id(j) in DeletePresentation(c, key) && DeletePresentation(c, key)[Id(j)] == c[Id(j)]
    ensures forall j :: key <= j < |c| ==>
              Id(j) in DeletePresentation(c, key) && DeletePresentation(c, key)[Id(j)] == c[Id(j + 1)]
  {
    var r := DeletePresentation(c, key);
    assert |r| == |c| - 1 by {
      RebuildWithout(Values(c), key - 1);
    }
    forall j | 1 <= j < key
      ensures Id(j) in r && r[Id(j)] == c[Id(j)]
    {
      DeleteKeepsBelow(c, key, j);
    }
    forall j | key <= j < |c|
      ensures Id(j) in r && r[Id(j)] == c[Id(j + 1)]
    {
      DeleteShiftsAbove(c, key, j);
    }
  }

  /** An id below the deleted one keeps its presentation. */
  lemma DeleteKeepsBelow(c: Collection, key: int, j: int)
    requires Contiguous(c) && 1 <= j < key <= |c|
    ensures Id(j) in DeletePresentation(c, key)
    ensures DeletePresentation(c, key)[Id(j)] == c[Id(j)]
  {
    var s := Values(c);
    RebuildWithout(s, key - 1);
    assert s[j - 1] == c[Id(j)];
  }

  /** An id from the deleted one on holds the presentation of the next id. */
  lemma DeleteShiftsAbove(c: Collection, key: int, j: int)
    requires Contiguous(c) && 1 <= key <= j < |c|
    ensures Id(j) in DeletePresentation(c, key)
    ensures DeletePresentation(c, key)[Id(j)] == c[Id(j + 1)]
  {
    var s := Values(c);
    RebuildWithout(s, key - 1);
    assert s[j] == c[Id(j + 1)];
  }

  /** What a change ends in: the collection handed to the save call, or an alert and no change. */
  datatype Outcome = Saved(store: Collection) | Alert(message: string)

  /** The derived flags agree with the assignments the two arrow handlers make to
      their local copies of `firstSlide` and `lastSlide` after a move. */
  lemma FlagsAfterMoves(index: int, len: nat)
    requires 0 <= index < len
    ensures index != 0 ==> !IsLast(Back(index), len) && (IsFirst(Back(index)) <==> index - 1 == 0)
    ensures index != len - 1 ==> !IsFirst(Forward(index, len)) && (IsLast(Forward(index, len), len) <==> index + 1 == len - 1)
  {
  }

  /** A slide object. The element forms push onto its `obj` in place and the background
      change assigns its `background` in place, so every presentation object that lists
      it sees the change. */
  class SlideObj {
    var background: string
    var obj: seq<Element>

    constructor (s: Slide)
      ensures Value() == s
    {
      background := s.background;
      obj := s.obj;
    }

    function Value(): Slide
      reads this
    {
      Slide(background, obj)
    }
  }

  /** The slides a list of slide objects holds now. */
  function SlideValues(ss: seq<SlideObj>): (r: seq<Slide>)
    reads set s | s in ss
    ensures |r| == |ss|
    ensures forall i :: 0 <= i < |ss| ==> r[i] == ss[i].Value()
  {
    seq(|ss|, i requires 0 <= i < |ss| reads set s | s in ss => ss[i].Value())
  }

  /** No slide object is listed twice. */
  predicate Distinct(ss: seq<SlideObj>) {
    forall i, j :: 0 <= i < j < |ss| ==> ss[i] != ss[j]
  }

  /** Splicing one slide object out of a list keeps the others distinct, and the values
      follow the splice. */
  lemma SpliceSlideObjs(ss: seq<SlideObj>, i: int)
    requires Distinct(ss) && 0 <= i < |ss|
    ensures Distinct(SpliceOne(ss, i))
    ensures SlideValues(SpliceOne(ss, i)) == SpliceOne(SlideValues(ss), i)
  {
    SpliceOneAt(ss, i);
    SpliceOneAt(SlideValues(ss), i);
  }

  /** A presentation object; the spread `{ ...currPres, slides }` makes a new one that
      lists the same slide objects. */
  class PresObj {
    var presName: string
    const thumbnail: string
    const description: string
    const slides: seq<SlideObj>

    constructor (presName: string, thumbnail: string, description: string, slides: seq<SlideObj>)
      ensures this.presName == presName && this.thumbnail == thumbnail
      ensures this.description == description && this.slides == slides
    {
      this.presName := presName;
      this.thumbnail := thumbnail;
      this.description := description;
      this.slides := slides;
    }

    function Value(): Presentation
      reads this, set s | s in slides
    {
      Presentation(presName, thumbnail, description, SlideValues(slides))
    }
  }

  /** The slide objects of a presentation as it arrives from the store: one new object per slide. */
  method LoadSlides(slides: seq<Slide>) returns (objs: seq<SlideObj>)
    ensures Distinct(objs) && SlideValues(objs) == slides
    ensures forall s :: s in objs ==> fresh(s)
  {
    objs := [];
    var i := 0;
    while i < |slides|
      invariant 0 <= i <= |slides| && |objs| == i
      invariant Distinct(objs)
      invariant forall j :: 0 <= j < i ==> fresh(objs[j]) && objs[j].Value() == slides[j]
    {
      var s := new SlideObj(slides[i]);
      objs := objs + [s];
      i := i + 1;
    }
  }

  /** The editor's state: the collection fetched when the page opened (`data`, never
      fetched again), the object `data.store[key]` (`loaded`), the presentation shown
      (`currPres`) and the current slide index (`slideNumber`). */
  class Editor {
    const key: int
    const store: Collection
    const loaded: PresObj
    var currPres: PresObj
    var slideNumber: int

    ghost predicate Valid()
      reads this, currPres
    {
      Id(key) in store && 0 <= slideNumber < |currPres.slides| && Distinct(currPres.slides)
    }

    /** The presentation shown. */
    function Current(): Presentation
      reads this, currPres, set s | s in currPres.slides
    {
      currPres.Value()
    }

    /** `{ ...data.store, [key]: currPres }`: the fetched collection with the presentation shown in place. */
    function SavedStore(): Collection
      reads this, currPres, set s | s in currPres.slides
    {
      store[Id(key) := currPres.Value()]
    }

    /** `data.store` now: the fetched collection, whose entry under `key` is the object `loaded`
        with every in-place change made through it or through the slide objects it lists. */
    function Data(): Collection
      reads loaded, set s | s in loaded.slides
    {
      store[Id(key) := loaded.Value()]
    }

    /** The page after the collection has loaded, at the slide the address names. */
    constructor (store: Collection, key: int, slide: string)
      requires Id(key) in store
      requires InitialIndex(slide).Some? && 0 <= InitialIndex(slide).value < |store[Id(key)].slides|
      ensures Valid() && this.store == store && this.key == key
      ensures currPres == loaded && Current() == store[Id(key)] && slideNumber == InitialIndex(slide).value
      ensures fresh(currPres) && forall s :: s in currPres.slides ==> fresh(s)
    {
      var p := store[Id(key)];
      var objs := LoadSlides(p.slides);
      this.store := store;
      this.key := key;
      loaded := new PresObj(p.presName, p.thumbnail, p.description, objs);
      currPres := loaded;
      slideNumber := InitialIndex(slide).value;
    }

    method HandleDelete() returns (saved: Collection, nav: Route)
      requires Valid() && Contiguous(store)
      ensures Contiguous(Data()) && saved == DeletePresentation(Data(), key)
      ensures 1 <= key <= |store| ==> |saved| == |store| - 1
      ensures nav == DashboardRoute
    {
      var data := Data();
      assert data.Keys == store.Keys;
      var values := Values(data);
      var remaining := SpliceOne(values, key - 1);
      saved := Rebuild(remaining);
      nav := DashboardRoute;
    }

    /** `handleEdit` renames the object shown and saves `data`: the rename reaches the
        save only while the object shown is still the fetched one. */
    method HandleEdit(name: string) returns (saved: Collection)
      requires Valid()
      modifies currPres
      ensures Valid() && Current() == old(Current()).(presName := name)
      ensures saved == Data()
      ensures currPres == loaded ==> saved == SavedStore()
      ensures currPres != loaded ==> Data() == old(Data())
    {
      currPres.presName := name;
      saved := Data();
    }

    /** The rename saved the way the other handlers save: `{ ...data.store, [key]: currPres }`. */
    method HandleEditSavingShown(name: string) returns (saved: Collection)
      requires Valid()
      modifies currPres
      ensures Valid() && Current() == old(Current()).(presName := name)
      ensures saved == SavedStore() && saved[Id(key)] == old(Current()).(presName := name)
    {
      currPres.presName := name;
      saved := SavedStore();
    }

    method GoBackSlide() returns (nav: Option<Route>)
      requires Valid()
      modifies this`slideNumber
      ensures Valid() && slideNumber == Back(old(slideNumber))
      ensures nav == if old(slideNumber) != 0 then Some(EditorRoute(key, SlideSegment(slideNumber))) else None
    {
      nav := None;
      if slideNumber != 0 {
        slideNumber := slideNumber - 1;
        nav := Some(EditorRoute(key, NatToString((slideNumber + 1 + 1) - 1)));
      }
    }

    method GoForwardSlide() returns (nav: Option<Route>)
      requires Valid()
      modifies this`slideNumber
      ensures Valid() && slideNumber == Forward(old(slideNumber), |currPres.slides|)
      ensures nav == if old(slideNumber) != |currPres.slides| - 1 then Some(EditorRoute(key, SlideSegment(slideNumber))) else None
    {
      nav := None;
      if slideNumber != |currPres.slides| - 1 {
        slideNumber := slideNumber + 1;
        nav := Some(EditorRoute(key, NatToString((slideNumber - 1 + 1) + 1)));
      }
    }

    /** A new presentation object listing the old slide objects and one new one. */
    method AddSlide() returns (saved: Collection)
      requires Valid()
      modifies this`currPres
      ensures Valid() && Current() == old(Current()).(slides := SlideList.AddSlide(old(Current().slides)))
      ensures fresh(currPres) && currPres.slides[..|currPres.slides| - 1] == old(currPres.slides)
      ensures fresh(currPres.slides[|currPres.slides| - 1])
      ensures saved == SavedStore()
    {
      var s := new SlideObj(NewSlide());
      var newSlides := currPres.slides + [s];
      assert newSlides[..|newSlides| - 1] == currPres.slides;
      currPres := new PresObj(currPres.presName, currPres.thumbnail, currPres.description, newSlides);
      assert SlideValues(newSlides) == SlideValues(old(currPres.slides)) + [NewSlide()];
      saved := SavedStore();
    }

    /** A new presentation object listing the slide objects but the current one. */
    method DeleteSlide() returns (outcome: Outcome)
      requires Valid()
      modifies this`currPres, this`slideNumber
      ensures Valid()
      ensures |old(currPres.slides)| == 1 ==>
                outcome == Alert(ONLY_SLIDE_ALERT) && currPres == old(currPres) && slideNumber == old(slideNumber)
      ensures |old(currPres.slides)| != 1 ==>
                SlideList.DeleteSlide(old(Current().slides), old(slideNumber)) == Deleted(Current().slides, slideNumber)
                && Current().presName == old(Current().presName)
                && fresh(currPres) && currPres.slides == SpliceOne(old(currPres.slides), old(slideNumber))
                && outcome == Saved(SavedStore())
    {
      if |currPres.slides| == 1 {
        outcome := Alert(ONLY_SLIDE_ALERT);
      } else {
        DeleteSlideEffect(SlideValues(currPres.slides), slideNumber);
        SpliceSlideObjs(currPres.slides, slideNumber);
        var updated := SpliceOne(currPres.slides, slideNumber);
        currPres := new PresObj(currPres.presName, currPres.thumbnail, currPres.description, updated);
        outcome := Saved(SavedStore());
        if slideNumber == |updated| {
          slideNumber := |updated| - 1;
        } else if slideNumber == 0 {
        } else {
          slideNumber := slideNumber - 1;
        }
      }
    }

    /** `currPres.slides[slideNumber].obj.push(e)` on the current slide object, then the save. */
    method Push(e: Element) returns (saved: Collection)
      requires Valid()
      modifies currPres.slides[slideNumber]
      ensures Valid() && Current() == old(Current()).(slides := PushElement(old(Current().slides), slideNumber, e))
      ensures saved == SavedStore()
    {
      var s := currPres.slides[slideNumber];
      s.obj := s.obj + [e];
      assert SlideValues(currPres.slides) == PushElement(old(SlideValues(currPres.slides)), slideNumber, e);
      saved := SavedStore();
    }

    method AddText(form: TextForm) returns (saved: Collection)
      requires Valid()
      modifies currPres.slides[slideNumber]
      ensures Valid() && Current() == old(Current()).(slides := PushElement(old(Current().slides), slideNumber, NewText(form)))
      ensures saved == SavedStore()
    {
      saved := Push(NewText(form));
    }

    method AddImage(form: ImageForm) returns (outcome: Outcome)
      requires Valid()
      modifies currPres.slides[slideNumber]
      ensures Valid()
      ensures NewImage(form).None? ==> outcome == Alert(IMAGE_SOURCE_ALERT) && Current() == old(Current())
      ensures NewImage(form).Some? ==>
                Current() == old(Current()).(slides := PushElement(old(Current().slides), slideNumber, NewImage(form).value))
                && outcome == Saved(SavedStore())
    {
      var image := NewImage(form);
      if image.None? {
        outcome := Alert(IMAGE_SOURCE_ALERT);
        return;
      }
      var saved := Push(image.value);
      outcome := Saved(saved);
    }

    method AddVideo(form: VideoForm) returns (saved: Collection)
      requires Valid()
      modifies currPres.slides[slideNumber]
      ensures Valid() && Current() == old(Current()).(slides := PushElement(old(Current().slides), slideNumber, NewVideo(form)))
      ensures saved == SavedStore()
    {
      saved := Push(NewVideo(form));
    }

    /** `detected` is the label the language detector returned for `form.code`. */
    method AddCode(form: CodeForm, detected: string) returns (outcome: Outcome)
      requires Valid()
      modifies currPres.slides[slideNumber]
      ensures Valid()
      ensures LanguageFor(detected).None? ==> outcome == Alert(LANGUAGE_ALERT) && Current() == old(Current())
      ensures LanguageFor(detected).Some? ==>
                Current() == old(Current()).(slides := PushElement(old(Current().slides), slideNumber, NewCode(form, detected).value))
                && outcome == Saved(SavedStore())
    {
      var code := NewCode(form, detected);
      if code.None? {
        outcome := Alert(LANGUAGE_ALERT);
        return;
      }
      var saved := Push(code.value);
      outcome := Saved(saved);
    }

    /** The loop over the slide objects, assigning in place, then the current slide's colour. */
    method ChangeBackground(defaultColor: string, color: string) returns (saved: Collection)
      requires Valid()
      modifies currPres.slides
      ensures Valid()
      ensures Current() == old(Current()).(slides := SlideList.ChangeBackground(old(Current().slides), slideNumber, defaultColor, color))
      ensures saved == SavedStore()
    {
      var ss := currPres.slides;
      ghost var before := SlideValues(ss);
      var i := 0;
      while i < |ss|
        invariant 0 <= i <= |ss|
        invariant forall j :: 0 <= j < i ==> ss[j].Value() == Materialise(before[j], defaultColor)
        invariant forall j :: i <= j < |ss| ==> ss[j].Value() == before[j]
      {
        if ss[i].background == DEFAULT_BACKGROUND {
          ss[i].background := defaultColor;
        }
        i := i + 1;
      }
      assert SlideValues(ss) == Backfill(before, defaultColor);
      ss[slideNumber].background := color;
      assert SlideValues(ss) == SlideList.ChangeBackground(before, slideNumber, defaultColor, color);
      saved := SavedStore();
    }
  }
}
