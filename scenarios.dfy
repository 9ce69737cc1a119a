/**
 * The end-to-end walk the browser tests take, replayed against the model:
 * create a presentation, open it, add text, add a slide, step forward and
 * back, delete a slide, delete the presentation.
 *
 * `CreateAndOpen`, `EditFlow`, `DeleteFlow` and `CreateThenDelete` state
 * nothing of their own: their asserts are usage examples of the contracts
 * of the operations they call. The members with `ensures` clauses below
 * carry the findings about the source, each with its corrected half.
 */
module Scenarios {
  import opened Wrappers
  import opened Js
  import opened Document
  import opened Store
  import opened Navigator
  import opened SlideList
  import opened Elements
  import opened PresentationPage
  import opened DashboardPage
  import opened PreviewPage
  import SlidePage

  /** A new presentation has one empty default slide, and its card opens it at slide 0. */
  method CreateAndOpen() {
    var dashboard := new Dashboard(map[]);
    assert Contiguous(dashboard.store);
    var id, saved := dashboard.CreatePresentation("Demo", "d");
    assert id == 1 && Id(1) in saved;

    var first := SlideSegment(0);
    SegmentRoundTrip(0);
    var editor := new Editor(saved, 1, first);
    assert editor.slideNumber == 0 && editor.Current().slides == [NewSlide()];
  }

  /** Adding text, adding a slide, and stepping forward and back. */
  method EditFlow() {
    var editor := OpenDemo();
    assert editor.currPres.slides[0] in editor.currPres.slides;
    var saved := editor.AddText(TextForm("hi", "1", 30.0, 30.0, "#ff0000"));
    assert |editor.Current().slides| == 1 && |editor.Current().slides[0].obj| == 1;
    assert editor.Current().slides[0].obj[0].content.Text? && AtOrigin(editor.Current().slides[0].obj[0]);

    saved := editor.AddSlide();
    assert |editor.Current().slides| == 2 && IsLast(1, 2) && !IsLast(0, 2);

    var nav := editor.GoForwardSlide();
    assert editor.slideNumber == 1 && nav == Some(EditorRoute(1, SlideSegment(1)));
    nav := editor.GoBackSlide();
    assert editor.slideNumber == 0;
  }

  /** Deleting slide 0 of two leaves the former slide 1, which is then both first and last;
      deleting the only slide is refused. */
  method DeleteFlow(first: Slide, second: Slide) {
    var editor := OpenTwoSlides(first, second);
    assert SlideList.DeleteSlide([first, second], 0) == Deleted([second], 0) by {
      DeleteSlideEffect([first, second], 0);
      assert [first, second][1..] == [second];
    }
    var outcome := editor.DeleteSlide();
    assert editor.Current().slides == [second] && editor.slideNumber == 0;
    assert IsFirst(editor.slideNumber) && IsLast(editor.slideNumber, |editor.Current().slides|);

    outcome := editor.DeleteSlide();
    assert outcome == Alert(ONLY_SLIDE_ALERT) && editor.Current().slides == [second];
  }

  /** Opens a two-slide presentation stored under id 1 at its first slide. */
  method OpenTwoSlides(first: Slide, second: Slide) returns (editor: Editor)
    ensures fresh(editor) && editor.Valid() && editor.key == 1 && editor.slideNumber == 0
    ensures editor.Current().slides == [first, second]
  {
    var firstAddress := SlideSegment(0);
    SegmentRoundTrip(0);
    editor := new Editor(map[Id(1) := Presentation("Demo", PLACEHOLDER_THUMBNAIL, "d", [first, second])], 1, firstAddress);
  }

  /** Creating the first presentation and deleting it again leaves an empty collection. */
  method CreateThenDelete() {
    var dashboard := new Dashboard(map[]);
    assert Contiguous(dashboard.store);
    var id, saved := dashboard.CreatePresentation("My Presentation", "This is a test presentation");
    assert Contiguous(saved) && |saved| == 1;

    var first := SlideSegment(0);
    SegmentRoundTrip(0);
    var editor := new Editor(saved, 1, first);
    var afterDelete, route := editor.HandleDelete();
    assert |afterDelete| == 0 && route == DashboardRoute;
  }

  /** Opens the one-slide presentation stored under id 1 at its first slide. */
  method OpenDemo() returns (editor: Editor)
    ensures fresh(editor) && editor.Valid() && editor.key == 1 && editor.slideNumber == 0
    ensures fresh(editor.currPres) && forall s :: s in editor.currPres.slides ==> fresh(s)
    ensures editor.store == map[Id(1) := NewPresentation("Demo", "d")]
    ensures editor.currPres == editor.loaded && editor.Current() == NewPresentation("Demo", "d")
    ensures editor.Data() == editor.store
  {
    var firstAddress := SlideSegment(0);
    SegmentRoundTrip(0);
    editor := new Editor(map[Id(1) := NewPresentation("Demo", "d")], 1, firstAddress);
  }

  /** Opens the one-slide presentation and adds a slide: the object shown is then a copy
      with two slides, while the fetched collection still holds the object as loaded. */
  method OpenAndAddSlide() returns (editor: Editor)
    ensures fresh(editor) && fresh(editor.currPres) && editor.Valid() && editor.key == 1
    ensures editor.store == map[Id(1) := NewPresentation("Demo", "d")]
    ensures editor.Current().presName == "Demo" && |editor.Current().slides| == 2
    ensures editor.currPres != editor.loaded && editor.Data() == editor.store
  {
    editor := OpenDemo();
    ghost var data := editor.Data();
    ghost var shown := editor.Current();
    var added := editor.AddSlide();
    assert editor.Data() == data;
    assert editor.currPres != editor.loaded;
    assert editor.Current().presName == shown.presName;
    assert |editor.Current().slides| == |shown.slides| + 1;
  }

  /** Adding a slide replaces the object shown by a copy; a rename after that changes
      the copy and saves the fetched collection, so the saved presentation has its old
      name and has lost the added slide. */
  method RenameAfterAddSlide() returns (saved: Collection)
    ensures Id(1) in saved && saved[Id(1)].presName == "Demo" && |saved[Id(1)].slides| == 1
  {
    var editor := OpenAndAddSlide();
    saved := editor.HandleEdit("Renamed");
  }

  /** The same steps with the rename saved the way the other handlers save: the saved
      presentation has the new name and both slides. */
  method RenameAfterAddSlideSavingShown() returns (saved: Collection)
    ensures Id(1) in saved && saved[Id(1)].presName == "Renamed" && |saved[Id(1)].slides| == 2
    ensures Contiguous(saved)
  {
    var editor := OpenAndAddSlide();
    var shown := editor.Current();
    assert Contiguous(editor.store) by {
      assert editor.store.Keys == {Id(1)} == KeyRange(1);
    }
    saved := editor.HandleEditSavingShown("Renamed");
    SaveUnderExistingId(editor.store, 1, shown.(presName := "Renamed"));
  }

  /** Opens the preview of a two-slide presentation stored under id 1, at its first slide,
      from the editor's address, which carries `?presId=1`. */
  method OpenPreview(first: Slide, second: Slide) returns (preview: PreviewSession)
    ensures fresh(preview) && preview.Valid() && preview.key == 1 && preview.presId == Some(1)
    ensures preview.store == map[Id(1) := Presentation("Demo", PLACEHOLDER_THUMBNAIL, "d", [first, second])]
    ensures Contiguous(preview.store)
    ensures preview.currPres == Presentation("Demo", PLACEHOLDER_THUMBNAIL, "d", [first, second])
    ensures preview.slideNumber == 0
  {
    var store: Collection := map[Id(1) := Presentation("Demo", PLACEHOLDER_THUMBNAIL, "d", [first, second])];
    assert Contiguous(store) by {
      assert store.Keys == {Id(1)} == KeyRange(1);
    }
    var firstAddress := SlideSegment(0);
    SegmentRoundTrip(0);
    preview := new PreviewSession(store, 1, Some(1), firstAddress);
  }

  /** In the preview, a move drops the `presId` query; deleting an element afterwards saves
      the presentation under `"null"`: the stored presentation is unchanged and the ids are
      no longer `1..n`. */
  method PreviewDeleteAfterMove(first: Slide, second: Slide) returns (saved: Collection)
    requires |second.obj| > 0
    ensures NullKey in saved && !Contiguous(saved)
    ensures Id(1) in saved && saved[Id(1)] == Presentation("Demo", PLACEHOLDER_THUMBNAIL, "d", [first, second])
  {
    var preview := OpenPreview(first, second);
    var demo := preview.currPres;
    var store := preview.store;
    var nav := preview.GoForwardSlide();
    var view := preview.RenderSlide();
    saved := view.HandleDelete(0);
    SaveUnderNullKey(store, view.currPres);
  }

  /** The same steps with the query carried into the new address: the delete reaches the
      stored presentation and the ids stay `1..n`. */
  method PreviewDeleteAfterMoveKeepingQuery(first: Slide, second: Slide) returns (saved: Collection)
    requires |second.obj| > 0
    ensures Contiguous(saved) && |saved| == 1
    ensures Id(1) in saved && saved[Id(1)].slides == [first, second.(obj := second.obj[1..])]
  {
    var preview := OpenPreview(first, second);
    var demo := preview.currPres;
    var store := preview.store;
    var nav := preview.GoForwardSlideKeepingQuery();
    var view := preview.RenderSlide();
    var expected := demo.(slides := [first, second.(obj := second.obj[1..])]);
    RemoveFirstOfSecond(first, second);
    saved := view.HandleDelete(0);
    assert saved == store[Id(1) := expected];
    SaveUnderExistingId(store, 1, expected);
  }

  /** In the preview, two element deletes on the same slide: the page takes the first
      delete's presentation through its setter, so the second save holds both. */
  method PreviewDeleteTwice(first: Slide, second: Slide) returns (saved: Collection)
    requires |first.obj| >= 2
    ensures Contiguous(saved) && |saved| == 1
    ensures Id(1) in saved && saved[Id(1)].slides == [first.(obj := first.obj[2..]), second]
  {
    var preview := OpenPreview(first, second);
    var demo := preview.currPres;
    var store := preview.store;
    var once := first.(obj := first.obj[1..]);
    RemoveFirstElement([first, second], 0);
    var view := preview.RenderSlide();
    saved := view.HandleDelete(0);
    assert view.currPres == demo.(slides := [once, second]);
    preview.SetCurrPres(view.currPres);
    var view2 := preview.RenderSlide();
    RemoveFirstElement([once, second], 0);
    assert once.obj[1..] == first.obj[2..];
    var expected := demo.(slides := [first.(obj := first.obj[2..]), second]);
    assert [once, second][0 := once.(obj := once.obj[1..])] == expected.slides;
    assert view2.presId == Some(1) && view2.store == store;
    saved := view2.HandleDelete(0);
    assert view2.currPres == expected;
    assert saved == store[Id(1) := expected];
    SaveUnderExistingId(store, 1, expected);
  }

  /** Deleting element 0 of a slide leaves that slide's later elements. */
  lemma RemoveFirstElement(slides: seq<Slide>, n: nat)
    requires n < |slides| && |slides[n].obj| > 0
    ensures SlidePage.RemoveElement(slides, n, 0) == slides[n := slides[n].(obj := slides[n].obj[1..])]
  {
    SpliceOneAt(slides[n].obj, 0);
    assert slides[n].obj[..0] + slides[n].obj[1..] == slides[n].obj[1..];
  }

  /** Deleting element 0 of slide 1 of two leaves that slide's later elements. */
  lemma RemoveFirstOfSecond(first: Slide, second: Slide)
    requires |second.obj| > 0
    ensures SlidePage.RemoveElement([first, second], 1, 0) == [first, second.(obj := second.obj[1..])]
  {
    var rest := SpliceOne(second.obj, 0);
    assert SpliceStart(|second.obj|, 0) == 0;
    assert rest == second.obj[1..];
  }
}
