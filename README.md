# SlideCraft editing logic in Dafny

SlideCraft is a browser slide editor. A user owns a **collection** of
presentations keyed by ids `1..n`. Each presentation has a name, a
description, a thumbnail and a list of **slides**. Each slide has a
background (the sentinel `'default'` or a colour) and an ordered list of
**elements**: text, image, video or code boxes placed by percentage size and
pixel position. The pages are:

- the dashboard, which lists the collection and creates presentations;
- the editor, which renames or deletes a presentation, moves between slides,
  adds and deletes slides, adds elements and changes backgrounds;
- the slide component, which draws one slide and lets the user drag, resize,
  re-font and delete its elements;
- the preview, which shows one slide at a time.

This project models that editing logic as Dafny values and classes and proves
what each operation does to the collection. Every save hands the whole new
collection to the store. That value is what the modelled handlers return.

The editor works on objects. The presentation it shows starts as the very
object of the fetched collection. Adding or deleting a slide replaces it by a
new object that lists the same slide objects. The element forms and the
background change update slide objects in place, so the fetched collection
sees those changes for the slide objects it already lists. A slide added
after loading is a fresh object that only the shown presentation lists, so
the fetched collection never sees it or any change made to it. The editor's `Editor` class keeps these objects
(`PresObj`, `SlideObj`).

A collection's keys are the ids `1..n`, written `Id(k)`, plus the property
`"null"` (`NullKey`), which a computed key `[presId]` names when `presId` is
null.

Modules:

| module | file | contents |
|---|---|---|
| `Wrappers` | wrappers.dfy | `Option` |
| `Js` | js.dfy | `splice(start, 1)` with negative and clamped starts, the decimal text of a template literal, `parseInt(s, 10)` |
| `Document` | document.dfy | collection, presentation, slide and element datatypes; the page routes |
| `Store` | store.dfy | contiguous ids `1..n`; `Object.values` and the re-keying `reduce`, proved inverse |
| `Navigator` | navigator.dfy | the back/forward state machine shared by editor and preview; first/last flags; arrow visibility; the 1-based slide segment of the address |
| `SlideList` | slide_list.dfy | adding and deleting slides, the background change, appending an element |
| `Elements` | elements.dfy | the four "add element" forms and the element each builds; the image MIME whitelist; the code-language whitelist |
| `PresentationPage` | presentation_page.dfy | the editor page as class `Editor` |
| `SlidePage` | slide_page.dfy | background choice, percent/pixel arithmetic, stacking order, element gestures, class `SlideView` |
| `PreviewPage` | preview_page.dfy | the preview page as class `PreviewSession` |
| `DashboardPage` | dashboard_page.dfy | card summaries, card links, class `Dashboard` with presentation creation |
| `Scenarios` | scenarios.dfy | the end-to-end user flow (create, open, edit, add and delete slides, delete) composed from the above, and the flows behind the findings |

Numbers in the source are IEEE doubles. Here sizes and positions are exact
`real`s, and slide indices and ids are unbounded integers.

## Model

| member | source | states |
|---|---|---|
| Js.SpliceStart | frontend/src/components/Presentation.jsx:67 | the index `splice(start, 1)` acts on: `start` when inside the array, `len + start` for a negative start, always within `0..len` |
| Js.SpliceOne | frontend/src/components/Presentation.jsx:154-155 | a copy after `splice(start, 1)`: one element shorter exactly when the start lands on an element; elements before that position are kept and later ones shift down by one |
| Js.SpliceOneAt | frontend/src/components/Slide.jsx:73-74 | with an index inside the array, `splice(i, 1)` leaves exactly `s[..i] + s[i+1..]` |
| Js.NatToString | frontend/src/components/Presentation.jsx:100 | the text written for a slide number is a non-empty string of decimal digits, at least two of them from 10 on, with no leading zero except for 0 itself |
| Js.DigitsValueOfNatToString | frontend/src/components/Presentation.jsx:114 | the decimal text of `n` has value `n` |
| Js.ParseIntOfNatToString | frontend/src/components/Presentation.jsx:17 | `parseInt` reads back the number a template literal wrote: `ParseInt(NatToString(n)) == Some(n)` |
| Js.ParseInt | frontend/src/components/Presentation.jsx:17 | `parseInt(s, 10)` gives a number exactly when a digit follows the leading white space and optional sign; the number is not positive after a `-` and not negative otherwise |
| Js.ParseIntNaN | frontend/src/components/Preview.jsx:14 | a segment that does not start with white space, a sign or a digit reads as `NaN` |
| Store.KeyRange | frontend/src/components/Presentation.jsx:69-72 | the id set `1..n`: exactly the integers from 1 to `n`, `n` of them |
| Store.Values | frontend/src/components/Presentation.jsx:64 | `Object.values` of a contiguous collection: one entry per id, the entry at position `i` being the presentation with id `i + 1` |
| Store.Rebuild | frontend/src/components/Presentation.jsx:69-72 | the `reduce` keys a list from 1: the result is contiguous, as large as the list, and id `k` holds element `k - 1` |
| Store.RebuildWithout | frontend/src/components/Presentation.jsx:64-72 | re-keying a list with element `i` spliced out: ids `1..i` keep the first `i` elements, every later id `j` holds element `j`, and the ids are exactly `1..n-1` |
| Store.RebuildValuesAt | frontend/src/components/Presentation.jsx:64-72 | re-keying the values of a contiguous collection puts each presentation back under its own id |
| Store.RebuildValues | frontend/src/components/Presentation.jsx:64-72 | re-keying the values of a contiguous collection gives it back unchanged |
| Store.ValuesRebuild | frontend/src/components/Presentation.jsx:64-72 | the values of a re-keyed list are that list |
| Store.SaveUnderNullKey | frontend/src/components/Slide.jsx:84 | saving with a null `presId` adds the `"null"` property: the collection is no longer keyed `1..n`, every id keeps its entry, and id `n + 1` is free although the collection has `n + 1` keys |
| Store.SaveUnderExistingId | frontend/src/components/Slide.jsx:84 | saving under an id already stored keeps the ids `1..n` and replaces only that entry |
| Document.PropertyKey | frontend/src/components/Slide.jsx:84 | the property a computed key `[presId]` names: the id when there is one, `"null"` exactly when `presId` is null |
| Store.InsertNextKeepsContiguous | frontend/src/components/Dashboard.jsx:48-60 | storing under `size + 1` in a contiguous collection keeps it contiguous, grows it by one, and leaves every existing entry where it was |
| PresentationPage.DeletePresentation | frontend/src/components/Presentation.jsx:63-72 | deleting a presentation from a contiguous collection leaves a contiguous collection |
| PresentationPage.DeletePresentationRenumbers | frontend/src/components/Presentation.jsx:63-72 | deleting id `key` of `1..n` leaves ids exactly `1..n-1`; ids below `key` keep their presentation; the one formerly at `j + 1` now sits at `j` |
| PresentationPage.DeleteKeepsBelow | frontend/src/components/Presentation.jsx:66-72 | an id below the deleted one keeps its presentation |
| PresentationPage.DeleteShiftsAbove | frontend/src/components/Presentation.jsx:66-72 | an id from the deleted one on holds the presentation of the next id |
| PresentationPage.SlideObj.constructor | frontend/src/components/Presentation.jsx:56 | a slide object holds the slide's background and elements |
| PresentationPage.SlideValues | frontend/src/components/Presentation.jsx:323 | the slides a list of slide objects holds now, one per object, in order |
| PresentationPage.SpliceSlideObjs | frontend/src/components/Presentation.jsx:154-155 | splicing a list of distinct slide objects keeps them distinct, and the slides they hold are the splice of the slides held before |
| PresentationPage.PresObj.constructor | frontend/src/components/Presentation.jsx:56 | a presentation object holds the name, thumbnail, description and slide objects given |
| PresentationPage.LoadSlides | frontend/src/components/Presentation.jsx:56 | the fetched slides become distinct new slide objects holding exactly those slides |
| PresentationPage.Editor.constructor | frontend/src/components/Presentation.jsx:17 | the editor opens the presentation stored under `key`, at index `parseInt(slide, 10) - 1`; the object shown is the fetched object itself |
| PresentationPage.Editor.HandleDelete | frontend/src/components/Presentation.jsx:63-77 | the saved collection is the re-keyed splice of `data.store` as it is now (the fetched collection with every in-place change made through the fetched objects), contiguous, one smaller when `key` is a stored id, and the page goes to the dashboard |
| PresentationPage.Editor.HandleEdit | frontend/src/components/Presentation.jsx:82-91 | the object shown is renamed and `data` is saved: while that object is the fetched one the save carries the rename and every other change shown; once a copy has replaced it the save is `data` unchanged |
| PresentationPage.Editor.HandleEditSavingShown | frontend/src/components/Presentation.jsx:82-91 | the rename saved as the other handlers save, `{ ...data.store, [key]: currPres }`: the saved entry is the shown presentation with the new name |
| PresentationPage.Editor.GoBackSlide | frontend/src/components/Presentation.jsx:96-105 | the index takes one step back unless it is 0; on a move the address becomes the new index + 1; the index stays on a slide |
| PresentationPage.Editor.GoForwardSlide | frontend/src/components/Presentation.jsx:110-119 | the index takes one step forward unless it is the last; on a move the address becomes the new index + 1; the index stays on a slide |
| PresentationPage.FlagsAfterMoves | frontend/src/components/Presentation.jsx:29-119 | the first/last flags of the render (lines 29-30: `slideNumber === 0`, `slideNumber === length - 1`) agree after a move with the arrow handlers' assignments to their local `firstSlide`/`lastSlide` |
| PresentationPage.Editor.AddSlide | frontend/src/components/Presentation.jsx:124-131 | the slides become `AddSlide` of the old ones and the collection is saved; the object shown is a new one listing the old slide objects and one new slide object; the current index stays valid |
| PresentationPage.Editor.DeleteSlide | frontend/src/components/Presentation.jsx:150-172 | with one slide: the alert, and nothing changes; otherwise the slides and the index become what `SlideList.DeleteSlide` gives, and the collection is saved |
| PresentationPage.Editor.Push | frontend/src/components/Presentation.jsx:193 | the element is pushed onto the current slide object in place, the slides become `PushElement` of the old ones, and the collection is saved |
| PresentationPage.Editor.AddText | frontend/src/components/Presentation.jsx:177-197 | the text element built from the form is pushed onto the current slide, and the collection is saved |
| PresentationPage.Editor.AddImage | frontend/src/components/Presentation.jsx:202-247 | neither or both sources: the alert, and the slides do not change; otherwise the image element is pushed onto the current slide and the collection is saved |
| PresentationPage.Editor.AddVideo | frontend/src/components/Presentation.jsx:252-273 | the video element built from the form is pushed onto the current slide, and the collection is saved |
| PresentationPage.Editor.AddCode | frontend/src/components/Presentation.jsx:278-314 | a detector label other than C, JavaScript or Python: the alert, and the slides do not change; otherwise the code element is pushed and the collection is saved |
| PresentationPage.Editor.ChangeBackground | frontend/src/components/Presentation.jsx:320-333 | the in-place loop over the slides followed by the current-slide assignment leaves exactly `SlideList.ChangeBackground` of the old slides, and the collection is saved |
| SlideList.AddSlide | frontend/src/components/Presentation.jsx:124-126 | one more slide; the earlier slides are unchanged; the new last slide is `{background: 'default', obj: []}` |
| SlideList.DeleteSlide | frontend/src/components/Presentation.jsx:150-171 | refused exactly when there is one slide; otherwise the slides are the splice at the current index |
| SlideList.DeleteSlideEffect | frontend/src/components/Presentation.jsx:151-170 | with more than one slide, exactly the current slide goes and the rest keep their order; the new index is `len-2` if the last slide went, 0 if slide 0 went, the old index − 1 otherwise; it is always on a slide |
| SlideList.AddThenDeleteLast | frontend/src/components/Presentation.jsx:124-171 | adding a slide and deleting it while current gives the old slides back, with the old last slide current |
| SlideList.ChangeBackground | frontend/src/components/Presentation.jsx:323-328 | the background change keeps the number of slides and every slide's elements and gives the current slide `color` |
| SlideList.Materialise | frontend/src/components/Presentation.jsx:324-326 | the backfill of one slide keeps its elements and touches only a `'default'` background |
| SlideList.Backfill | frontend/src/components/Presentation.jsx:323-327 | every slide is backfilled, position by position |
| SlideList.ChangeBackgroundEffect | frontend/src/components/Presentation.jsx:323-328 | after the change the current slide has `color`, every other `'default'` slide has `defaultColor`, every other slide keeps its colour, and no slide's elements change |
| SlideList.BackfillIdempotent | frontend/src/components/Presentation.jsx:323-327 | backfilling twice is backfilling once |
| SlideList.ChangeBackgroundIdempotent | frontend/src/components/Presentation.jsx:323-328 | changing the background twice with the same colours gives the same slides as once |
| SlideList.SlideAddedAfterBackfillIsDefault | frontend/src/components/Presentation.jsx:125 | a slide added after a background change is on `'default'` again: the backfill does not persist a presentation-wide default |
| SlideList.PushElement | frontend/src/components/Presentation.jsx:193 | the element is appended at the end of the current slide's list; that slide's background, the earlier elements and every other slide are unchanged |
| Elements.NewText | frontend/src/components/Presentation.jsx:181-191 | a text element at (0, 0) with the form's text, size, colour and box, in font Arial |
| Elements.FileToDataUrl | frontend/src/components/Helpers.jsx:100-106 | an upload gives its data URL exactly when its type is image/jpeg, image/png or image/jpg; any other file gives null |
| Elements.NewImage | frontend/src/components/Presentation.jsx:206-246 | an element exists exactly when one of upload and URL is given; it sits at (0, 0) with the form's box and description; its image is the upload's data URL, or the URL |
| Elements.NewVideo | frontend/src/components/Presentation.jsx:255-267 | a video element at (0, 0) with the form's link and box; autoplay is on exactly when the switch's value is not null |
| Elements.LanguageFor | frontend/src/components/Presentation.jsx:282-297 | a detector label is accepted exactly when it is C, JavaScript or Python, and maps to c, javascript or python |
| Elements.NewCode | frontend/src/components/Presentation.jsx:299-308 | a code element exists exactly when the label is accepted; it sits at (0, 0) with the form's code, size and box and the mapped language |
| Navigator.InitialIndex | frontend/src/components/Preview.jsx:14 | the initial index is a number exactly when `parseInt` reads one from the segment, and is that number minus one |
| Navigator.Back | frontend/src/components/Preview.jsx:39-48 | back is a no-op exactly at index 0, otherwise one step down, and never leaves `0..index` |
| Navigator.Forward | frontend/src/components/Preview.jsx:54-63 | forward is a no-op exactly at `len - 1`, otherwise one step up, and never leaves the slides |
| Navigator.ArrowsMatchMoves | frontend/src/components/Preview.jsx:24-87 | on a slide, the back arrow (its style at line 69) shows exactly when back would move and the forward arrow (line 87) exactly when forward would, with the flags `slideNumber === 0` and `slideNumber === length - 1` of lines 24-25; with two or more slides at least one shows |
| Navigator.RunStaysInBounds | frontend/src/components/Preview.jsx:39-63 | any sequence of presses started on a slide stays on a slide and moves at most one slide per press |
| Navigator.ForwardThenBack | frontend/src/components/Presentation.jsx:96-119 | forward then back returns to the start, away from the last slide |
| Navigator.SlideSegment | frontend/src/components/Preview.jsx:43 | the slide segment of the address is decimal digits |
| Navigator.SegmentRoundTrip | frontend/src/components/Presentation.jsx:17 | the segment written for index `i` reads back as index `i` |
| Navigator.FirstSegmentIsFirstSlide | frontend/src/components/Dashboard.jsx:87 | segment "1" opens index 0 |
| SlidePage.DisplayedBackground | frontend/src/components/Slide.jsx:22-23 | white for a `'default'` slide, the stored colour otherwise; never the sentinel |
| SlidePage.ToPercent | frontend/src/components/Slide.jsx:108 | the stored percentage is the one whose share of the slide's pixel size is the box's pixel size |
| SlidePage.ToPixels | frontend/src/components/Slide.jsx:178 | the rendered pixel size is the stored percentage's share of the slide's pixel size |
| SlidePage.PixelsOfPercent | frontend/src/components/Slide.jsx:178 | rendering a percentage stored by a resize gives back the pixel size of the gesture, on a slide of positive size |
| SlidePage.PercentOfPixels | frontend/src/components/Slide.jsx:108 | storing a rendered pixel size as a percentage gives back the stored percentage |
| SlidePage.ZIndex | frontend/src/components/Slide.jsx:183 | every element stacks at level 1 or above |
| SlidePage.LaterElementsAbove | frontend/src/components/Slide.jsx:183 | a later element stacks strictly above an earlier one |
| SlidePage.Drag | frontend/src/components/Slide.jsx:93-95 | a drag sets the position and nothing else of the element |
| SlidePage.DragBack | frontend/src/components/Slide.jsx:93-95 | dragging back to the old position restores the element |
| SlidePage.Resize | frontend/src/components/Slide.jsx:107-111 | a resize sets the size to the gesture's size as percentages of the slide's, sets the position, and keeps the content and font |
| SlidePage.ResizeRendersAtGestureSize | frontend/src/components/Slide.jsx:108-111 | a resized element renders at the pixel size the gesture left it |
| SlidePage.SetFont | frontend/src/components/Slide.jsx:142-143 | a font change sets the font of any kind of element and nothing else |
| SlidePage.RenderedFont | frontend/src/components/Slide.jsx:182 | a text element is drawn in its font property; any other kind of element does not use it |
| SlidePage.SetFontRendering | frontend/src/components/Slide.jsx:182 | the new font shows on a text element; on other kinds the drawing does not change |
| SlidePage.WriteBack | frontend/src/components/Slide.jsx:120-129 | the element is written at `index` of the current slide; the list length, the other elements, the background and every other slide are unchanged |
| SlidePage.RemoveElement | frontend/src/components/Slide.jsx:71-79 | the current slide's list becomes its splice at `index`; every other slide is unchanged |
| SlidePage.RemoveElementEffect | frontend/src/components/Slide.jsx:73-74 | with an index on an element, exactly that element goes and the rest keep their order |
| SlidePage.DeleteLastUndoesAdd | frontend/src/components/Slide.jsx:71-79 | deleting the element just pushed gives the old slides back |
| SlidePage.SlideView.constructor | frontend/src/components/Slide.jsx:37-39 | the local element list starts as the current slide's list |
| SlidePage.SlideView.SavedStore | frontend/src/components/Slide.jsx:84 | the saved collection holds the presentation under the property `presId` names (`"null"` when it is null) and every other entry as loaded |
| SlidePage.SlideView.HandleDelete | frontend/src/components/Slide.jsx:67-85 | the presentation becomes `RemoveElement` of the old one, the local list follows it, and the collection is saved under the property `presId` names |
| SlidePage.SlideView.HandleDrag | frontend/src/components/Slide.jsx:90-99 | outside preview, the element at `index` is replaced by its drag and written back; the collection is saved |
| SlidePage.SlideView.HandleResize | frontend/src/components/Slide.jsx:104-115 | outside preview, the element at `index` is replaced by its resize and written back; the collection is saved |
| SlidePage.SlideView.HandleFontSubmit | frontend/src/components/Slide.jsx:138-147 | the element at `index` is replaced by its font change and written back; the collection is saved |
| SlidePage.SlideView.UpdatePresentation | frontend/src/components/Slide.jsx:120-133 | the local element at `index` is written into the presentation with `WriteBack`, after which the local list and the slide agree again; the collection is saved |
| PreviewPage.PreviewSession.constructor | frontend/src/components/Preview.jsx:14 | the preview opens the presentation stored under the property the address's `presId` names, at index `parseInt(slide, 10) - 1` |
| PreviewPage.PreviewSession.GoBackSlide | frontend/src/components/Preview.jsx:39-48 | one step back unless at 0, with the address `preview/{new index + 1}` and no query, after which the page's `presId` is null; the index stays on a slide |
| PreviewPage.PreviewSession.GoBackSlideKeepingQuery | frontend/src/components/Preview.jsx:39-48 | the same move with the query kept: the address carries the page's `presId`, which does not change |
| PreviewPage.PreviewSession.GoForwardSlide | frontend/src/components/Preview.jsx:54-63 | one step forward unless at the last slide, with the address `preview/{new index + 1}` and no query, after which the page's `presId` is null; the index stays on a slide |
| PreviewPage.PreviewSession.GoForwardSlideKeepingQuery | frontend/src/components/Preview.jsx:54-63 | the same move with the query kept: the address carries the page's `presId`, which does not change |
| PreviewPage.PreviewSession.SetCurrPres | frontend/src/components/Preview.jsx:15 | the setter handed to the slide component: the page's presentation becomes the slide's, and the page stays on a slide exactly when the new presentation has that slide |
| PreviewPage.PreviewSession.RenderSlide | frontend/src/components/Preview.jsx:76-83 | the slide is drawn for the current index in preview mode, which rules out drag and resize, from the page's current presentation, and is told to save under the page's current `presId` |
| DashboardPage.NewPresentation | frontend/src/components/Dashboard.jsx:49-58 | the new presentation has the given name and description, the placeholder thumbnail, and one `'default'` slide with no elements |
| DashboardPage.Summarise | frontend/src/components/Dashboard.jsx:23-28 | a card shows the presentation's slide count |
| DashboardPage.Summaries | frontend/src/components/Dashboard.jsx:23-28 | one card per stored presentation, in id order |
| DashboardPage.CardRoute | frontend/src/components/Dashboard.jsx:87 | the card at position `i` links to the editor for id `i + 1` at its first slide |
| DashboardPage.CardOpensItsPresentation | frontend/src/components/Dashboard.jsx:86-88 | the card at position `i` links to id `i + 1`, which holds the presentation it summarises, at its first slide |
| DashboardPage.Dashboard.CreatePresentation | frontend/src/components/Dashboard.jsx:39-65 | the new id is the number of stored ids + 1 and the new presentation is stored there; on a contiguous collection the ids become `1..n+1` and no existing entry changes |
| DashboardPage.FirstPresentationIsCardOne | frontend/src/components/Dashboard.jsx:48-60 | the first presentation created on an empty collection is card 1, reached at `/presentation/1/1` |
| DashboardPage.CreateAfterNullKey | frontend/src/components/Dashboard.jsx:48 | with a `"null"` entry beside ids `1..n` the next presentation gets id `n + 2`; id `n + 1` stays free and the ids are no longer `1..n+1` |
| Scenarios.RenameAfterAddSlide | frontend/src/components/Presentation.jsx:82-91 | adding a slide and then renaming saves the presentation with its old name and without the added slide |
| Scenarios.RenameAfterAddSlideSavingShown | frontend/src/components/Presentation.jsx:82-91 | with the rename saving the shown presentation, the save has the new name and both slides, and the ids stay `1..n` |
| Scenarios.PreviewDeleteAfterMove | frontend/src/components/Preview.jsx:18-20 | in the preview, an element delete after a move saves under `"null"`: the stored presentation is unchanged and the ids are no longer `1..n` |
| Scenarios.PreviewDeleteAfterMoveKeepingQuery | frontend/src/components/Preview.jsx:18-20 | with the query kept by the move, the delete reaches the stored presentation and the ids stay `1..n` |
| Scenarios.PreviewDeleteTwice | frontend/src/components/Preview.jsx:76-83 | two element deletes on one slide in the preview: the page takes the first delete's presentation through its setter, so the second save holds both deletes and the ids stay `1..n` |

## Left out

- The store's fetch calls (`getStore`, `setStore`), authentication, routing and page chrome are network I/O. A save is modelled as the collection value handed to `setStore`. A navigation is modelled as the route returned.
- `fileToDataUrl` reads the file asynchronously. The model keeps only the MIME whitelist and takes the reader's data URL as part of the `File` value. The order in which the asynchronous image save lands relative to other saves is not modelled.
- The language detector is a foreign library. Its label is a parameter `detected` of `AddCode` and `NewCode`.
- Sizes, positions and the percent/pixel arithmetic are exact reals, not IEEE doubles, so nothing is said about rounding. Form fields for width and height are taken as numbers, although the source stores the form's strings and later multiplies or divides them.
- `ToPercent` (and `Resize`, `HandleResize`) require a slide of positive pixel size. A zero-sized slide would give `Infinity` or `NaN` in the source.
- `changeThumbnail` and `openPreview` (JSON in the address, `window.open`) are not modelled. The preview reloads the presentation from the store by `presId` and never reads the `pres` parameter.
- PresentationPage.Editor.HandleEdit: covers any object shown, but the model's `Editor` replaces that object only through its own slide handlers. In the source the slide component's `setCurrPres` is the editor's setter (Presentation.jsx:695). So a drag, resize, font change or element delete on the slide also replaces the object shown by a copy (Slide.jsx:78-83, 128-131). After that a rename is saved as `data`, as after adding a slide. The model does not connect `SlideView` back to `Editor`.
- SlidePage.SlideView: the slide component's copy `{ ...currPres }` shares the slides array with the presentation it copies. So `newPres.slides[slideNumber] = ...` also changes that presentation's array, and the fetched object's array when they are the same. The model writes slides by value and does not capture that sharing.
- SlidePage.SlideView.HandleDrag: the source assigns through a shallow copy of the element list, so the element object shared with the loaded presentation is changed in place as well. The model replaces the element by value and does not capture that sharing.
- SlidePage.SlideView.HandleResize and SlidePage.SlideView.HandleFontSubmit: the same sharing as the drag is not captured.
- PresentationPage.Editor.constructor and PreviewPage.PreviewSession.constructor: require the address segment to name a slide of the presentation. With a segment that reads as `NaN` or names no slide, the source fails while rendering, and the model does not cover that path. The preview likewise requires an entry under the property its `presId` names; without one the source reads `undefined`.
- Js.ParseInt: skips only ASCII white space. JavaScript also skips the other Unicode white space and line terminators.
- The dashboard's `empty` flag, modal state, fade-in timers, click-outside and keyboard listeners are UI state, not editing logic. The keyboard arrows call the same handlers as the buttons.
- The local reassignments of `firstSlide` and `lastSlide` inside the handlers are recomputed on the next render. The flags are modelled as predicates on the index (`Navigator.IsFirst`, `Navigator.IsLast`).
- React's batching of state updates and concurrent saves from two pages (lost updates) are not modelled.
- Store.Values, DashboardPage.Summaries, PresentationPage.DeletePresentation and PresentationPage.Editor.HandleDelete: require a contiguous collection. Creating and deleting presentations keep it contiguous, but an element delete in the preview after a slide move adds the `"null"` property (see Findings). The model does not describe `Object.values` on a collection with that property or with gaps in its ids. On such a collection the dashboard of `DashboardPage.Summaries` shows one card more than there are ids, the `"null"` entry last, and that last card links to the missing id `n + 1`.
- PresentationPage.DeletePresentation: for a `key` of 0 or less the JavaScript splice counts from the end, and the function follows that; it states the size of the result only for a stored id. `PresentationPage.Editor.HandleDelete` never reaches that path, since its editor's `key` is a stored id of a contiguous collection.
- Preview is not read-only: the element delete of the slide component works with `isPreview` set, as in the source.

## Findings

| source | as written | input that shows it | evidently intended | confidence | as-written member | corrected member |
|---|---|---|---|---|---|---|
| frontend/src/components/Preview.jsx:39-63 | the arrows navigate to `/presentation/{key}/preview/{n}` without `?presId=`; the page re-reads `presId` from the address and gets null, and the slide's element delete saves under the property `"null"`, leaving the stored presentation unchanged; the next created presentation then gets id `n + 2` | a two-slide presentation under id 1, preview opened with `?presId=1`, forward arrow, then a right-click on an element of slide 2 | the move keeps the query, and the delete is saved under id 1 with the ids staying `1..n` | not executed | Scenarios.PreviewDeleteAfterMove | Scenarios.PreviewDeleteAfterMoveKeepingQuery |
| frontend/src/components/Presentation.jsx:82-91 | `handleEdit` renames the object shown and saves `data`; once adding a slide has replaced that object by a copy, the save carries the presentation as loaded | a one-slide presentation under id 1: add a slide, then rename it to "Renamed" | the save carries the shown presentation: the new name and both slides | not executed | Scenarios.RenameAfterAddSlide | Scenarios.RenameAfterAddSlideSavingShown |
