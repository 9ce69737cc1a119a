/**
 * The document as the editor stores it: a collection of presentations keyed
 * by id, each a list of slides, each slide an ordered list of elements.
 */
module Document {
  import opened Wrappers

  /** The sentinel background of a slide that was never coloured. */
  const DEFAULT_BACKGROUND: string := "default"

  /** What an element shows; the four kinds the editor can add. */
  datatype Content =
    | Text(text: string, size: string, color: string)
    | Image(image: Option<string>, description: string)
    | Video(link: string, autoplay: bool)
    | Code(code: string, language: string, size: string)

  /** One positioned element. `width` and `height` are percentages of the slide's
      size; `xPos` and `yPos` are the pixel offsets the drag handle reports.
      `fontFamily` is a property any element may carry once the font form has
      written it; only text elements render it. */
  datatype Element = Element(
    content: Content,
    width: real,
    height: real,
    xPos: real,
    yPos: real,
    fontFamily: Option<string>)

  /** A slide; `obj` is in stacking order, later elements above earlier ones. */
  datatype Slide = Slide(background: string, obj: seq<Element>)

  datatype Presentation = Presentation(
    presName: string,
    thumbnail: string,
    description: string,
    slides: seq<Slide>)

  /** A property name of the stored collection: the id of a presentation, or the
      name `"null"` that a computed key `[presId]` gets when `presId` is null. */
  datatype Key = Id(id: int) | NullKey

  /** The stored collection, keyed by presentation id. */
  type Collection = map<Key, Presentation>

  /** The property name `[presId]` writes for a `presId` read from the address;
      `None` is a missing query parameter, which reads as null. */
  function PropertyKey(presId: Option<int>): (k: Key)
    ensures k.NullKey? <==> presId.None?
    ensures presId.Some? ==> k == Id(presId.value)
  {
    match presId
    case None => NullKey
    case Some(id) => Id(id)
  }

  /** The slide that creation and `addSlide` start from. */
  function NewSlide(): Slide {
    Slide(DEFAULT_BACKGROUND, [])
  }

  /** The client-side locations the pages navigate to: the dashboard, a slide of
      the editor (`/presentation/{key}/{slide}`) and a slide of the preview
      (`/presentation/{key}/preview/{slide}`, with the query `?presId=` when
      `presId` is present); `slide` is the raw path segment. */
  datatype Route =
    | DashboardRoute
    | EditorRoute(key: int, slide: string)
    | PreviewRoute(key: int, slide: string, presId: Option<int>)
}
