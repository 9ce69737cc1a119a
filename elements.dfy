/**
 * The element forms of the editor and the element each one builds:
 * every new element starts at the slide's top-left corner (0, 0).
 */
module Elements {
  import opened Wrappers
  import opened Document

  /** The font a new text element starts with. */
  const DEFAULT_FONT: string := "Arial"

  predicate AtOrigin(e: Element) {
    e.xPos == 0.0 && e.yPos == 0.0
  }

  /** Fields of the "Add Text" form. */
  datatype TextForm = TextForm(text: string, size: string, width: real, height: real, colour: string)

  function NewText(form: TextForm): (e: Element)
    ensures AtOrigin(e) && e.fontFamily == Some(DEFAULT_FONT)
    ensures e.content == Text(form.text, form.size, form.colour)
    ensures e.width == form.width && e.height == form.height
  {
    Element(Text(form.text, form.size, form.colour), form.width, form.height, 0.0, 0.0, Some(DEFAULT_FONT))
  }

  /** The MIME types the upload helper accepts. */
  const VALID_IMAGE_TYPES: set<string> := {"image/jpeg", "image/png", "image/jpg"}

  /** An uploaded file: its type and the data URL a file reader produces for it. */
  datatype File = File(mimeType: string, dataUrl: string)

  /** `fileToDataUrl`: the data URL of an accepted image, `None` (null) for any other file. */
  function FileToDataUrl(file: File): (r: Option<string>)
    ensures r.Some? <==> file.mimeType in VALID_IMAGE_TYPES
    ensures r.Some? ==> r.value == file.dataUrl
  {
    if file.mimeType in VALID_IMAGE_TYPES then Some(file.dataUrl) else None
  }

  /** Fields of the "Add Image" form: the first chosen file, if any, and the URL box. */
  datatype ImageForm = ImageForm(upload: Option<File>, url: string, width: real, height: real, description: string)

  const IMAGE_SOURCE_ALERT: string := "You must either upload an image or give an image url, not both"

  /** The image element `addImage` adds, or `None` when the form gives neither or both sources.
      An upload of a file that is not an accepted image still adds an element, whose image is null. */
  function NewImage(form: ImageForm): (r: Option<Element>)
    ensures r.Some? <==> (form.upload.Some? <==> form.url == "")
    ensures r.Some? ==> AtOrigin(r.value) && r.value.fontFamily == None
    ensures r.Some? ==> r.value.width == form.width && r.value.height == form.height
    ensures r.Some? && form.upload.Some? ==>
              r.value.content == Image(FileToDataUrl(form.upload.value), form.description)
    ensures r.Some? && form.url != "" ==> r.value.content == Image(Some(form.url), form.description)
  {
    if (form.upload.None? && form.url == "") || (form.upload.Some? && form.url != "") then None
    else if form.upload.Some? then
      Some(Element(Image(FileToDataUrl(form.upload.value), form.description), form.width, form.height, 0.0, 0.0, None))
    else
      Some(Element(Image(Some(form.url), form.description), form.width, form.height, 0.0, 0.0, None))
  }

  /** Fields of the "Add Video" form; `autoplay` is the switch's value, null when off. */
  datatype VideoForm = VideoForm(link: string, width: real, height: real, autoplay: Option<string>)

  function NewVideo(form: VideoForm): (e: Element)
    ensures AtOrigin(e) && e.fontFamily == None
    ensures e.content.Video? && e.content.link == form.link
    ensures e.content.autoplay <==> form.autoplay.Some?
    ensures e.width == form.width && e.height == form.height
  {
    var autoPlay := form.autoplay.Some?;
    Element(Video(form.link, autoPlay), form.width, form.height, 0.0, 0.0, None)
  }

  /** Fields of the "Add Code" form. */
  datatype CodeForm = CodeForm(code: string, size: string, width: real, height: real)

  const LANGUAGE_ALERT: string := "Language is not valid"

  /** The highlighter language for a label of the language detector; only three are accepted. */
  function LanguageFor(detected: string): (r: Option<string>)
    ensures r.Some? <==> detected in {"C", "JavaScript", "Python"}
    ensures detected == "C" ==> r == Some("c")
    ensures detected == "JavaScript" ==> r == Some("javascript")
    ensures detected == "Python" ==> r == Some("python")
  {
    if detected == "C" then Some("c")
    else if detected == "JavaScript" then Some("javascript")
    else if detected == "Python" then Some("python")
    else None
  }

  /** The code element `addCode` adds for the label `detected` the detector returned, or `None` when that label is refused. */
  function NewCode(form: CodeForm, detected: string): (r: Option<Element>)
    ensures r.Some? <==> LanguageFor(detected).Some?
    ensures r.Some? ==> AtOrigin(r.value) && r.value.fontFamily == None
    ensures r.Some? ==> r.value.content == Code(form.code, LanguageFor(detected).value, form.size)
    ensures r.Some? ==> r.value.width == form.width && r.value.height == form.height
  {
    match LanguageFor(detected)
    case None => None
    case Some(lang) => Some(Element(Code(form.code, lang, form.size), form.width, form.height, 0.0, 0.0, None))
  }
}
