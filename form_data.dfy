/**
 * The poster form record (src/models/formData.ts): ten text fields, the uploaded images with
 * a parallel list of captions, and an optional logo.
 */
module FormData {
  import opened Wrappers

  /**
   * A file picked in the browser: its name, its size in bytes, and what reading it as a data
   * URL yields (the payload, or the reader's error). The reading itself is not modelled.
   */
  datatype ImageFile = ImageFile(name: string, size: nat, dataUrl: Result<string>)

  /** The text fields of the form; an input's `name` attribute is one of their names. */
  datatype TextField =
    | Title | Authors | Institution | Email | Introduction | Objective | Methodology
    | ResultsAndDiscussion | Conclusion | References

  /** The property name of a text field, as inputs and the error map spell it. */
  function FieldName(f: TextField): string {
    match f
    case Title => "title"
    case Authors => "authors"
    case Institution => "institution"
    case Email => "email"
    case Introduction => "introduction"
    case Objective => "objective"
    case Methodology => "methodology"
    case ResultsAndDiscussion => "resultsAndDiscussion"
    case Conclusion => "conclusion"
    case References => "references"
  }

  /** `email` and `logo` are optional properties; `None` is an absent one. */
  datatype BannerFormData = BannerFormData(
    title: string,
    authors: string,
    institution: string,
    email: Option<string>,
    introduction: string,
    objective: string,
    methodology: string,
    resultsAndDiscussion: string,
    conclusion: string,
    references: string,
    images: seq<ImageFile>,
    imageCaptions: seq<string>,
    logo: Option<ImageFile>)

  /** `formData[name]` for a text field; an absent email reads as the empty string. */
  function GetText(form: BannerFormData, f: TextField): string {
    match f
    case Title => form.title
    case Authors => form.authors
    case Institution => form.institution
    case Email => if form.email.Some? then form.email.value else ""
    case Introduction => form.introduction
    case Objective => form.objective
    case Methodology => form.methodology
    case ResultsAndDiscussion => form.resultsAndDiscussion
    case Conclusion => form.conclusion
    case References => form.references
  }

  /** `{ ...form, [name]: value }`: field `f` becomes `value` and nothing else changes. */
  function SetText(form: BannerFormData, f: TextField, value: string): (r: BannerFormData)
    ensures GetText(r, f) == value
    ensures forall g :: g != f ==> GetText(r, g) == GetText(form, g)
    ensures f == Email ==> r.email == Some(value)
    ensures f != Email ==> r.email == form.email
    ensures r.images == form.images && r.imageCaptions == form.imageCaptions && r.logo == form.logo
  {
    match f
    case Title => form.(title := value)
    case Authors => form.(authors := value)
    case Institution => form.(institution := value)
    case Email => form.(email := Some(value))
    case Introduction => form.(introduction := value)
    case Objective => form.(objective := value)
    case Methodology => form.(methodology := value)
    case ResultsAndDiscussion => form.(resultsAndDiscussion := value)
    case Conclusion => form.(conclusion := value)
    case References => form.(references := value)
  }

  /** The form a poster starts from: every text empty, no image, no caption, no logo. */
  const InitialFormData: BannerFormData :=
    BannerFormData("", "", "", Some(""), "", "", "", "", "", "", [], [], None)

  /** `Array(n).fill('')`. */
  function Blanks(n: nat): (r: seq<string>)
    ensures |r| == n && forall i :: 0 <= i < n ==> r[i] == ""
  {
    if n == 0 then [] else Blanks(n - 1) + [""]
  }

  /** Captions pair with images: one caption per image, at most two images. */
  predicate ImagesAligned(form: BannerFormData) {
    |form.images| == |form.imageCaptions| <= 2
  }

  /**
   * `copy[index] = caption` on a copy of the captions. An index past the end grows the array,
   * and the holes it leaves read as the empty caption wherever captions are used; a negative
   * index names no element, so the elements stay as they were.
   */
  function SetCaption(captions: seq<string>, index: int, caption: string): (r: seq<string>)
    ensures index < 0 ==> r == captions
    ensures 0 <= index ==> |r| == if index < |captions| then |captions| else index + 1
    ensures 0 <= index ==> r[index] == caption
    ensures forall i :: 0 <= i < |r| && i != index ==> r[i] == (if i < |captions| then captions[i] else "")
  {
    if index < 0 then captions
    else if index < |captions| then captions[index := caption]
    else captions + Blanks(index - |captions|) + [caption]
  }
}
