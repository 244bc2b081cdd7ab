/**
 * The image paragraphs of the poster and its logo header (src/utils/docxImageHandler.ts).
 * Reading a file as a data URL and fetching the default logo are I/O: a file carries what
 * reading it yields, and the default logo's data URL (or the fetch's error) is a parameter.
 * When several images fail to read, the error reported is the first failing image's in list
 * order.
 */
module DocxImageHandler {
  import opened Wrappers
  import opened Docx
  import opened FormData
  import opened ImageUtils

  /** `Promise.all(images.map(convertImageToBase64))`: every image's data URL, or an error. */
  function ReadAll(images: seq<ImageFile>): (r: Result<seq<string>>)
    ensures r.Success? <==> forall i :: 0 <= i < |images| ==> images[i].dataUrl.Success?
    ensures r.Success? ==> |r.value| == |images|
                           && forall i :: 0 <= i < |images| ==> r.value[i] == images[i].dataUrl.value
    ensures r.Failure? ==> exists i :: 0 <= i < |images| && images[i].dataUrl == Failure(r.error)
  {
    if images == [] then Success([])
    else
      match images[0].dataUrl
      case Failure(e) => Failure(e)
      case Success(d) =>
        match ReadAll(images[1..])
        case Failure(e) =>
          assert exists i :: 0 <= i < |images[1..]| && images[1..][i].dataUrl == Failure(e);
          var i :| 0 <= i < |images[1..]| && images[1..][i].dataUrl == Failure(e);
          assert images[i + 1].dataUrl == Failure(e);
          Failure(e)
        case Success(ds) => Success([d] + ds)
  }

  /** One image of the image row: 200 by 150. */
  function ImageRunOf(dataUrl: string): Run {
    ImageRun(CreateImageRunOptions(dataUrl, 200, 150))
  }

  /** The centered row of images, 200 before and after. */
  function ImageRowParagraph(dataUrls: seq<string>): (p: Paragraph)
    ensures |p.children| == |dataUrls|
    ensures forall i :: 0 <= i < |dataUrls| ==> p.children[i] == ImageRunOf(dataUrls[i])
  {
    Paragraph(seq(|dataUrls|, i requires 0 <= i < |dataUrls| => ImageRunOf(dataUrls[i])),
              Some(Center), Some(Spacing(Some(200), Some(200))), None)
  }

  /** A caption: its text alone in a centered paragraph, 100 before and 200 after. */
  function CaptionParagraph(caption: string): Paragraph {
    Paragraph([TextRun(caption, None, None, false, false, false, None, 0)],
              Some(Center), Some(Spacing(Some(100), Some(200))), None)
  }

  /** The caption paragraphs, in order, of the captions that are not empty. */
  function CaptionParagraphs(captions: seq<string>): seq<Paragraph> {
    if captions == [] then []
    else
      (if captions[0] != "" then [CaptionParagraph(captions[0])] else [])
      + CaptionParagraphs(captions[1..])
  }

  /** What `createImageParagraphs` resolves to, or the error it rejects with. */
  function ImageParagraphs(images: seq<ImageFile>, captions: seq<string>): Result<seq<Paragraph>> {
    if images == [] then Success([])
    else
      match ReadAll(images)
      case Failure(e) => Failure(e)
      case Success(dataUrls) => Success([ImageRowParagraph(dataUrls)] + CaptionParagraphs(captions))
  }

  /** `createImageParagraphs`: the image row, then a loop pushing one paragraph per non-empty caption. */
  method CreateImageParagraphs(images: seq<ImageFile>, captions: seq<string>) returns (r: Result<seq<Paragraph>>)
    ensures r == ImageParagraphs(images, captions)
  {
    var paragraphs: seq<Paragraph> := [];
    if |images| > 0 {
      var results := ReadAll(images);
      if results.Failure? {
        return Failure(results.error);
      }
      paragraphs := [ImageRowParagraph(results.value)];
      for i := 0 to |captions|
        invariant paragraphs == [ImageRowParagraph(results.value)] + CaptionParagraphs(captions[..i])
      {
        if captions[i] != "" {
          paragraphs := paragraphs + [CaptionParagraph(captions[i])];
        }
        CaptionParagraphsAppend(captions[..i], captions[i]);
        assert captions[..i + 1] == captions[..i] + [captions[i]];
      }
      assert captions[..|captions|] == captions;
    }
    return Success(paragraphs);
  }

  lemma {:induction false} CaptionParagraphsAppend(captions: seq<string>, c: string)
    ensures CaptionParagraphs(captions + [c])
            == CaptionParagraphs(captions) + (if c != "" then [CaptionParagraph(c)] else [])
  {
    if captions != [] {
      assert (captions + [c])[1..] == captions[1..] + [c];
      CaptionParagraphsAppend(captions[1..], c);
    } else {
      assert CaptionParagraphs([c][1..]) == [];
    }
  }

  /** The captions that are not empty, in order. */
  function NonEmptyCaptions(captions: seq<string>): (r: seq<string>)
    ensures |r| <= |captions|
    ensures forall j :: 0 <= j < |r| ==> r[j] != "" && r[j] in captions
    ensures (forall i :: 0 <= i < |captions| ==> captions[i] != "") ==> r == captions
  {
    if captions == [] then []
    else
      var rest := NonEmptyCaptions(captions[1..]);
      assert forall x :: x in captions[1..] ==> x in captions;
      if captions[0] != "" then [captions[0]] + rest else rest
  }

  /** The caption paragraphs are the non-empty captions, one paragraph each, in caption order. */
  lemma {:induction false} CaptionsPairInOrder(captions: seq<string>)
    ensures |CaptionParagraphs(captions)| == |NonEmptyCaptions(captions)|
    ensures forall j :: 0 <= j < |CaptionParagraphs(captions)| ==>
              CaptionParagraphs(captions)[j] == CaptionParagraph(NonEmptyCaptions(captions)[j])
  {
    if captions != [] {
      CaptionsPairInOrder(captions[1..]);
    }
  }

  /**
   * With no image there is no paragraph, whatever the captions. With images, the result is an
   * error exactly when some image cannot be read; otherwise it is one centered paragraph
   * holding every image in order at 200 by 150, followed by one centered paragraph for each
   * non-empty caption, in caption order: never a caption between two images.
   */
  lemma ImageParagraphsPairImagesWithCaptions(images: seq<ImageFile>, captions: seq<string>)
    ensures images == [] ==> ImageParagraphs(images, captions) == Success([])
    ensures images != [] ==>
              (ImageParagraphs(images, captions).Failure? <==> exists i :: 0 <= i < |images| && images[i].dataUrl.Failure?)
    ensures var r := ImageParagraphs(images, captions);
            images != [] && r.Success? ==>
              && |r.value| == 1 + |NonEmptyCaptions(captions)|
              && r.value[0].alignment == Some(Center)
              && |r.value[0].children| == |images|
              && (forall i :: 0 <= i < |images| ==>
                    && r.value[0].children[i].ImageRun?
                    && r.value[0].children[i].options.data == SecondField(images[i].dataUrl.value)
                    && r.value[0].children[i].options.transformation == Transformation(200, 150))
              && (forall j :: 1 <= j < |r.value| ==>
                    && r.value[j].alignment == Some(Center)
                    && r.value[j].children == [TextRun(NonEmptyCaptions(captions)[j - 1], None, None, false, false, false, None, 0)])
  {
    CaptionsPairInOrder(captions);
  }

  /** The single-image paragraph of a header: the logo at 100 by 100, left-aligned, 200 after. */
  function LogoParagraph(dataUrl: string): Paragraph {
    Paragraph([ImageRun(CreateImageRunOptions(dataUrl, 100, 100))], Some(Left), Some(Spacing(None, Some(200))), None)
  }

  /**
   * What `createLogoHeader` resolves to: the user's logo when there is one, the default logo
   * (given as what fetching and reading it yields) otherwise.
   */
  function LogoHeader(logo: Option<ImageFile>, defaultLogo: Result<string>): Result<Header> {
    var source := if logo.Some? then logo.value.dataUrl else defaultLogo;
    match source
    case Failure(e) => Failure(e)
    case Success(d) => Success(Header([LogoParagraph(d)]))
  }

  /** `createLogoHeader`: `logoBase64` is assigned in one branch or the other. */
  method CreateLogoHeader(logo: Option<ImageFile>, defaultLogo: Result<string>) returns (r: Result<Header>)
    ensures r == LogoHeader(logo, defaultLogo)
  {
    var logoBase64: Result<string>;
    if logo.Some? {
      logoBase64 := logo.value.dataUrl;
    } else {
      logoBase64 := defaultLogo;
    }
    if logoBase64.Failure? {
      return Failure(logoBase64.error);
    }
    return Success(Header([LogoParagraph(logoBase64.value)]));
  }

  /**
   * The header holds exactly one left-aligned paragraph with exactly one 100 by 100 image,
   * whose data comes from the user's logo if given and from the default logo otherwise; it
   * fails exactly when that source fails.
   */
  lemma LogoHeaderHoldsOneImage(logo: Option<ImageFile>, defaultLogo: Result<string>)
    ensures var source := if logo.Some? then logo.value.dataUrl else defaultLogo;
            var r := LogoHeader(logo, defaultLogo);
            && (r.Success? <==> source.Success?)
            && (r.Success? ==>
                  && |r.value.children| == 1
                  && r.value.children[0].alignment == Some(Left)
                  && |r.value.children[0].children| == 1
                  && r.value.children[0].children[0].ImageRun?
                  && r.value.children[0].children[0].options.data == SecondField(source.value)
                  && r.value.children[0].children[0].options.transformation == Transformation(100, 100))
  {
  }
}
