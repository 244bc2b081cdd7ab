/**
 * The form changes shared by the poster form hook (src/hooks/useBannerForm.ts) and the split
 * hooks under src/hooks/banner/: the image-size limit, appending an upload batch, and splicing
 * an `[IMGn]` tag into the results text at the cursor.
 */
module FormTransitions {
  import opened Wrappers
  import opened Strings
  import opened FormData

  /** `file.size <= MAX_IMAGE_SIZE_KB * 1024`. */
  predicate FitsSizeLimit(file: ImageFile, maxImageSizeKb: nat) {
    file.size <= maxImageSizeKb * 1024
  }

  /** A batch the poster form takes: it keeps the total at two images and every file is within the limit. */
  predicate UploadAccepted(images: seq<ImageFile>, files: seq<ImageFile>, maxImageSizeKb: nat) {
    |files| + |images| <= 2 && forall i :: 0 <= i < |files| ==> FitsSizeLimit(files[i], maxImageSizeKb)
  }

  /** The form after a batch has been taken: the files appended, and one empty caption each. */
  function WithUploadedImages(form: BannerFormData, files: seq<ImageFile>): BannerFormData {
    form.(images := form.images + files, imageCaptions := form.imageCaptions + Blanks(|files|))
  }

  /**
   * Taking a batch keeps what was there, adds the files in order with empty captions, and
   * keeps captions paired with images when the batch keeps the total at two.
   */
  lemma UploadAppendsWithBlankCaptions(form: BannerFormData, files: seq<ImageFile>)
    ensures var r := WithUploadedImages(form, files);
            && r.images[..|form.images|] == form.images && r.images[|form.images|..] == files
            && r.imageCaptions[..|form.imageCaptions|] == form.imageCaptions
            && (forall i :: |form.imageCaptions| <= i < |r.imageCaptions| ==> r.imageCaptions[i] == "")
            && (ImagesAligned(form) && |form.images| + |files| <= 2 ==> ImagesAligned(r))
            && forall f :: GetText(r, f) == GetText(form, f)
  {
  }

  /** Every image and the logo are within the size limit. */
  predicate WithinSizeLimit(form: BannerFormData, maxImageSizeKb: nat) {
    (forall i :: 0 <= i < |form.images| ==> FitsSizeLimit(form.images[i], maxImageSizeKb))
    && (form.logo.Some? ==> FitsSizeLimit(form.logo.value, maxImageSizeKb))
  }

  /** Taking only batches the check accepts keeps every image within the limit. */
  lemma UploadKeepsSizeLimit(form: BannerFormData, files: seq<ImageFile>, maxImageSizeKb: nat)
    requires WithinSizeLimit(form, maxImageSizeKb) && UploadAccepted(form.images, files, maxImageSizeKb)
    ensures WithinSizeLimit(WithUploadedImages(form, files), maxImageSizeKb)
  {
    var r := WithUploadedImages(form, files);
    forall i | 0 <= i < |r.images| ensures FitsSizeLimit(r.images[i], maxImageSizeKb) {
      if i >= |form.images| {
        assert r.images[i] == files[i - |form.images|];
      }
    }
  }

  /** The tag naming image `n`: `[IMG${n}]`. */
  function ImageTag(n: nat): (tag: string)
    ensures |tag| >= 6 && tag[..4] == "[IMG" && tag[|tag| - 1] == ']'
    ensures tag[4..|tag| - 1] == NatToString(n) && DigitsValue(tag[4..|tag| - 1]) == n
  {
    "[IMG" + NatToString(n) + "]"
  }

  /** `text.slice(0, cursor) + tag + text.slice(cursor)`. */
  function WithImageTag(text: string, cursor: nat, n: nat): string {
    Before(text, cursor) + ImageTag(n) + From(text, cursor)
  }

  /**
   * The tag sits at the cursor (clamped into the text): the text before it and after it is
   * the old text cut at that point, so taking the tag out gives the old text back.
   */
  lemma ImageTagSitsAtCursor(text: string, cursor: nat, n: nat)
    ensures var r := WithImageTag(text, cursor, n);
            var c := ClampIndex(cursor, |text|);
            var t := |ImageTag(n)|;
            && |r| == |text| + t
            && r[..c] == text[..c]
            && r[c..c + t] == ImageTag(n)
            && r[c + t..] == text[c..]
            && r[..c] + r[c + t..] == text
  {
    var r := WithImageTag(text, cursor, n);
    var c := ClampIndex(cursor, |text|);
    var t := |ImageTag(n)|;
    assert r == text[..c] + ImageTag(n) + text[c..];
    assert r[..c] == text[..c];
    assert r[c..c + t] == ImageTag(n);
    assert r[c + t..] == text[c..];
    assert text == text[..c] + text[c..];
  }

  /** Different images get different tags. */
  lemma ImageTagsDiffer(m: nat, n: nat)
    requires m != n
    ensures ImageTag(m) != ImageTag(n)
  {
    if ImageTag(m) == ImageTag(n) {
      NatToStringInjective(m, n);
    }
  }

  /** The tags of the second and the twelfth image. */
  lemma ImageTagExamples()
    ensures ImageTag(2) == "[IMG2]"
    ensures ImageTag(12) == "[IMG12]"
  {
    assert NatToString(2) == "2";
    assert NatToString(12) == NatToString(1) + "2";
  }
}
