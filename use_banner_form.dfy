/**
 * The poster form hook (src/hooks/useBannerForm.ts): the form, its error flags and the image
 * previews, and the handlers the form's inputs call. Toasts are left out; a handler that
 * shows an error toast and returns leaves the state as it was.
 */
module UseBannerForm {
  import opened Wrappers
  import opened Strings
  import opened FormData
  import opened FormTransitions
  import opened UseFormValidation

  /** The length limit of a field; `None` where the limits table has no entry. */
  function MaxLength(f: TextField): Option<nat> {
    match f
    case Title => Some(120)
    case Authors => Some(150)
    case Introduction => Some(500)
    case Methodology => Some(400)
    case ResultsAndDiscussion => Some(600)
    case Conclusion => Some(400)
    case References => Some(300)
    case Institution => None
    case Objective => None
    case Email => None
  }

  /** `!(value.length > maxLengths[name])`: a comparison with `undefined` is false, so a field without a limit takes any text. */
  predicate AcceptsInput(f: TextField, value: string) {
    MaxLength(f).None? || |value| <= MaxLength(f).value
  }

  /** A set error flag is cleared; an absent or cleared one stays as it was. */
  function ClearError(errors: map<string, bool>, name: string): (r: map<string, bool>)
    ensures name in errors && errors[name] ==> r == errors[name := false]
    ensures !(name in errors && errors[name]) ==> r == errors
  {
    if name in errors && errors[name] then errors[name := false] else errors
  }

  /** Limits are per field: each limited field takes a text up to its limit and no longer. */
  lemma InputLimits(value: string)
    ensures AcceptsInput(Title, value) <==> |value| <= 120
    ensures AcceptsInput(Authors, value) <==> |value| <= 150
    ensures AcceptsInput(Introduction, value) <==> |value| <= 500
    ensures AcceptsInput(Methodology, value) <==> |value| <= 400
    ensures AcceptsInput(ResultsAndDiscussion, value) <==> |value| <= 600
    ensures AcceptsInput(Conclusion, value) <==> |value| <= 400
    ensures AcceptsInput(References, value) <==> |value| <= 300
    ensures AcceptsInput(Institution, value) && AcceptsInput(Objective, value) && AcceptsInput(Email, value)
  {
  }

  /** Every field within its limit, as in a form filled only through the input handler. */
  predicate WithinLengthLimits(form: BannerFormData) {
    forall f :: AcceptsInput(f, GetText(form, f))
  }

  /** A text the handler takes keeps every field within its limit. */
  lemma AcceptedInputKeepsLengthLimits(form: BannerFormData, f: TextField, value: string)
    requires WithinLengthLimits(form) && AcceptsInput(f, value)
    ensures WithinLengthLimits(SetText(form, f, value))
  {
    forall g ensures AcceptsInput(g, GetText(SetText(form, f, value), g)) {
      if g != f {
        assert GetText(SetText(form, f, value), g) == GetText(form, g);
      }
    }
  }

  class BannerForm {
    var formData: BannerFormData
    var errors: map<string, bool>
    /** A preview URL stands for the file it was made from. */
    var imageUrls: seq<ImageFile>
    /** `MAX_IMAGE_SIZE_KB`, which the size checks use. */
    const maxImageSizeKb: nat

    /** Each uploaded image has a preview and a caption, and there are at most two. */
    predicate Aligned()
      reads this
    {
      ImagesAligned(formData) && |imageUrls| == |formData.images|
    }

    /** The starting state: every text empty (email the empty string), no image, no logo, no error, no preview. */
    constructor(maxImageSizeKb: nat)
      ensures formData == InitialFormData && errors == map[] && imageUrls == []
      ensures this.maxImageSizeKb == maxImageSizeKb
      ensures Aligned() && WithinLengthLimits(formData) && WithinSizeLimit(formData, maxImageSizeKb)
    {
      formData := InitialFormData;
      errors := map[];
      imageUrls := [];
      this.maxImageSizeKb := maxImageSizeKb;
    }

    /**
     * `handleInputChange`: a text over the field's limit is refused and nothing changes;
     * otherwise the field takes the text and its error flag, if set, is cleared.
     */
    method HandleInputChange(field: TextField, value: string)
      modifies this
      ensures AcceptsInput(field, value) ==>
                formData == SetText(old(formData), field, value) && errors == ClearError(old(errors), FieldName(field))
      ensures !AcceptsInput(field, value) ==> formData == old(formData) && errors == old(errors)
      ensures imageUrls == old(imageUrls)
      ensures old(Aligned()) ==> Aligned()
      ensures old(WithinLengthLimits(formData)) ==> WithinLengthLimits(formData)
      ensures old(WithinSizeLimit(formData, maxImageSizeKb)) ==> WithinSizeLimit(formData, maxImageSizeKb)
    {
      var limit := MaxLength(field);
      if limit.Some? && |value| > limit.value {
        return;
      }
      if WithinLengthLimits(formData) {
        AcceptedInputKeepsLengthLimits(formData, field, value);
      }
      formData := SetText(formData, field, value);
      var name := FieldName(field);
      if name in errors && errors[name] {
        errors := errors[name := false];
      }
    }

    /**
     * `handleImageUpload`: a batch that would pass two images is refused; the files are then
     * checked one by one and the first over the limit refuses the batch; otherwise the files
     * are appended with empty captions and a preview each.
     */
    method HandleImageUpload(files: seq<ImageFile>)
      modifies this
      ensures UploadAccepted(old(formData.images), files, maxImageSizeKb) ==>
                formData == WithUploadedImages(old(formData), files) && imageUrls == old(imageUrls) + files
      ensures !UploadAccepted(old(formData.images), files, maxImageSizeKb) ==>
                formData == old(formData) && imageUrls == old(imageUrls)
      ensures errors == old(errors)
      ensures old(Aligned()) ==> Aligned()
      ensures old(WithinLengthLimits(formData)) ==> WithinLengthLimits(formData)
      ensures old(WithinSizeLimit(formData, maxImageSizeKb)) ==> WithinSizeLimit(formData, maxImageSizeKb)
    {
      if |files| + |formData.images| > 2 {
        return;
      }
      for i := 0 to |files|
        invariant forall j :: 0 <= j < i ==> FitsSizeLimit(files[j], maxImageSizeKb)
      {
        if !(files[i].size <= maxImageSizeKb * 1024) {
          return;
        }
      }
      if WithinSizeLimit(formData, maxImageSizeKb) {
        UploadKeepsSizeLimit(formData, files, maxImageSizeKb);
      }
      UploadAppendsWithBlankCaptions(formData, files);
      formData := WithUploadedImages(formData, files);
      imageUrls := imageUrls + files;
    }

    /** `handleCaptionChange`: caption `index` becomes `caption`; nothing else changes. */
    method HandleCaptionChange(index: int, caption: string)
      modifies this
      ensures formData == old(formData).(imageCaptions := SetCaption(old(formData.imageCaptions), index, caption))
      ensures errors == old(errors) && imageUrls == old(imageUrls)
      ensures old(Aligned()) && index < |old(formData.images)| ==> Aligned()
      ensures old(WithinLengthLimits(formData)) ==> WithinLengthLimits(formData)
      ensures old(WithinSizeLimit(formData, maxImageSizeKb)) ==> WithinSizeLimit(formData, maxImageSizeKb)
    {
      formData := formData.(imageCaptions := SetCaption(formData.imageCaptions, index, caption));
      assert forall f :: GetText(formData, f) == GetText(old(formData), f);
    }

    /** `handleLogoUpload`: the logo is replaced exactly when the file is within the limit. */
    method HandleLogoUpload(file: ImageFile)
      modifies this
      ensures FitsSizeLimit(file, maxImageSizeKb) ==> formData == old(formData).(logo := Some(file))
      ensures !FitsSizeLimit(file, maxImageSizeKb) ==> formData == old(formData)
      ensures errors == old(errors) && imageUrls == old(imageUrls)
      ensures old(Aligned()) ==> Aligned()
      ensures old(WithinLengthLimits(formData)) ==> WithinLengthLimits(formData)
      ensures old(WithinSizeLimit(formData, maxImageSizeKb)) ==> WithinSizeLimit(formData, maxImageSizeKb)
    {
      if !(file.size <= maxImageSizeKb * 1024) {
        return;
      }
      formData := formData.(logo := Some(file));
      assert forall f :: GetText(formData, f) == GetText(old(formData), f);
    }

    /** `validateForm`: the error map is replaced by the flags of the empty required fields, and the result says whether there are none. */
    method ValidateForm() returns (isValid: bool)
      modifies this
      ensures isValid <==> IsComplete(formData)
      ensures errors == ValidationErrors(formData)
      ensures formData == old(formData) && imageUrls == old(imageUrls)
    {
      var newErrors;
      isValid, newErrors := UseFormValidation.ValidateForm(formData);
      errors := newErrors;
    }

    /**
     * `handleImageInsert`: with no image, or no text area (no cursor), nothing changes. Otherwise
     * the tag numbered by the current image count (the latest upload) is spliced into the
     * results text at the cursor, and
     * the cursor to restore, just after the tag, is returned.
     */
    method HandleImageInsert(cursor: Option<nat>) returns (restoredCursor: Option<nat>)
      modifies this
      ensures old(formData.images) == [] || cursor.None? ==> formData == old(formData) && restoredCursor.None?
      ensures old(formData.images) != [] && cursor.Some? ==>
                formData == old(formData).(resultsAndDiscussion :=
                  WithImageTag(old(formData.resultsAndDiscussion), cursor.value, |old(formData.images)|))
                && restoredCursor == Some(cursor.value + |ImageTag(|old(formData.images)|)|)
      ensures errors == old(errors) && imageUrls == old(imageUrls)
      ensures old(Aligned()) ==> Aligned()
      ensures old(WithinSizeLimit(formData, maxImageSizeKb)) ==> WithinSizeLimit(formData, maxImageSizeKb)
    {
      if |formData.images| == 0 {
        return None;
      }
      if cursor.None? {
        return None;
      }
      var cursorPosition := cursor.value;
      var currentText := formData.resultsAndDiscussion;
      var imageTag := ImageTag(|formData.images|);
      var newText := Before(currentText, cursorPosition) + imageTag + From(currentText, cursorPosition);
      formData := formData.(resultsAndDiscussion := newText);
      return Some(cursorPosition + |imageTag|);
    }
  }

  /**
   * Where the cursor lands: right after the tag, with the text before the tag untouched, when
   * the cursor was inside the text.
   */
  lemma RestoredCursorFollowsTag(text: string, cursor: nat, n: nat)
    requires cursor <= |text|
    ensures var r := WithImageTag(text, cursor, n);
            var end := cursor + |ImageTag(n)|;
            && end <= |r| && r[..end] == text[..cursor] + ImageTag(n) && r[end..] == text[cursor..]
  {
    ImageTagSitsAtCursor(text, cursor, n);
    var r := WithImageTag(text, cursor, n);
    var end := cursor + |ImageTag(n)|;
    assert r[..end] == r[..cursor] + r[cursor..end];
  }
}
