/**
 * Image handling for the split hooks (src/hooks/banner/useImageHandling.ts): uploads, caption
 * edits, the logo, and the `[IMGn]` tag. The handlers for uploads and tags read a `formData`
 * that the hook never declares, so as written they throw; the methods here read the hook
 * state's form instead and check each file's size, which is what the poster form hook
 * (src/hooks/useBannerForm.ts) does.
 */
module UseImageHandling {
  import opened Wrappers
  import opened FormData
  import opened BannerHookTypes
  import opened FormTransitions

  const REFERENCE_ERROR: string := "ReferenceError: formData is not defined"

  /**
   * `handleImageUpload` as written: the batch-size test reads the undeclared `formData`, which
   * throws before any setter runs, whatever the files.
   */
  function UploadAsWritten(form: BannerFormData, files: seq<ImageFile>): (r: Result<BannerFormData>)
    ensures r.Failure?
  {
    Failure(REFERENCE_ERROR)
  }

  /**
   * `handleImageInsert` as written: without a text area it returns quietly; with one, reading
   * the undeclared `formData` throws.
   */
  function ImageInsertAsWritten(form: BannerFormData, cursor: Option<nat>): (r: Result<BannerFormData>)
    ensures cursor.None? ==> r == Success(form)
    ensures cursor.Some? ==> r.Failure?
  {
    if cursor.None? then Success(form) else Failure(REFERENCE_ERROR)
  }

  /** The as-written handlers never take a batch and never insert a tag, even into an empty form with no image. */
  lemma HandlersAsWrittenNeverChangeTheForm(form: BannerFormData, files: seq<ImageFile>, cursor: nat)
    ensures UploadAsWritten(form, files) != Success(WithUploadedImages(form, files))
    ensures ImageInsertAsWritten(form, Some(cursor)) != Success(form.(resultsAndDiscussion := WithImageTag(form.resultsAndDiscussion, cursor, |form.images|)))
  {
  }

  /**
   * The batch test as written, were `formData` in scope: only the count is checked, because the
   * `return` inside the `forEach` callback only leaves the callback.
   */
  predicate BatchAcceptedAsWritten(images: seq<ImageFile>, files: seq<ImageFile>) {
    |files| + |images| <= 2
  }

  /** One file a byte over the limit, uploaded into the empty form, passes the written test but not the intended one. */
  lemma OversizedFileSlipsThrough(maxImageSizeKb: nat)
    ensures var big := ImageFile("poster.png", maxImageSizeKb * 1024 + 1, Success(""));
            && BatchAcceptedAsWritten(InitialFormData.images, [big])
            && !WithinSizeLimit(WithUploadedImages(InitialFormData, [big]), maxImageSizeKb)
            && !UploadAccepted(InitialFormData.images, [big], maxImageSizeKb)
  {
    var big := ImageFile("poster.png", maxImageSizeKb * 1024 + 1, Success(""));
    assert WithUploadedImages(InitialFormData, [big]).images[0] == big;
  }

  /**
   * `handleImageUpload`, reading the current form and rejecting a batch that would pass two
   * images or holds a file over the limit; an accepted batch is appended with empty captions
   * and a preview per file.
   */
  method HandleImageUpload(state: BannerHookState, files: seq<ImageFile>, maxImageSizeKb: nat)
    modifies state
    ensures UploadAccepted(old(state.formData.images), files, maxImageSizeKb) ==>
              state.formData == WithUploadedImages(old(state.formData), files)
              && state.imageUrls == old(state.imageUrls) + files
    ensures !UploadAccepted(old(state.formData.images), files, maxImageSizeKb) ==>
              state.formData == old(state.formData) && state.imageUrls == old(state.imageUrls)
    ensures state.errors == old(state.errors) && state.saveStatus == old(state.saveStatus)
    ensures old(state.Aligned()) ==> state.Aligned()
    ensures old(WithinSizeLimit(state.formData, maxImageSizeKb)) ==> WithinSizeLimit(state.formData, maxImageSizeKb)
  {
    if |files| + |state.formData.images| > 2 {
      return;
    }
    for i := 0 to |files|
      invariant forall j :: 0 <= j < i ==> FitsSizeLimit(files[j], maxImageSizeKb)
    {
      if files[i].size > maxImageSizeKb * 1024 {
        return;
      }
    }
    if WithinSizeLimit(state.formData, maxImageSizeKb) {
      UploadKeepsSizeLimit(state.formData, files, maxImageSizeKb);
    }
    state.formData := WithUploadedImages(state.formData, files);
    state.imageUrls := state.imageUrls + files;
  }

  /** `handleCaptionChange`: caption `index` becomes `caption` on a copy of the captions; nothing else changes. */
  method HandleCaptionChange(state: BannerHookState, index: int, caption: string)
    modifies state
    ensures state.formData == old(state.formData).(imageCaptions := SetCaption(old(state.formData.imageCaptions), index, caption))
    ensures state.imageUrls == old(state.imageUrls) && state.errors == old(state.errors)
    ensures state.saveStatus == old(state.saveStatus)
    ensures old(state.Aligned()) && index < |old(state.formData.images)| ==> state.Aligned()
  {
    state.formData := state.formData.(imageCaptions := SetCaption(state.formData.imageCaptions, index, caption));
  }

  /** `handleLogoUpload`: the logo is replaced exactly when the file is within the limit. */
  method HandleLogoUpload(state: BannerHookState, file: ImageFile, maxImageSizeKb: nat)
    modifies state
    ensures FitsSizeLimit(file, maxImageSizeKb) ==> state.formData == old(state.formData).(logo := Some(file))
    ensures !FitsSizeLimit(file, maxImageSizeKb) ==> state.formData == old(state.formData)
    ensures state.imageUrls == old(state.imageUrls) && state.errors == old(state.errors)
    ensures state.saveStatus == old(state.saveStatus)
    ensures old(WithinSizeLimit(state.formData, maxImageSizeKb)) ==> WithinSizeLimit(state.formData, maxImageSizeKb)
  {
    if file.size <= maxImageSizeKb * 1024 {
      state.formData := state.formData.(logo := Some(file));
    }
  }

  /**
   * `handleImageInsert`, reading the current form: with a text area (its cursor given), the tag
   * numbered by the current image count (the latest upload) is spliced into the results text
   * at the cursor; this hook inserts it even when there is no image, as `[IMG0]`, which names
   * no image.
   */
  method HandleImageInsert(state: BannerHookState, cursor: Option<nat>)
    modifies state
    ensures cursor.None? ==> state.formData == old(state.formData)
    ensures cursor.Some? ==>
              state.formData == old(state.formData).(resultsAndDiscussion :=
                WithImageTag(old(state.formData.resultsAndDiscussion), cursor.value, |old(state.formData.images)|))
    ensures state.imageUrls == old(state.imageUrls) && state.errors == old(state.errors)
    ensures state.saveStatus == old(state.saveStatus)
  {
    if cursor.None? {
      return;
    }
    var currentText := state.formData.resultsAndDiscussion;
    var imageTag := ImageTag(|state.formData.images|);
    var newText := Strings.Before(currentText, cursor.value) + imageTag + Strings.From(currentText, cursor.value);
    state.formData := state.formData.(resultsAndDiscussion := newText);
  }
}
