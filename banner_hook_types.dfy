/**
 * The state the split poster-form hooks under src/hooks/banner/ update through their setters
 * (src/hooks/banner/types.ts): the form, the error flags, one preview per uploaded image, and
 * the save status.
 */
module BannerHookTypes {
  import opened Wrappers
  import opened FormData

  /** `SaveStatus`; the time of the last save is a number of milliseconds, or `null`. */
  datatype SaveStatus = SaveStatus(isSaving: bool, isError: bool, lastSaved: Option<nat>)

  /** Not saving, no error, never saved. */
  const CLEARED_STATUS: SaveStatus := SaveStatus(false, false, None)

  /**
   * The hook state. A preview URL stands for the file it was made from, so `imageUrls` holds
   * those files in upload order.
   */
  class BannerHookState {
    var formData: BannerFormData
    var errors: map<string, bool>
    var imageUrls: seq<ImageFile>
    var saveStatus: SaveStatus

    /** Each uploaded image has a preview and a caption, and there are at most two. */
    predicate Aligned()
      reads this
    {
      ImagesAligned(formData) && |imageUrls| == |formData.images|
    }

    constructor(initial: BannerFormData)
      ensures formData == initial && errors == map[] && imageUrls == [] && saveStatus == CLEARED_STATUS
    {
      formData := initial;
      errors := map[];
      imageUrls := [];
      saveStatus := CLEARED_STATUS;
    }
  }
}
