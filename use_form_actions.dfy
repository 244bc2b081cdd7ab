/**
 * Reset and text input for the split hooks (src/hooks/banner/useFormActions.ts): the setters
 * become assignments to the fields of the hook state.
 */
module UseFormActions {
  import opened FormData
  import opened BannerHookTypes
  import opened UseFormValidation

  /** `resetForm`: the initial form, no previews, no errors, and a cleared save status. */
  method ResetForm(state: BannerHookState, initial: BannerFormData)
    modifies state
    ensures state.formData == initial && state.imageUrls == [] && state.errors == map[]
    ensures state.saveStatus == CLEARED_STATUS
    ensures initial.images == [] && initial.imageCaptions == [] ==> state.Aligned()
  {
    state.formData := initial;
    state.imageUrls := [];
    state.errors := map[];
    state.saveStatus := CLEARED_STATUS;
  }

  /**
   * `handleInputChange`: the named field takes the value whatever its length, the save status
   * is cleared, and the field's error flag is set to `false`; nothing else changes.
   */
  method HandleInputChange(state: BannerHookState, field: TextField, value: string)
    modifies state
    ensures state.formData == SetText(old(state.formData), field, value)
    ensures state.saveStatus == CLEARED_STATUS
    ensures state.errors == old(state.errors)[FieldName(field) := false]
    ensures state.imageUrls == old(state.imageUrls)
    ensures old(state.Aligned()) ==> state.Aligned()
  {
    state.formData := SetText(state.formData, field, value);
    state.saveStatus := CLEARED_STATUS;
    state.errors := state.errors[FieldName(field) := false];
  }

  /**
   * Typing text into a field is what validation asks for: after the field takes a non-empty
   * value it is no longer reported, and every other field is reported as before.
   */
  lemma InputChangeClearsOnlyItsValidationError(form: BannerFormData, field: TextField, value: string)
    requires value != ""
    ensures var after := ValidationErrors(SetText(form, field, value));
            && FieldName(field) !in after
            && forall g :: g != field ==> (FieldName(g) in after <==> FieldName(g) in ValidationErrors(form))
  {
    ValidationErrorsMarkEmptyRequiredFields(form);
    ValidationErrorsMarkEmptyRequiredFields(SetText(form, field, value));
  }
}
