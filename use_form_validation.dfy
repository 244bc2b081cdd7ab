/**
 * Required-field validation (src/hooks/banner/useFormValidation.ts, and the same check inside
 * src/hooks/useBannerForm.ts): eight text fields must be non-empty; each empty one is marked
 * in the error map.
 */
module UseFormValidation {
  import opened FormData

  /** The fields checked, in the order they are checked. */
  const REQUIRED_FIELDS: seq<TextField> :=
    [Title, Authors, Institution, Introduction, Methodology, ResultsAndDiscussion, Conclusion, References]

  /** Objective and email are the two text fields nobody has to fill in. */
  predicate Required(f: TextField) {
    f != Objective && f != Email
  }

  /** Every required field holds some text (the empty string is the one falsy string). */
  predicate IsComplete(form: BannerFormData) {
    forall f :: Required(f) ==> GetText(form, f) != ""
  }

  /** The error map after checking `fields` in order: each empty one gets `true` under its name. */
  function ErrorsOf(form: BannerFormData, fields: seq<TextField>): map<string, bool> {
    if fields == [] then map[]
    else
      var errors := ErrorsOf(form, fields[..|fields| - 1]);
      var f := fields[|fields| - 1];
      if GetText(form, f) == "" then errors[FieldName(f) := true] else errors
  }

  function ValidationErrors(form: BannerFormData): map<string, bool> {
    ErrorsOf(form, REQUIRED_FIELDS)
  }

  /** `validateForm`: a loop over the required fields filling a fresh map; nothing else is read or written. */
  method ValidateForm(form: BannerFormData) returns (isValid: bool, errors: map<string, bool>)
    ensures isValid <==> IsComplete(form)
    ensures errors == ValidationErrors(form)
  {
    errors := map[];
    isValid := true;
    for i := 0 to |REQUIRED_FIELDS|
      invariant errors == ErrorsOf(form, REQUIRED_FIELDS[..i])
      invariant isValid <==> forall j :: 0 <= j < i ==> GetText(form, REQUIRED_FIELDS[j]) != ""
    {
      var field := REQUIRED_FIELDS[i];
      if GetText(form, field) == "" {
        errors := errors[FieldName(field) := true];
        isValid := false;
      }
      assert REQUIRED_FIELDS[..i + 1][..i] == REQUIRED_FIELDS[..i];
    }
    assert REQUIRED_FIELDS[..|REQUIRED_FIELDS|] == REQUIRED_FIELDS;
    RequiredFieldsListed();
  }

  /** The list names exactly the required fields. */
  lemma RequiredFieldsListed()
    ensures forall f :: Required(f) <==> f in REQUIRED_FIELDS
  {
    forall f ensures Required(f) <==> f in REQUIRED_FIELDS {
      match f
      case Title => assert REQUIRED_FIELDS[0] == f;
      case Authors => assert REQUIRED_FIELDS[1] == f;
      case Institution => assert REQUIRED_FIELDS[2] == f;
      case Introduction => assert REQUIRED_FIELDS[3] == f;
      case Methodology => assert REQUIRED_FIELDS[4] == f;
      case ResultsAndDiscussion => assert REQUIRED_FIELDS[5] == f;
      case Conclusion => assert REQUIRED_FIELDS[6] == f;
      case References => assert REQUIRED_FIELDS[7] == f;
      case Objective =>
      case Email =>
    }
  }

  lemma FieldNameInjective(f: TextField, g: TextField)
    requires FieldName(f) == FieldName(g)
    ensures f == g
  {
  }

  /** The error map of a list of fields: keys are the names of its empty fields, and every value is `true`. */
  lemma {:induction false} ErrorsOfMarksEmptyFields(form: BannerFormData, fields: seq<TextField>)
    ensures forall f :: FieldName(f) in ErrorsOf(form, fields) <==> f in fields && GetText(form, f) == ""
    ensures forall k :: k in ErrorsOf(form, fields) ==> ErrorsOf(form, fields)[k]
    ensures forall k :: k in ErrorsOf(form, fields) ==> exists f :: FieldName(f) == k
  {
    if fields != [] {
      var init := fields[..|fields| - 1];
      var last := fields[|fields| - 1];
      ErrorsOfMarksEmptyFields(form, init);
      assert fields == init + [last];
      forall f ensures FieldName(f) in ErrorsOf(form, fields) <==> f in fields && GetText(form, f) == "" {
        if FieldName(f) == FieldName(last) {
          FieldNameInjective(f, last);
        }
      }
    }
  }

  /**
   * The result of validation: valid exactly when every required field holds text; the error
   * map marks exactly the empty required fields, never holds `false`, and is empty exactly
   * when the form is valid.
   */
  lemma ValidationErrorsMarkEmptyRequiredFields(form: BannerFormData)
    ensures forall f :: FieldName(f) in ValidationErrors(form) <==> Required(f) && GetText(form, f) == ""
    ensures forall k :: k in ValidationErrors(form) ==> ValidationErrors(form)[k]
    ensures forall k :: k in ValidationErrors(form) ==> exists f :: FieldName(f) == k && Required(f)
    ensures ValidationErrors(form) == map[] <==> IsComplete(form)
  {
    RequiredFieldsListed();
    ErrorsOfMarksEmptyFields(form, REQUIRED_FIELDS);
    var errors := ValidationErrors(form);
    if !IsComplete(form) {
      var f :| Required(f) && GetText(form, f) == "";
      assert FieldName(f) in errors;
    }
    if errors != map[] {
      var k :| k in errors;
      var f :| FieldName(f) == k;
      assert Required(f) && GetText(form, f) == "";
    }
  }

  /** Objective, email, images, captions and logo play no part: forms that agree on the required fields validate alike. */
  lemma ValidationReadsOnlyRequiredFields(a: BannerFormData, b: BannerFormData)
    requires forall f :: Required(f) ==> GetText(a, f) == GetText(b, f)
    ensures ValidationErrors(a) == ValidationErrors(b)
    ensures IsComplete(a) <==> IsComplete(b)
  {
    RequiredFieldsListed();
    ErrorsOfAgree(a, b, REQUIRED_FIELDS);
  }

  lemma {:induction false} ErrorsOfAgree(a: BannerFormData, b: BannerFormData, fields: seq<TextField>)
    requires forall i :: 0 <= i < |fields| ==> GetText(a, fields[i]) == GetText(b, fields[i])
    ensures ErrorsOf(a, fields) == ErrorsOf(b, fields)
  {
    if fields != [] {
      ErrorsOfAgree(a, b, fields[..|fields| - 1]);
    }
  }
}
