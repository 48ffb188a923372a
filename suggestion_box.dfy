/**
 * The "Add Your School" suggestion form: a dialog holding four text fields,
 * a submitting flag and an open flag. Submitting checks that the school name
 * is not blank and inserts one row into the remote `suggestion_box` table;
 * the remote insert is a parameter giving its outcome.
 */
module SuggestionBox {
  import opened Wrappers
  import Ascii

  /** The form's input fields, and equally the record that is inserted. */
  datatype FormData = FormData(name: string, location: string, acronym: string, website: string)

  const EmptyForm: FormData := FormData("", "", "", "")

  /** The `id` of each input element. */
  datatype Field = Name | Location | Acronym | Website

  /** What the remote insert reports. */
  datatype InsertResult = Inserted | InsertFailed(message: string)

  /** The notice shown after a submission attempt. */
  datatype Notice =
    | BlankNameNotice   // "Please enter a school name."
    | SuccessNotice     // "School submitted successfully."
    | FailureNotice     // "Failed to submit school. Please try again."

  function FieldValue(f: FormData, field: Field): string
  {
    match field
    case Name => f.name
    case Location => f.location
    case Acronym => f.acronym
    case Website => f.website
  }

  /** `{ ...prev, [id]: value }`: the named field takes the new value, the other three keep theirs. */
  function WithField(f: FormData, field: Field, value: string): (r: FormData)
    ensures FieldValue(r, field) == value
    ensures forall other :: other != field ==> FieldValue(r, other) == FieldValue(f, other)
  {
    match field
    case Name => f.(name := value)
    case Location => f.(location := value)
    case Acronym => f.(acronym := value)
    case Website => f.(website := value)
  }

  /**
   * `!formData.name.trim()`: the name is empty once white space is trimmed,
   * that is, exactly when it is empty or consists of white space only.
   */
  predicate NameIsBlank(f: FormData)
    ensures NameIsBlank(f) <==> forall i :: 0 <= i < |f.name| ==> Ascii.IsSpace(f.name[i])
  {
    Ascii.TrimEmptyIffBlank(f.name);
    Ascii.Trim(f.name) == []
  }

  /** After a successful submission the form is blank, so submitting again at once is rejected locally. */
  lemma ResetFormIsBlank()
    ensures NameIsBlank(EmptyForm)
    ensures forall field :: FieldValue(EmptyForm, field) == ""
  {
  }

  /** Typing a field's current value changes nothing, and retyping the old value undoes an edit. */
  lemma WithFieldRoundTrip(f: FormData, field: Field, value: string)
    ensures WithField(f, field, FieldValue(f, field)) == f
    ensures WithField(WithField(f, field, value), field, FieldValue(f, field)) == f
  {
  }

  /** The state of the `SuggestionBox` component. */
  class SuggestionForm {
    var formData: FormData
    var isSubmitting: bool
    var open: bool

    constructor ()
      ensures formData == EmptyForm && !isSubmitting && !open
    {
      formData := EmptyForm;
      isSubmitting := false;
      open := false;
    }

    /** The dialog opening or closing itself (`onOpenChange`). */
    method SetOpen(value: bool)
      modifies this`open
      ensures open == value
    {
      open := value;
    }

    /** `handleInputChange`: the input `field` now reads `value`. */
    method HandleInputChange(field: Field, value: string)
      modifies this`formData
      ensures formData == WithField(old(formData), field, value)
    {
      formData := WithField(formData, field, value);
    }

    /**
     * `handleSubmit`, with `insert` the remote insert's outcome. Returns the
     * notice shown and the record sent to the remote store, if any.
     */
    method HandleSubmit(insert: InsertResult) returns (notice: Notice, sent: Option<FormData>)
      modifies this
      // validation: a blank name sends nothing and changes nothing
      ensures NameIsBlank(old(formData)) ==>
                && notice == BlankNameNotice && sent == None
                && formData == old(formData) && isSubmitting == old(isSubmitting) && open == old(open)
      // a valid submission sends the four fields as they were, and always ends not submitting
      ensures !NameIsBlank(old(formData)) ==> sent == Some(old(formData)) && !isSubmitting
      // success: blank form, dialog closed
      ensures !NameIsBlank(old(formData)) && insert.Inserted? ==>
                notice == SuccessNotice && formData == EmptyForm && !open
      // failure: the input is kept for a retry
      ensures !NameIsBlank(old(formData)) && insert.InsertFailed? ==>
                notice == FailureNotice && formData == old(formData) && open == old(open)
    {
      if Ascii.Trim(formData.name) == [] {
        return BlankNameNotice, None;
      }
      isSubmitting := true;
      var record := formData;
      sent := Some(record);
      if insert.Inserted? {
        notice := SuccessNotice;
        formData := EmptyForm;
        open := false;
      } else {
        notice := FailureNotice;
      }
      isSubmitting := false;
    }
  }
}
