/** The create-ticket form: the per-field checks on the trimmed inputs, the
    submit guard and the first-failing-field message, and the page's state
    with its submit handler split at the API call. */
module CreateTicketPage {
  import opened Common
  import opened TicketTypes

  const CreatedByError := "Created By must be 2\U{2013}100 characters."
  const TitleError := "Title must be 5\U{2013}100 characters."
  const DescriptionError := "Description must be 10\U{2013}2000 characters."
  const IncompleteError := "Please complete the form."

  /** The form's editable fields. */
  datatype Form = Form(
    createdBy: string,
    title: string,
    description: string,
    category: CategoryWire,
    priority: PriorityWire)

  /** Empty text fields, category IT, priority Medium. */
  function InitialForm(): (f: Form)
    ensures f.createdBy == "" && f.title == "" && f.description == ""
    ensures f.category == 0 && f.priority == 1
  {
    Form("", "", "", 0, 1)
  }

  /** `createdByOk`: 2..100 code units once trimmed. */
  predicate CreatedByOk(f: Form)
    ensures CreatedByOk(f) ==> !IsBlank(Js, f.createdBy)
  {
    TrimEmptyIffBlank(Js, f.createdBy);
    2 <= Utf16Length(Trim(Js, f.createdBy)) <= 100
  }

  /** `titleOk`: 5..100 code units once trimmed. */
  predicate TitleOk(f: Form)
    ensures TitleOk(f) ==> !IsBlank(Js, f.title)
  {
    TrimEmptyIffBlank(Js, f.title);
    5 <= Utf16Length(Trim(Js, f.title)) <= 100
  }

  /** `descOk`: 10..2000 code units once trimmed. */
  predicate DescriptionOk(f: Form)
    ensures DescriptionOk(f) ==> !IsBlank(Js, f.description)
  {
    TrimEmptyIffBlank(Js, f.description);
    10 <= Utf16Length(Trim(Js, f.description)) <= 2000
  }

  /** `canSubmit`: all three fields pass and no submission is in flight. */
  predicate CanSubmit(f: Form, submitting: bool)
    ensures CanSubmit(f, submitting) ==> !submitting
    ensures CanSubmit(f, submitting) ==> !IsBlank(Js, f.createdBy) && !IsBlank(Js, f.title) && !IsBlank(Js, f.description)
  {
    CreatedByOk(f) && TitleOk(f) && DescriptionOk(f) && !submitting
  }

  /** The message for the first field, in form order, that fails its check;
      none when all three pass. */
  function HelperText(f: Form): (r: Option<string>)
    ensures r.None? <==> CreatedByOk(f) && TitleOk(f) && DescriptionOk(f)
    ensures r == Some(CreatedByError) <==> !CreatedByOk(f)
    ensures r == Some(TitleError) <==> CreatedByOk(f) && !TitleOk(f)
    ensures r == Some(DescriptionError) <==> CreatedByOk(f) && TitleOk(f) && !DescriptionOk(f)
  {
    if !CreatedByOk(f) then Some(CreatedByError)
    else if !TitleOk(f) then Some(TitleError)
    else if !DescriptionOk(f) then Some(DescriptionError)
    else None
  }

  /** What the submit handler sends: the trimmed text fields and the two
      selections. */
  function Payload(f: Form): (p: CreateTicketPayload)
    ensures p.category == f.category && p.priority == f.priority
    ensures p.createdBy == Trim(Js, f.createdBy) && p.title == Trim(Js, f.title)
    ensures p.description == Trim(Js, f.description)
  {
    CreateTicketPayload(Trim(Js, f.title), Trim(Js, f.description), Trim(Js, f.createdBy), f.category, f.priority)
  }

  /** A payload built from a form that passes its checks is already trimmed
      and within the client's bounds, so trimming it again changes nothing. */
  lemma ValidPayloadIsTrimmed(f: Form)
    requires CreatedByOk(f) && TitleOk(f) && DescriptionOk(f)
    ensures var p := Payload(f);
      && Trim(Js, p.createdBy) == p.createdBy && 2 <= Utf16Length(p.createdBy) <= 100
      && Trim(Js, p.title) == p.title && 5 <= Utf16Length(p.title) <= 100
      && Trim(Js, p.description) == p.description && 10 <= Utf16Length(p.description) <= 2000
  {
    TrimIdempotent(Js, f.createdBy);
    TrimIdempotent(Js, f.title);
    TrimIdempotent(Js, f.description);
  }

  /** A form with a message to show cannot be submitted, and a form that can
      be submitted has no message; with no submission in flight the two are
      exact complements. */
  lemma HelperTextMatchesGuard(f: Form, submitting: bool)
    ensures CanSubmit(f, submitting) ==> HelperText(f).None?
    ensures !submitting ==> (CanSubmit(f, submitting) <==> HelperText(f).None?)
  {
  }

  /** The fields' `maxLength` bounds cut the upper limits out of the checks:
      within them only the lower bounds can fail. */
  lemma MaxLengthLeavesLowerBounds(f: Form)
    requires Utf16Length(f.createdBy) <= 100 && Utf16Length(f.title) <= 100 && Utf16Length(f.description) <= 2000
    ensures CreatedByOk(f) <==> 2 <= Utf16Length(Trim(Js, f.createdBy))
    ensures TitleOk(f) <==> 5 <= Utf16Length(Trim(Js, f.title))
    ensures DescriptionOk(f) <==> 10 <= Utf16Length(Trim(Js, f.description))
  {
    TrimUtf16Length(Js, f.createdBy);
    TrimUtf16Length(Js, f.title);
    TrimUtf16Length(Js, f.description);
  }

  class CreatePage {
    var form: Form
    var submitting: bool
    var error: Option<string>

    constructor ()
      ensures form == InitialForm() && !submitting && error.None?
    {
      form := InitialForm();
      submitting := false;
      error := None;
    }

    /** A field's change handler: the new field values replace the old. */
    method Edit(f: Form)
      modifies this
      ensures form == f && submitting == old(submitting) && error == old(error)
    {
      form := f;
    }

    /** `handleSubmit` up to the API call: the error is cleared; a form that
        cannot be submitted shows the first failing field's message (or the
        generic one while a submission is in flight) and sends nothing;
        otherwise the submission is marked in flight and the trimmed payload
        is sent. */
    method HandleSubmit() returns (request: Option<CreateTicketPayload>)
      modifies this
      ensures form == old(form)
      ensures request.Some? <==> CanSubmit(old(form), old(submitting))
      ensures request.Some? ==> request.value == Payload(form) && submitting && error.None?
      ensures request.None? ==> submitting == old(submitting) && error.Some?
      ensures request.None? && HelperText(form).Some? ==> error == HelperText(form)
      ensures request.None? && HelperText(form).None? ==> error == Some(IncompleteError)
    {
      var f, busy := form, submitting;
      var ok := CanSubmit(f, busy);
      var text := HelperText(f);
      error := None;
      if !ok {
        error := if text.Some? then text else Some(IncompleteError);
        return None;
      }
      submitting := true;
      request := Some(Payload(f));
    }

    /** The rest of `handleSubmit` once the call settles: on success the
        parent is told the new ticket's id; on failure the message is shown;
        either way the submission is no longer in flight. */
    method FinishSubmit(outcome: Result<int, string>) returns (createdId: Option<int>)
      modifies this
      ensures !submitting && form == old(form)
      ensures outcome.Ok? ==> createdId == Some(outcome.value) && error == old(error)
      ensures outcome.Err? ==> createdId.None? && error == Some(outcome.error)
    {
      match outcome {
        case Ok(id) =>
          createdId := Some(id);
        case Err(message) =>
          createdId := None;
          error := Some(message);
      }
      submitting := false;
    }
  }
}
