/**
  The state of the requests page and the event handlers that change it,
  grouped as the page uses them: the list (loaded page, sort order,
  pagination, duplicate summary), the create dialog (draft, validation
  errors, backend message) and the delete confirmation. Network calls are
  not modelled: what the backend answers is a parameter of the handler
  that consumes it.
*/
module LandingView {
  import opened Wrappers
  import opened FormValidation
  import opened RequestList

  const Ascending: string := "asc"
  const Descending: string := "desc"

  /** The title column's sort button: "asc" becomes "desc", anything else
      becomes "asc", so the result is always one of the two orders. */
  function NextSortOrder(order: string): (r: string)
    ensures r == Ascending || r == Descending
    ensures r == Descending <==> order == Ascending
    ensures r != order || (order != Ascending && order != Descending)
  {
    if order == Ascending then Descending else Ascending
  }

  /** Pressing the sort button twice from either order returns to it. */
  lemma ToggleTwice(order: string)
    requires order == Ascending || order == Descending
    ensures NextSortOrder(NextSortOrder(order)) == order
  {
  }

  /** What the create endpoint answered. `Rejected` carries the `error`
      field of the response body, when there is one. `Failed` stands for
      an exception: the request could not be sent or the body was not JSON. */
  datatype CreateOutcome = Created | Rejected(error: Option<string>) | Failed

  const FallbackError: string := "Something went wrong"
  const ServerError: string := "Server Error"

  /** `json.error || "Something went wrong"`: an absent or empty message is
      replaced, so the banner is never empty after a rejection. */
  function RejectionMessage(error: Option<string>): (m: string)
    ensures m != ""
    ensures error.Some? && error.value != "" ==> m == error.value
    ensures m != FallbackError ==> error == Some(m)
  {
    if error.Some? && error.value != "" then error.value else FallbackError
  }

  /** The list part of the page state. */
  class ListState {
    var requests: seq<Request>
    var sortOrder: string
    var pagination: Pagination
    var titleStats: map<string, nat>

    /** The sort order is always one the list endpoint accepts, and the
        duplicate summary always describes the loaded page. */
    ghost predicate Valid()
      reads this
    {
      && (sortOrder == Ascending || sortOrder == Descending)
      && titleStats == Duplicates(Titles(requests))
    }

    constructor ()
      ensures Valid()
      ensures requests == [] && sortOrder == Ascending
      ensures pagination == InitialPagination && titleStats == map[]
    {
      requests, sortOrder := [], Ascending;
      pagination, titleStats := InitialPagination, map[];
    }

    /** The sort button of the title column. */
    method ToggleSort()
      requires Valid()
      modifies this`sortOrder
      ensures Valid()
      ensures sortOrder == NextSortOrder(old(sortOrder))
      ensures sortOrder != old(sortOrder)
    {
      sortOrder := NextSortOrder(sortOrder);
    }

    /** Choosing a page replaces the current page and nothing else; the
        value is not checked against the page count. */
    method HandlePageChange(value: int)
      requires Valid()
      modifies this`pagination
      ensures Valid()
      ensures pagination.currentPage == value
      ensures pagination.totalPages == old(pagination.totalPages)
      ensures pagination.totalItems == old(pagination.totalItems)
      ensures pagination.itemsPerPage == old(pagination.itemsPerPage)
    {
      pagination := pagination.(currentPage := value);
    }

    /** A page returned by the list endpoint replaces the list and the
        pagination wholesale and recomputes the duplicate summary from that
        page alone. This is the intended summary: the value the page itself
        stores lacks the titles named like `Object.prototype` members
        (`PrototypeCounting.SummaryAsWrittenDropsInheritedNames`). */
    method ReceivePage(data: seq<Request>, page: Pagination)
      requires Valid()
      modifies this`requests, this`pagination, this`titleStats
      ensures Valid()
      ensures requests == data && pagination == page
      ensures titleStats == Duplicates(Titles(data))
    {
      requests := data;
      pagination := page;
      titleStats := SummarizeDuplicates(data);
    }
  }

  /** The create dialog: whether it is open, the draft, the validation
      errors and the backend's message. */
  class CreateDialog {
    var open: bool
    var form: FormDraft
    var errors: map<Field, Message>
    var backendError: string

    constructor ()
      ensures !open && form == EmptyDraft && errors == map[] && backendError == ""
    {
      open, form, errors, backendError := false, EmptyDraft, map[], "";
    }

    /** Opening the dialog clears the previous attempt's messages and keeps
        the draft. */
    method HandleOpen()
      modifies this`errors, this`backendError, this`open
      ensures open && errors == map[] && backendError == ""
    {
      errors := map[];
      backendError := "";
      open := true;
    }

    method HandleClose()
      modifies this`open
      ensures !open
    {
      open := false;
    }

    /** Typing into an input (or picking a file) replaces the draft. */
    method EditForm(draft: FormDraft)
      modifies this`form
      ensures form == draft
    {
      form := draft;
    }

    /** Builds the error object, stores it for display, and reports
        whether it came out empty. */
    method ValidateForm() returns (ok: bool)
      modifies this`errors
      ensures errors == FormErrors(form)
      ensures ok <==> IsSubmittable(form)
    {
      var temp;
      temp, ok := BuildErrors(form);
      errors := temp;
    }

    /** Submitting the form. An invalid draft stops before anything is sent
        and leaves the draft, the dialog and the backend message as they
        were. A valid one is sent (`posted`) and `outcome` decides the rest:
        on success the draft is discarded and the dialog closes; otherwise
        the draft stays for another try and the message is shown. */
    method HandleSubmit(outcome: CreateOutcome) returns (posted: bool)
      modifies this`errors, this`backendError, this`form, this`open
      ensures errors == FormErrors(old(form))
      ensures posted <==> IsSubmittable(old(form))
      ensures !posted ==> form == old(form) && open == old(open) && backendError == old(backendError)
      ensures posted && outcome.Created? ==> form == EmptyDraft && !open && backendError == ""
      ensures posted && outcome.Rejected? ==>
                form == old(form) && open == old(open) && backendError == RejectionMessage(outcome.error)
      ensures posted && outcome.Failed? ==>
                form == old(form) && open == old(open) && backendError == ServerError
      ensures posted && outcome == Rejected(Some(PhoneExists)) ==>
                PhoneHelper(errors, backendError) == FieldDisplay(true, PhoneExists)
    {
      posted := ValidateForm();
      if !posted {
        return;
      }
      backendError := "";
      match outcome
      case Created =>
        form := EmptyDraft;
        HandleClose();
      case Rejected(error) =>
        backendError := RejectionMessage(error);
      case Failed =>
        backendError := ServerError;
    }
  }

  /** The delete confirmation: Idle, or waiting for confirmation of
      `deleteId` while `deleteModal` is open. */
  class DeleteDialog {
    var deleteModal: bool
    var deleteId: string

    constructor ()
      ensures !deleteModal && deleteId == ""
    {
      deleteModal, deleteId := false, "";
    }

    /** The delete button of a row: remember the target, ask to confirm. */
    method ConfirmDelete(id: string)
      modifies this
      ensures deleteId == id && deleteModal
    {
      deleteId := id;
      deleteModal := true;
    }

    /** Cancel, or closing the confirmation dialog. */
    method CancelDelete()
      modifies this`deleteModal
      ensures !deleteModal
    {
      deleteModal := false;
    }

    /** The confirmed delete: returns the id the delete call is issued for,
        which is the remembered target. Once the backend has answered, with
        any status, the dialog closes; when the call itself fails (`reached`
        is false) the error escapes the handler and the dialog stays as it
        was. The remembered id is never cleared. */
    method DeleteRequest(reached: bool) returns (target: string)
      modifies this`deleteModal
      ensures target == deleteId
      ensures reached ==> !deleteModal
      ensures !reached ==> deleteModal == old(deleteModal)
    {
      target := deleteId;
      if reached {
        deleteModal := false;
      }
    }
  }
}
