/** The client-side submit hook (vibe-coding-landing/src/hooks/useSubscription.ts):
    three pieces of state driven by a submission that checks the email and
    inserts directly through the data-access layer, with the raw form data.
    The submission's `await` splits it into two events: it starts, and later
    its database calls complete. */
module UseSubscription {
  import opened Types
  import opened Database

  /** What `submitSubscription` returns. */
  datatype SubmitResult = SubmitResult(success: bool, data: Option<Subscriber>, error: Option<string>)

  /** The outcome of a submission's database calls against `rows`: the
      route's order of checks, with each failure becoming the message of the
      error thrown and caught. */
  function SubmitOutcome(rows: seq<Subscriber>, formData: FormData, id: string, now: string,
                         check: Backend, recheck: Backend, insert: Backend): SubmitResult
  {
    var emailExistsResult := CheckEmailExists(rows, formData.email, check);
    if emailExistsResult.error.Some? then SubmitResult(false, None, emailExistsResult.error)
    else if emailExistsResult.data == Some(true) then SubmitResult(false, None, Some(DuplicateEmail))
    else
      var result := InsertResult(rows, formData.name, formData.email, formData.subscribed, id, now, recheck, insert);
      if result.error.Some? then SubmitResult(false, None, result.error)
      else SubmitResult(true, result.data, None)
  }

  /** The table after a submission's database calls. */
  function SubmitRows(rows: seq<Subscriber>, formData: FormData, id: string, now: string,
                      check: Backend, recheck: Backend, insert: Backend): seq<Subscriber>
  {
    var emailExistsResult := CheckEmailExists(rows, formData.email, check);
    if emailExistsResult.error.Some? || emailExistsResult.data == Some(true) then rows
    else InsertedRows(rows, formData.name, formData.email, formData.subscribed, id, now, recheck, insert)
  }

  /** The hook's state: `isSubmitting`, `isSubmitted` and `error`. */
  class Subscription {
    var isSubmitting: bool
    var isSubmitted: bool
    var error: Option<string>

    constructor()
      ensures !isSubmitting && !isSubmitted && error.None?
    {
      isSubmitting := false;
      isSubmitted := false;
      error := None;
    }

    /** The synchronous start of `submitSubscription`. */
    method StartSubmission()
      modifies this
      ensures isSubmitting && error.None? && isSubmitted == old(isSubmitted)
    {
      isSubmitting := true;
      error := None;
    }

    /** The rest of `submitSubscription`, once its database calls complete:
        the `try`, the `catch` and the `finally`. */
    method FinishSubmission(table: SubscriberTable, formData: FormData, id: string, now: string,
                            check: Backend, recheck: Backend, insert: Backend)
      returns (r: SubmitResult)
      modifies this, table
      ensures r == SubmitOutcome(old(table.rows), formData, id, now, check, recheck, insert)
      ensures table.rows == SubmitRows(old(table.rows), formData, id, now, check, recheck, insert)
      ensures !isSubmitting
      ensures isSubmitted == (old(isSubmitted) || r.success)
      ensures error == (if r.success then old(error) else r.error)
    {
      var emailExistsResult := CheckEmailExists(table.rows, formData.email, check);
      if emailExistsResult.error.Some? {
        r := SubmitResult(false, None, emailExistsResult.error);
      } else if emailExistsResult.data == Some(true) {
        r := SubmitResult(false, None, Some(DuplicateEmail));
      } else {
        var result := table.InsertSubscriber(formData.name, formData.email, formData.subscribed, id, now, recheck, insert);
        if result.error.Some? {
          r := SubmitResult(false, None, result.error);
        } else {
          isSubmitted := true;
          r := SubmitResult(true, result.data, None);
        }
      }
      if !r.success {
        error := r.error;
      }
      isSubmitting := false;
    }

    /** `submitSubscription` when nothing else happens while it waits. */
    method SubmitSubscription(table: SubscriberTable, formData: FormData, id: string, now: string,
                              check: Backend, recheck: Backend, insert: Backend)
      returns (r: SubmitResult)
      modifies this, table
      ensures r == SubmitOutcome(old(table.rows), formData, id, now, check, recheck, insert)
      ensures table.rows == SubmitRows(old(table.rows), formData, id, now, check, recheck, insert)
      ensures !isSubmitting
      ensures isSubmitted == (old(isSubmitted) || r.success)
      ensures error == r.error
    {
      StartSubmission();
      r := FinishSubmission(table, formData, id, now, check, recheck, insert);
    }

    /** `resetForm` */
    method ResetForm()
      modifies this
      ensures !isSubmitting && !isSubmitted && error.None?
    {
      isSubmitting := false;
      isSubmitted := false;
      error := None;
    }

    /** `clearError`: only the error changes. */
    method ClearError()
      modifies this
      ensures error.None? && isSubmitting == old(isSubmitting) && isSubmitted == old(isSubmitted)
    {
      error := None;
    }
  }

  /** A result either succeeds with no error or fails with a non-empty one. */
  lemma OutcomeShape(rows: seq<Subscriber>, formData: FormData, id: string, now: string,
                     check: Backend, recheck: Backend, insert: Backend)
    ensures var r := SubmitOutcome(rows, formData, id, now, check, recheck, insert);
      (r.success <==> r.error.None?) && (r.error.Some? ==> r.error.value != "")
  {
  }

  /** A known email fails with the duplicate message and inserts nothing. */
  lemma KnownEmailRefused(rows: seq<Subscriber>, formData: FormData, id: string, now: string,
                          recheck: Backend, insert: Backend)
    requires EmailPresent(rows, formData.email)
    ensures SubmitOutcome(rows, formData, id, now, Answer, recheck, insert) == SubmitResult(false, None, Some(DuplicateEmail))
    ensures SubmitRows(rows, formData, id, now, Answer, recheck, insert) == rows
  {
  }

  /** A failed lookup is reported with its normalised message as the error
      and inserts nothing. */
  lemma LookupErrorSurfaced(rows: seq<Subscriber>, formData: FormData, id: string, now: string,
                            err: Thrown, recheck: Backend, insert: Backend)
    requires err.Truthy()
    ensures SubmitOutcome(rows, formData, id, now, Fails(err), recheck, insert).error
            == CheckEmailExists(rows, formData.email, Fails(err)).error
    ensures SubmitRows(rows, formData, id, now, Fails(err), recheck, insert) == rows
  {
  }

  /** A failed insert is reported with its normalised message as the error. */
  lemma InsertErrorSurfaced(rows: seq<Subscriber>, formData: FormData, id: string, now: string,
                            err: Thrown)
    requires err.Truthy() && !EmailPresent(rows, formData.email)
    ensures SubmitOutcome(rows, formData, id, now, Answer, Answer, Fails(err))
            == SubmitResult(false, None, InsertResult(rows, formData.name, formData.email, formData.subscribed, id, now, Answer, Fails(err)).error)
    ensures SubmitRows(rows, formData, id, now, Answer, Answer, Fails(err)) == rows
  {
  }

  /** A successful submission stores the form data as typed: the client
      path neither trims nor lower-cases. */
  lemma SuccessStoresRawData(rows: seq<Subscriber>, formData: FormData, id: string, now: string)
    requires !EmailPresent(rows, formData.email)
    ensures SubmitOutcome(rows, formData, id, now, Answer, Answer, Answer).success
    ensures SubmitRows(rows, formData, id, now, Answer, Answer, Answer)
            == rows + [Subscriber(id, formData.name, formData.email, formData.subscribed, now, now)]
  {
  }
}
