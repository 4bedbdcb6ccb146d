/** The data-access layer (vibe-coding-landing/src/lib/database.ts) over an
    abstract subscribers table. Every call to the hosted database is
    represented by a `Backend` argument saying whether the service answered,
    answered with an error, or threw; an answer is computed from the rows. */
module Database {
  import opened Types
  import opened Supabase

  /** What an operation hands to `withErrorHandling`: its `{data, error}`
      pair, or the exception it threw. */
  datatype OpOutcome<T> = Returned(data: Option<T>, error: Thrown) | Threw(exc: Thrown)

  /** `withErrorHandling`: the uniform `{data, error, success}` result. */
  function WithErrorHandling<T>(o: OpOutcome<T>): (r: DbResult<T>)
    ensures r.success <==> o.Returned? && !o.error.Truthy()
    ensures r.success ==> r.error.None? && r.data == o.data
    ensures !r.success ==> r.data.None? && r.error.Some? && r.error.value != ""
    ensures o.Returned? && o.error.Truthy() ==> r.error == Some(HandleSupabaseError(o.error).message)
    ensures o.Threw? ==> r.error == Some(HandleSupabaseError(o.exc).message)
  {
    match o
    case Returned(data, error) =>
      if error.Truthy() then
        MessageNonEmpty(error);
        DbResult(None, Some(HandleSupabaseError(error).message), false)
      else DbResult(data, None, true)
    case Threw(exc) =>
      MessageNonEmpty(exc);
      DbResult(None, Some(HandleSupabaseError(exc).message), false)
  }

  /** Some row has exactly this email (no case folding at this layer). */
  predicate EmailPresent(rows: seq<Subscriber>, email: string) {
    exists i | 0 <= i < |rows| :: rows[i].email == email
  }

  predicate UniqueEmails(rows: seq<Subscriber>) {
    forall i, j :: 0 <= i < j < |rows| ==> rows[i].email != rows[j].email
  }

  /** `checkEmailExists`: `data` is whether a row with that email was found;
      an error answer has no row, so its `data` is false. */
  function CheckEmailExists(rows: seq<Subscriber>, email: string, backend: Backend): (r: DbResult<bool>)
    ensures r.data == Some(true) <==> backend.Answer? && EmailPresent(rows, email)
    ensures backend.Answer? ==> r.success && r.data == Some(EmailPresent(rows, email))
    ensures backend.Fails? && backend.err.Truthy() ==> !r.success
    ensures backend.Throws? ==> !r.success
  {
    match backend
    case Answer => WithErrorHandling(Returned(Some(EmailPresent(rows, email)), Null))
    case Fails(err) => WithErrorHandling(Returned(Some(false), err))
    case Throws(exc) => WithErrorHandling(Threw(exc))
  }

  /** `getSubscriberCount`: the number of rows, 0 when the count is missing. */
  function GetSubscriberCount(rows: seq<Subscriber>, backend: Backend): (r: DbResult<int>)
    ensures backend.Answer? ==> r.success && r.data == Some(|rows|)
    ensures r.success ==> r.data.Some? && r.data.value >= 0
    ensures !backend.Answer? && r.success ==> r.data == Some(0)
  {
    match backend
    case Answer => WithErrorHandling(Returned(Some(|rows|), Null))
    case Fails(err) => WithErrorHandling(Returned(Some(0), err))
    case Throws(exc) => WithErrorHandling(Threw(exc))
  }

  /** The row a successful insert creates; id and timestamps are the service's defaults. */
  function NewRow(name: string, email: string, subscribed: bool, id: string, now: string): Subscriber {
    Subscriber(id, name, email, subscribed, now, now)
  }

  /** The rows after `insertSubscriber`: one row appended exactly when the
      pre-check did not find the email and the insert was answered. */
  function InsertedRows(rows: seq<Subscriber>, name: string, email: string, subscribed: bool,
                        id: string, now: string, checkBackend: Backend, insertBackend: Backend): seq<Subscriber>
  {
    if CheckEmailExists(rows, email, checkBackend).data == Some(true) then rows
    else if insertBackend.Answer? then rows + [NewRow(name, email, subscribed, id, now)]
    else rows
  }

  /** The result `insertSubscriber` returns. */
  function InsertResult(rows: seq<Subscriber>, name: string, email: string, subscribed: bool,
                        id: string, now: string, checkBackend: Backend, insertBackend: Backend): DbResult<Subscriber>
  {
    if CheckEmailExists(rows, email, checkBackend).data == Some(true) then
      WithErrorHandling(Returned(None, Str(DuplicateEmail)))
    else
      match insertBackend
      case Answer => WithErrorHandling(Returned(Some(NewRow(name, email, subscribed, id, now)), Null))
      case Fails(err) => WithErrorHandling(Returned(None, err))
      case Throws(exc) => WithErrorHandling(Threw(exc))
  }

  /** What `.single()` reports when the update matched no row or several. */
  const NotSingleRow := Obj("JSON object requested, multiple (or no) rows returned", None, None, Some("PGRST116"),
                            "JSON object requested, multiple (or no) rows returned")

  /** The row with its opt-in flag set, everything else kept. */
  function WithFlag(row: Subscriber, email: string, subscribed: bool): Subscriber {
    if row.email == email then row.(subscribedToUpdates := subscribed) else row
  }

  function UpdatedRows(rows: seq<Subscriber>, email: string, subscribed: bool): (r: seq<Subscriber>)
    ensures |r| == |rows|
    ensures forall i :: 0 <= i < |rows| ==> r[i] == WithFlag(rows[i], email, subscribed)
  {
    if rows == [] then [] else [WithFlag(rows[0], email, subscribed)] + UpdatedRows(rows[1..], email, subscribed)
  }

  function MatchCount(rows: seq<Subscriber>, email: string): nat {
    if rows == [] then 0 else (if rows[0].email == email then 1 else 0) + MatchCount(rows[1..], email)
  }

  /** The index of the first row with this email. */
  function FirstMatch(rows: seq<Subscriber>, email: string): (i: nat)
    requires EmailPresent(rows, email)
    ensures i < |rows| && rows[i].email == email
    ensures forall k :: 0 <= k < i ==> rows[k].email != email
  {
    if rows[0].email == email then 0
    else
      assert EmailPresent(rows[1..], email) by {
        var k :| 0 <= k < |rows| && rows[k].email == email;
        assert rows[1..][k - 1].email == email;
      }
      1 + FirstMatch(rows[1..], email)
  }

  /** The abstract `subscribers` table. */
  class SubscriberTable {
    var rows: seq<Subscriber>

    constructor(initial: seq<Subscriber>)
      ensures rows == initial
    {
      rows := initial;
    }

    /** `insertSubscriber`: re-checks the email, then inserts. */
    method InsertSubscriber(name: string, email: string, subscribed: bool, id: string, now: string,
                            checkBackend: Backend, insertBackend: Backend)
      returns (r: DbResult<Subscriber>)
      modifies this
      ensures rows == InsertedRows(old(rows), name, email, subscribed, id, now, checkBackend, insertBackend)
      ensures r == InsertResult(old(rows), name, email, subscribed, id, now, checkBackend, insertBackend)
    {
      var existingCheck := CheckEmailExists(rows, email, checkBackend);
      if existingCheck.data == Some(true) {
        r := WithErrorHandling(Returned(None, Str(DuplicateEmail)));
        return;
      }
      match insertBackend {
        case Answer =>
          var row := NewRow(name, email, subscribed, id, now);
          rows := rows + [row];
          r := WithErrorHandling(Returned(Some(row), Null));
        case Fails(err) =>
          r := WithErrorHandling(Returned(None, err));
        case Throws(exc) =>
          r := WithErrorHandling(Threw(exc));
      }
    }

    /** `updateSubscriberStatus`: sets the flag on every row with the email
        and asks for exactly one row back; the service refuses a
        singular-response update that matches no row or several, and then
        writes nothing. */
    method UpdateSubscriberStatus(email: string, subscribed: bool, backend: Backend)
      returns (r: DbResult<Subscriber>)
      modifies this
      ensures rows == UpdateStatusRows(old(rows), email, subscribed, backend)
      ensures r == UpdateResult(old(rows), email, subscribed, backend)
    {
      match backend {
        case Answer =>
          if MatchCount(rows, email) == 1 {
            MatchCountPresent(rows, email);
            var i := FirstMatch(rows, email);
            rows := UpdatedRows(rows, email, subscribed);
            r := WithErrorHandling(Returned(Some(rows[i]), Null));
          } else {
            r := WithErrorHandling(Returned(None, NotSingleRow));
          }
        case Fails(err) =>
          r := WithErrorHandling(Returned(None, err));
        case Throws(exc) =>
          r := WithErrorHandling(Threw(exc));
      }
    }
  }

  /** A positive match count means some row has the email. */
  lemma {:induction false} MatchCountPresent(rows: seq<Subscriber>, email: string)
    ensures MatchCount(rows, email) > 0 <==> EmailPresent(rows, email)
  {
    if rows != [] {
      MatchCountPresent(rows[1..], email);
      if EmailPresent(rows, email) && rows[0].email != email {
        var k :| 0 <= k < |rows| && rows[k].email == email;
        assert rows[1..][k - 1].email == email;
      }
      if EmailPresent(rows[1..], email) {
        var k :| 0 <= k < |rows| - 1 && rows[1..][k].email == email;
        assert rows[k + 1].email == email;
      }
    }
  }

  /** The rows after `updateSubscriberStatus`: rewritten only when the
      service answered and exactly one row has the email. */
  function UpdateStatusRows(rows: seq<Subscriber>, email: string, subscribed: bool, backend: Backend): seq<Subscriber> {
    if backend.Answer? && MatchCount(rows, email) == 1 then UpdatedRows(rows, email, subscribed) else rows
  }

  /** The result `updateSubscriberStatus` returns. */
  function UpdateResult(rows: seq<Subscriber>, email: string, subscribed: bool, backend: Backend): DbResult<Subscriber> {
    match backend
    case Answer =>
      if MatchCount(rows, email) == 1 then
        MatchCountPresent(rows, email);
        var i := FirstMatch(rows, email);
        WithErrorHandling(Returned(Some(rows[i].(subscribedToUpdates := subscribed)), Null))
      else WithErrorHandling(Returned(None, NotSingleRow))
    case Fails(err) => WithErrorHandling(Returned(None, err))
    case Throws(exc) => WithErrorHandling(Threw(exc))
  }

  /** An update changes the table only when it reports success; an answered
      update succeeds exactly when one row has the email, and otherwise
      leaves the table as it was. */
  lemma UpdateCommitsOnSuccess(rows: seq<Subscriber>, email: string, subscribed: bool, backend: Backend)
    ensures UpdateStatusRows(rows, email, subscribed, backend) != rows ==> UpdateResult(rows, email, subscribed, backend).success
    ensures backend.Answer? ==> (UpdateResult(rows, email, subscribed, backend).success <==> MatchCount(rows, email) == 1)
    ensures MatchCount(rows, email) != 1 ==> UpdateStatusRows(rows, email, subscribed, backend) == rows
    ensures !backend.Answer? ==> UpdateStatusRows(rows, email, subscribed, backend) == rows
  {
  }

  /** Two rows with the same email: the update is refused and nothing is written. */
  lemma DuplicateUpdateRefused(a: Subscriber, b: Subscriber, subscribed: bool)
    requires a.email == b.email
    ensures !UpdateResult([a, b], a.email, subscribed, Answer).success
    ensures UpdateStatusRows([a, b], a.email, subscribed, Answer) == [a, b]
  {
    assert MatchCount([a, b], a.email) == 2 by {
      assert [b][1..] == [];
      assert MatchCount([b], a.email) == 1;
      assert [a, b][1..] == [b];
    }
  }

  // ---- properties of insertSubscriber ----

  /** A failed result never changes the table, and a successful one appends
      exactly the row it returns. */
  lemma InsertOutcome(rows: seq<Subscriber>, name: string, email: string, subscribed: bool,
                      id: string, now: string, checkBackend: Backend, insertBackend: Backend)
    ensures var r := InsertResult(rows, name, email, subscribed, id, now, checkBackend, insertBackend);
      var rows' := InsertedRows(rows, name, email, subscribed, id, now, checkBackend, insertBackend);
      (r.success && r.data.Some? ==>
         rows' == rows + [r.data.value] && r.data.value == Subscriber(id, name, email, subscribed, now, now))
      && (!r.success ==> rows' == rows)
      && (rows' != rows ==> r.success && |rows'| == |rows| + 1)
  {
  }

  /** An email the pre-check finds present is refused, the table is left as
      is, and the caller only sees the generic message: the duplicate text is
      lost in normalisation. */
  lemma InsertRefusesPresentEmail(rows: seq<Subscriber>, name: string, email: string, subscribed: bool,
                                  id: string, now: string, insertBackend: Backend)
    requires EmailPresent(rows, email)
    ensures InsertedRows(rows, name, email, subscribed, id, now, Answer, insertBackend) == rows
    ensures var r := InsertResult(rows, name, email, subscribed, id, now, Answer, insertBackend);
      !r.success && r.data.None? && r.error == Some(UnexpectedError) && r.error != Some(DuplicateEmail)
  {
    StringErrorLosesText(DuplicateEmail);
  }

  /** When the pre-check is answered, inserting keeps emails unique. */
  lemma InsertKeepsEmailsUnique(rows: seq<Subscriber>, name: string, email: string, subscribed: bool,
                                id: string, now: string, insertBackend: Backend)
    requires UniqueEmails(rows)
    ensures UniqueEmails(InsertedRows(rows, name, email, subscribed, id, now, Answer, insertBackend))
  {
    var rows' := InsertedRows(rows, name, email, subscribed, id, now, Answer, insertBackend);
    if rows' != rows {
      assert !EmailPresent(rows, email);
      forall i, j | 0 <= i < j < |rows'| ensures rows'[i].email != rows'[j].email {
        if j == |rows| {
          assert rows'[i] == rows[i];
        }
      }
    }
  }

  /** A pre-check that fails with an error reads as "not present", so the
      insert goes ahead even when the email is already in the table. */
  lemma FailedCheckAdmitsDuplicate(rows: seq<Subscriber>, name: string, email: string, subscribed: bool,
                                   id: string, now: string, err: Thrown)
    requires EmailPresent(rows, email)
    ensures var rows' := InsertedRows(rows, name, email, subscribed, id, now, Fails(err), Answer);
      !UniqueEmails(rows')
  {
    var rows' := InsertedRows(rows, name, email, subscribed, id, now, Fails(err), Answer);
    var k :| 0 <= k < |rows| && rows[k].email == email;
    assert rows'[k].email == rows'[|rows|].email;
  }

  // ---- properties of updateSubscriberStatus ----

  /** Only the flag changes, only on rows carrying this email. */
  lemma UpdateChangesOnlyFlag(rows: seq<Subscriber>, email: string, subscribed: bool, i: int)
    requires 0 <= i < |rows|
    ensures var u := UpdatedRows(rows, email, subscribed)[i];
      u.id == rows[i].id && u.name == rows[i].name && u.email == rows[i].email
      && u.createdAt == rows[i].createdAt && u.updatedAt == rows[i].updatedAt
      && (rows[i].email == email ==> u.subscribedToUpdates == subscribed)
      && (rows[i].email != email ==> u == rows[i])
  {
  }

  /** With unique emails the update succeeds exactly when the email is
      present, and returns the updated row. */
  lemma {:induction false} UpdateResultMeaning(rows: seq<Subscriber>, email: string, subscribed: bool)
    requires UniqueEmails(rows)
    ensures var r := UpdateResult(rows, email, subscribed, Answer);
      (r.success <==> EmailPresent(rows, email))
      && (r.success ==> r.data.Some? && r.data.value.email == email && r.data.value.subscribedToUpdates == subscribed
                        && r.data.value in UpdatedRows(rows, email, subscribed))
  {
    MatchCountPresent(rows, email);
    if EmailPresent(rows, email) {
      var i := FirstMatch(rows, email);
      UniqueMatchCount(rows, email, i);
      assert UpdatedRows(rows, email, subscribed)[i] == rows[i].(subscribedToUpdates := subscribed);
    }
  }

  /** In a table with unique emails an email occurs at most once. */
  lemma {:induction false} UniqueMatchCount(rows: seq<Subscriber>, email: string, i: int)
    requires UniqueEmails(rows)
    requires 0 <= i < |rows| && rows[i].email == email
    ensures MatchCount(rows, email) == 1
  {
    if i == 0 {
      NoMatchAfter(rows[1..], email);
    } else {
      assert rows[0].email != email;
      UniqueMatchCount(rows[1..], email, i - 1);
    }
  }

  lemma {:induction false} NoMatchAfter(rows: seq<Subscriber>, email: string)
    requires forall k :: 0 <= k < |rows| ==> rows[k].email != email
    ensures MatchCount(rows, email) == 0
  {
    if rows != [] {
      NoMatchAfter(rows[1..], email);
    }
  }
}
