/** The subscribe endpoint (vibe-coding-landing/src/app/api/subscribe/route.ts):
    parse, validate and sanitise, refuse a known email, insert. */
module SubscribeRoute {
  import opened Types
  import opened Strings
  import opened Records
  import opened Validations
  import opened Database
  import opened ApiUtils

  const InvalidJson := "Invalid JSON in request body"
  const CheckFailed := "Failed to check email existence"
  const InsertFailed := "Failed to subscribe. Please try again."
  const Subscribed := "Successfully subscribed to updates!"

  /** The three calls to the database one request can make: the route's
      existence check, the re-check inside `insertSubscriber`, and the insert. */
  datatype SubscribeCalls = SubscribeCalls(check: Backend, recheck: Backend, insert: Backend)

  /** The subscriber data a request body is validated as. */
  function FormDataOf(body: SubscribeRequest): SubscriberFormData {
    SubscriberFormData(body.name, body.email, body.subscribed)
  }

  /** The message of a 400 for invalid input: the last message per field,
      joined in the order the fields first failed. */
  function ErrorMessage(errs: seq<ValidationError>): string {
    Join(Values(PutAll(errs)), ", ")
  }

  /** The response once the input is valid: check, then insert. */
  function StoreResponse(rows: seq<Subscriber>, data: SubscriberFormData, id: string, now: string,
                         calls: SubscribeCalls): Response
  {
    var found := CheckEmailExists(rows, data.email, calls.check);
    if found.error.Some? then CreateErrorResponse(CheckFailed, 500)
    else if found.data == Some(true) then CreateErrorResponse(DuplicateEmail, 409)
    else
      var result := InsertResult(rows, data.name, data.email, data.subscribedToUpdates.GetOr(false), id, now,
                                 calls.recheck, calls.insert);
      if result.error.Some? then CreateErrorResponse(InsertFailed, 500)
      else CreateSuccessResponse(IdData(if result.data.Some? then Some(result.data.value.id) else None), Subscribed)
  }

  /** The table once the input is valid: changed only by the insert, which
      is reached only after an answered check that found nothing. */
  function StoreRows(rows: seq<Subscriber>, data: SubscriberFormData, id: string, now: string,
                     calls: SubscribeCalls): seq<Subscriber>
  {
    var found := CheckEmailExists(rows, data.email, calls.check);
    if found.error.Some? || found.data == Some(true) then rows
    else InsertedRows(rows, data.name, data.email, data.subscribedToUpdates.GetOr(false), id, now,
                      calls.recheck, calls.insert)
  }

  /** The response of `subscribeHandler` for sanitised data. */
  ghost function SanitizedResponse(rows: seq<Subscriber>, data: SubscriberFormData, id: string, now: string,
                                   calls: SubscribeCalls): Response
  {
    if FormErrors(data) != [] then CreateErrorResponse(ErrorMessage(FormErrors(data)), 400)
    else StoreResponse(rows, data, id, now, calls)
  }

  /** The response of `subscribeHandler`; `body` is None when the request
      body is not valid JSON. */
  ghost function SubscribeResponse(rows: seq<Subscriber>, body: Option<SubscribeRequest>,
                                   id: string, now: string, calls: SubscribeCalls): Response
  {
    if body.None? then CreateErrorResponse(InvalidJson, 400)
    else SanitizedResponse(rows, Sanitized(FormDataOf(body.value)), id, now, calls)
  }

  /** The table after `subscribeHandler`. */
  ghost function SubscribeRows(rows: seq<Subscriber>, body: Option<SubscribeRequest>,
                               id: string, now: string, calls: SubscribeCalls): seq<Subscriber>
  {
    if body.None? then rows
    else
      var data := Sanitized(FormDataOf(body.value));
      if FormErrors(data) != [] then rows else StoreRows(rows, data, id, now, calls)
  }

  /** `subscribeHandler` */
  method SubscribeHandler(table: SubscriberTable, body: Option<SubscribeRequest>, id: string, now: string,
                          calls: SubscribeCalls)
    returns (response: Response)
    modifies table
    ensures response == SubscribeResponse(old(table.rows), body, id, now, calls)
    ensures table.rows == SubscribeRows(old(table.rows), body, id, now, calls)
  {
    if body.None? {
      return CreateErrorResponse(InvalidJson, 400);
    }
    var request := body.value;
    var validation := ValidateAndSanitizeSubscriber(SubscriberFormData(request.name, request.email, request.subscribed));
    assert SubscriberFormData(request.name, request.email, request.subscribed) == FormDataOf(request);
    if !validation.isValid {
      var errors := CollectErrors(validation.errors);
      return CreateErrorResponse(Join(Values(errors), ", "), 400);
    }
    response := Store(table, validation.sanitizedData, id, now, calls);
  }

  /** The part of `subscribeHandler` after validation. */
  method Store(table: SubscriberTable, data: SubscriberFormData, id: string, now: string, calls: SubscribeCalls)
    returns (response: Response)
    modifies table
    ensures response == StoreResponse(old(table.rows), data, id, now, calls)
    ensures table.rows == StoreRows(old(table.rows), data, id, now, calls)
  {
    var emailExistsResult := CheckEmailExists(table.rows, data.email, calls.check);
    if emailExistsResult.error.Some? {
      return CreateErrorResponse(CheckFailed, 500);
    }
    if emailExistsResult.data == Some(true) {
      return CreateErrorResponse(DuplicateEmail, 409);
    }
    var result := table.InsertSubscriber(data.name, data.email, data.subscribedToUpdates.GetOr(false), id, now,
                                         calls.recheck, calls.insert);
    if result.error.Some? {
      return CreateErrorResponse(InsertFailed, 500);
    }
    return CreateSuccessResponse(IdData(if result.data.Some? then Some(result.data.value.id) else None), Subscribed);
  }

  /** All database calls answered. */
  const Answered := SubscribeCalls(Answer, Answer, Answer)

  /** Invalid input is a 400 and the table is untouched. */
  lemma InvalidInputRefused(rows: seq<Subscriber>, body: SubscribeRequest, id: string, now: string, calls: SubscribeCalls)
    requires FormErrors(Sanitized(FormDataOf(body))) != []
    ensures SubscribeResponse(rows, Some(body), id, now, calls)
            == CreateErrorResponse(ErrorMessage(FormErrors(Sanitized(FormDataOf(body)))), 400)
    ensures SubscribeRows(rows, Some(body), id, now, calls) == rows
  {
  }

  /** When both fields fail, the 400 message is the last name message, a
      comma, and the last email message: earlier messages of a field are
      overwritten in the error map. */
  lemma BothFieldsMessage(name: string, email: string)
    requires NameErrors(name) != [] && EmailErrors(email) != []
    ensures ErrorMessage(NameErrors(name) + EmailErrors(email))
            == NameErrors(name)[|NameErrors(name)| - 1].message + ", " + EmailErrors(email)[|EmailErrors(email)| - 1].message
  {
    NameErrorsMeaning(name);
    EmailErrorsMeaning(email);
    TwoFieldsMessage(NameErrors(name), EmailErrors(email));
  }

  /** Name errors followed by email errors give the message of the last of
      each, joined by a comma. */
  lemma {:induction false} TwoFieldsMessage(ne: seq<ValidationError>, ee: seq<ValidationError>)
    requires ne != [] && ee != []
    requires forall k :: 0 <= k < |ne| ==> ne[k].field == "name"
    requires forall k :: 0 <= k < |ee| ==> ee[k].field == "email"
    ensures ErrorMessage(ne + ee) == ne[|ne| - 1].message + ", " + ee[|ee| - 1].message
  {
    var a, b := ne[|ne| - 1].message, ee[|ee| - 1].message;
    PutAllTwoFields(ne, ee);
    assert Values([("name", a), ("email", b)]) == [a, b];
    assert Join([a, b], ", ") == a + ", " + b by {
      assert [a, b][1..] == [b];
    }
  }

  /** Errors of one field leave one entry: that field with its last message. */
  lemma {:induction false} PutAllOneField(ne: seq<ValidationError>, field: string)
    requires ne != []
    requires forall k :: 0 <= k < |ne| ==> ne[k].field == field
    ensures PutAll(ne) == [(field, ne[|ne| - 1].message)]
  {
    var init := ne[..|ne| - 1];
    if init != [] {
      PutAllOneField(init, field);
      assert init[|init| - 1] == ne[|ne| - 2];
    }
  }

  /** Name errors followed by email errors leave two entries, name first,
      each with the last message of its field. */
  lemma {:induction false} PutAllTwoFields(ne: seq<ValidationError>, ee: seq<ValidationError>)
    requires ne != [] && ee != []
    requires forall k :: 0 <= k < |ne| ==> ne[k].field == "name"
    requires forall k :: 0 <= k < |ee| ==> ee[k].field == "email"
    ensures PutAll(ne + ee) == [("name", ne[|ne| - 1].message), ("email", ee[|ee| - 1].message)]
  {
    var a, b := ne[|ne| - 1].message, ee[|ee| - 1].message;
    var init := ee[..|ee| - 1];
    assert ne + ee == (ne + init) + [ee[|ee| - 1]];
    PutAllSnoc(ne + init, ee[|ee| - 1]);
    if init == [] {
      assert ne + init == ne;
      PutAllOneField(ne, "name");
      PutSecondKey(a, b);
    } else {
      PutAllTwoFields(ne, init);
      assert init[|init| - 1] == ee[|ee| - 2];
      PutSecondKeyAgain(a, init[|init| - 1].message, b);
    }
  }

  /** One more error puts its field and message. */
  lemma PutAllSnoc(init: seq<ValidationError>, e: ValidationError)
    ensures PutAll(init + [e]) == Put(PutAll(init), e.field, e.message)
  {
    assert (init + [e])[..|init + [e]| - 1] == init;
  }

  lemma PutSecondKey(a: string, b: string)
    ensures Put([("name", a)], "email", b) == [("name", a), ("email", b)]
  {
    assert Put([("name", a)], "email", b) == [("name", a)] + Put([], "email", b);
  }

  lemma PutSecondKeyAgain(a: string, m: string, b: string)
    ensures Put([("name", a), ("email", m)], "email", b) == [("name", a), ("email", b)]
  {
    assert [("name", a), ("email", m)][1..] == [("email", m)];
    assert Put([("name", a), ("email", m)], "email", b) == [("name", a)] + Put([("email", m)], "email", b);
  }

  /** A one-character name outside the name characters gets two errors, but the 400
      reports only the character-set one. */
  lemma OneBadCharMessage(name: string, email: string)
    requires |name| == 1 && !NameChar(name[0])
    requires EmailErrors(email) != []
    ensures ErrorMessage(NameErrors(name) + EmailErrors(email))
            == NameInvalidChars.message + ", " + EmailErrors(email)[|EmailErrors(email)| - 1].message
  {
    OneCharInvalidName(name);
    BothFieldsMessage(name, email);
  }

  /** The database sees only the sanitised name and email: two bodies that
      sanitise alike get the same response and leave the same table. */
  lemma SanitisedDataOnly(rows: seq<Subscriber>, a: SubscribeRequest, b: SubscribeRequest, id: string, now: string,
                          calls: SubscribeCalls)
    requires Sanitized(FormDataOf(a)) == Sanitized(FormDataOf(b))
    ensures SubscribeResponse(rows, Some(a), id, now, calls) == SubscribeResponse(rows, Some(b), id, now, calls)
    ensures SubscribeRows(rows, Some(a), id, now, calls) == SubscribeRows(rows, Some(b), id, now, calls)
  {
    var d := Sanitized(FormDataOf(a));
    assert SubscribeResponse(rows, Some(a), id, now, calls) == SanitizedResponse(rows, d, id, now, calls);
    assert SubscribeResponse(rows, Some(b), id, now, calls) == SanitizedResponse(rows, d, id, now, calls);
    assert SubscribeRows(rows, Some(a), id, now, calls) == (if FormErrors(d) != [] then rows else StoreRows(rows, d, id, now, calls));
    assert SubscribeRows(rows, Some(b), id, now, calls) == (if FormErrors(d) != [] then rows else StoreRows(rows, d, id, now, calls));
  }

  /** A failed existence check is a 500 and nothing is inserted. */
  lemma CheckErrorNoInsert(rows: seq<Subscriber>, body: SubscribeRequest, id: string, now: string, calls: SubscribeCalls)
    requires FormErrors(Sanitized(FormDataOf(body))) == []
    requires calls.check.Throws? || (calls.check.Fails? && calls.check.err.Truthy())
    ensures SubscribeResponse(rows, Some(body), id, now, calls) == CreateErrorResponse(CheckFailed, 500)
    ensures SubscribeRows(rows, Some(body), id, now, calls) == rows
  {
  }

  /** A known email is a 409 and the table is unchanged. */
  lemma KnownEmailConflict(rows: seq<Subscriber>, body: SubscribeRequest, id: string, now: string, calls: SubscribeCalls)
    requires FormErrors(Sanitized(FormDataOf(body))) == []
    requires calls.check.Answer? && EmailPresent(rows, CanonicalEmail(body.email))
    ensures SubscribeResponse(rows, Some(body), id, now, calls) == CreateErrorResponse(DuplicateEmail, 409)
    ensures SubscribeRows(rows, Some(body), id, now, calls) == rows
  {
  }

  /** With every call answered, a valid new email is inserted once, with the
      sanitised fields, and the response carries the new id. */
  lemma NewEmailInserted(rows: seq<Subscriber>, body: SubscribeRequest, id: string, now: string)
    requires FormErrors(Sanitized(FormDataOf(body))) == []
    requires !EmailPresent(rows, CanonicalEmail(body.email))
    ensures SubscribeResponse(rows, Some(body), id, now, Answered) == CreateSuccessResponse(IdData(Some(id)), Subscribed)
    ensures SubscribeRows(rows, Some(body), id, now, Answered)
            == rows + [Subscriber(id, SanitizeInput(body.name), CanonicalEmail(body.email), body.subscribed == Some(true), now, now)]
  {
    var d := Sanitized(FormDataOf(body));
    assert d.subscribedToUpdates.GetOr(false) == (body.subscribed == Some(true));
    NewEmailStored(rows, d, id, now);
  }

  /** A valid new email whose insert fails or throws is a 500 "Failed to
      subscribe" and the table is unchanged, whatever the re-check does. */
  lemma InsertErrorRefused(rows: seq<Subscriber>, body: SubscribeRequest, id: string, now: string, calls: SubscribeCalls)
    requires FormErrors(Sanitized(FormDataOf(body))) == []
    requires calls.check.Answer? && !EmailPresent(rows, CanonicalEmail(body.email))
    requires calls.insert.Throws? || (calls.insert.Fails? && calls.insert.err.Truthy())
    ensures SubscribeResponse(rows, Some(body), id, now, calls) == CreateErrorResponse(InsertFailed, 500)
    ensures SubscribeRows(rows, Some(body), id, now, calls) == rows
  {
    var d := Sanitized(FormDataOf(body));
    assert d.email == CanonicalEmail(body.email);
    ValidBodyStored(rows, body, d, id, now, calls);
    InsertFailureStored(rows, d, id, now, calls);
  }

  /** A body that is valid once sanitised goes on to the storing steps. */
  lemma ValidBodyStored(rows: seq<Subscriber>, body: SubscribeRequest, d: SubscriberFormData,
                        id: string, now: string, calls: SubscribeCalls)
    requires d == Sanitized(FormDataOf(body)) && FormErrors(d) == []
    ensures SubscribeResponse(rows, Some(body), id, now, calls) == StoreResponse(rows, d, id, now, calls)
    ensures SubscribeRows(rows, Some(body), id, now, calls) == StoreRows(rows, d, id, now, calls)
  {
  }

  /** Valid data with a new email and a failing insert: nothing is stored. */
  lemma InsertFailureStored(rows: seq<Subscriber>, d: SubscriberFormData, id: string, now: string, calls: SubscribeCalls)
    requires calls.check.Answer? && !EmailPresent(rows, d.email)
    requires calls.insert.Throws? || (calls.insert.Fails? && calls.insert.err.Truthy())
    ensures StoreResponse(rows, d, id, now, calls) == CreateErrorResponse(InsertFailed, 500)
    ensures StoreRows(rows, d, id, now, calls) == rows
  {
    InsertOutcome(rows, d.name, d.email, d.subscribedToUpdates.GetOr(false), id, now, calls.recheck, calls.insert);
  }

  /** Valid data with a new email, every call answered: stored as given. */
  lemma NewEmailStored(rows: seq<Subscriber>, d: SubscriberFormData, id: string, now: string)
    requires !EmailPresent(rows, d.email)
    ensures StoreResponse(rows, d, id, now, Answered) == CreateSuccessResponse(IdData(Some(id)), Subscribed)
    ensures StoreRows(rows, d, id, now, Answered)
            == rows + [Subscriber(id, d.name, d.email, d.subscribedToUpdates.GetOr(false), now, now)]
  {
  }

  /** Two valid subscribes in a row with emails that canonicalise alike:
      the first succeeds, the second gets 409 and adds nothing. */
  lemma SecondSubscribeConflicts(rows: seq<Subscriber>, a: SubscribeRequest, b: SubscribeRequest,
                                 id1: string, id2: string, now1: string, now2: string, calls2: SubscribeCalls)
    requires FormErrors(Sanitized(FormDataOf(a))) == [] && FormErrors(Sanitized(FormDataOf(b))) == []
    requires !EmailPresent(rows, CanonicalEmail(a.email))
    requires CanonicalEmail(a.email) == CanonicalEmail(b.email)
    requires calls2.check.Answer?
    ensures SubscribeResponse(rows, Some(a), id1, now1, Answered).status == 200
    ensures var rows1 := SubscribeRows(rows, Some(a), id1, now1, Answered);
      SubscribeResponse(rows1, Some(b), id2, now2, calls2) == CreateErrorResponse(DuplicateEmail, 409)
      && SubscribeRows(rows1, Some(b), id2, now2, calls2) == rows1
  {
    NewEmailInserted(rows, a, id1, now1);
    var rows1 := SubscribeRows(rows, Some(a), id1, now1, Answered);
    assert rows1[|rows|].email == CanonicalEmail(b.email);
    KnownEmailConflict(rows1, b, id2, now2, calls2);
  }

  /** `POST`: the handler behind CORS, a check for POST and the rate limit. */
  const SubscribeOptions := ApiOptions(Some(["POST"]), true, true)

  method Post(limiter: RateLimiter, table: SubscriberTable, request: Request, now: int,
              body: Option<SubscribeRequest>, id: string, timestamp: string, calls: SubscribeCalls)
    returns (response: Response)
    modifies limiter, table
    ensures limiter.store == GateStore(old(limiter.store), SubscribeOptions, request, now)
    ensures var early := GateResponse(old(limiter.store), SubscribeOptions, request, now);
      early.Some? ==> response == early.value && table.rows == old(table.rows)
    ensures var early := GateResponse(old(limiter.store), SubscribeOptions, request, now);
      early.None? ==>
        response == FinishResponse(SubscribeOptions, Responds(SubscribeResponse(old(table.rows), body, id, timestamp, calls)))
        && table.rows == SubscribeRows(old(table.rows), body, id, timestamp, calls)
  {
    var early := Gate(limiter, SubscribeOptions, request, now);
    if early.Some? {
      return early.value;
    }
    var handled := SubscribeHandler(table, body, id, timestamp, calls);
    response := FinishResponse(SubscribeOptions, Responds(handled));
  }

  /** A rate-limited POST is a 429 and the table is untouched. */
  lemma RateLimitedPostRefused(store: map<string, RateRecord>, request: Request, now: int)
    requires request.verb == "POST"
    requires !RateAllowed(store, ClientIp(request), now, DefaultLimit)
    ensures GateResponse(store, SubscribeOptions, request, now) == Some(HandleRateLimitError())
  {
  }

  /** The route's own `OPTIONS` export: an empty 200 with CORS headers. */
  function SubscribePreflight(): (r: Response)
    ensures r.status == 200 && r.body == NoBody && r.corsHeaders
    ensures HandleCors("OPTIONS") == Some(r)
  {
    Response(200, NoBody, true)
  }

  /** The route's own `OPTIONS` export answers as the wrapped POST handler's
      CORS stage would, without touching the rate-limit store. */
  lemma SubscribePreflightMatchesGate(store: map<string, RateRecord>, request: Request, now: int)
    requires request.verb == "OPTIONS"
    ensures GateResponse(store, SubscribeOptions, request, now) == Some(SubscribePreflight())
    ensures GateStore(store, SubscribeOptions, request, now) == store
  {
    PreflightFirst(store, SubscribeOptions, request, now);
  }
}
