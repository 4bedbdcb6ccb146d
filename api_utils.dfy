/** The API helpers (vibe-coding-landing/src/lib/api-utils.ts): response
    builders, error classification, the module-level fixed-window rate
    limiter, and the order in which `withApiHandler` applies CORS, the method
    check and the rate limit around a route handler. A response is modelled
    as status, body and whether the CORS headers were set. */
module ApiUtils {
  import opened Types
  import opened Strings
  import opened Records

  const OkStatus := 200

  /** `createSuccessResponse`: `{success: true, data, message}` with status 200. */
  function CreateSuccessResponse(data: Payload, message: string): (r: Response)
    ensures r.status == OkStatus && r.IsSuccess() && !r.corsHeaders
    ensures r.body.data == data && r.body.message == message
  {
    Response(OkStatus, SuccessBody(data, message), false)
  }

  /** `createErrorResponse`: `{success: false, error}`, status 400 unless given. */
  function CreateErrorResponse(error: string, status: int := 400): (r: Response)
    ensures r.status == status && !r.IsSuccess() && r.body == ErrorBody(error) && !r.corsHeaders
  {
    Response(status, ErrorBody(error), false)
  }

  const InvalidInput := "Invalid input data"
  const InternalError := "Internal server error"
  const TooManyRequests := "Too many requests. Please try again later."

  /** `handleDatabaseError`: classify an error by the words in its message.
      None stands for the TypeError raised when the error itself is null or
      undefined; a value without a message is a server error. */
  function HandleDatabaseError(error: Thrown): (r: Option<Response>)
    ensures r.None? <==> error.Undefined? || error.Null?
    ensures r.Some? ==> !r.value.IsSuccess() && r.value.status in {409, 400, 500}
  {
    match error
    case Undefined => None
    case Null => None
    case Str(_) => Some(CreateErrorResponse(InternalError, 500))
    case Obj(message, _, _, _, _) =>
      if Includes(message, "duplicate") then Some(CreateErrorResponse(DuplicateEmail, 409))
      else if Includes(message, "validation") then Some(CreateErrorResponse(InvalidInput, 400))
      else Some(CreateErrorResponse(InternalError, 500))
  }

  /** The status follows the message: "duplicate" anywhere gives 409 even
      when "validation" occurs too, "validation" alone gives 400, anything
      else 500. */
  lemma DatabaseErrorStatus(message: string, details: Option<string>, hint: Option<string>, code: Option<string>, text: string)
    ensures var r := HandleDatabaseError(Obj(message, details, hint, code, text));
      r.Some?
      && (r.value.status == 409 <==> Includes(message, "duplicate"))
      && (r.value.status == 400 <==> !Includes(message, "duplicate") && Includes(message, "validation"))
      && (r.value.status == 500 <==> !Includes(message, "duplicate") && !Includes(message, "validation"))
  {
  }

  /** A message with "duplicate" after a "validation" still counts as a conflict. */
  lemma DuplicateTakesPrecedence()
    ensures HandleDatabaseError(Obj("validation failed: duplicate key", None, None, None, "")).value.status == 409
  {
    assert OccursAt("validation failed: duplicate key", "duplicate", 19);
  }

  /** `handleValidationError`: the values of the error map, in key order,
      joined by ", ", as a 400 response. */
  function HandleValidationError(errors: Record): (r: Response)
    ensures r.status == 400 && r.body == ErrorBody(Join(Values(errors), ", "))
  {
    CreateErrorResponse(Join(Values(errors), ", "), 400)
  }

  /** `handleRateLimitError` */
  function HandleRateLimitError(): (r: Response)
    ensures r.status == 429 && r.body == ErrorBody(TooManyRequests)
  {
    CreateErrorResponse(TooManyRequests, 429)
  }

  /** `validateRequestMethod`: a 405 exactly when the request's method is not
      the expected one (an absent expected method matches nothing). */
  function ValidateRequestMethod(requestMethod: string, expected: Option<string>): (r: Option<Response>)
    ensures r.None? <==> expected == Some(requestMethod)
    ensures r.Some? ==> r.value.status == 405 && r.value.body == ErrorBody("Method " + requestMethod + " not allowed")
  {
    if expected != Some(requestMethod) then Some(CreateErrorResponse("Method " + requestMethod + " not allowed", 405))
    else None
  }

  /** `setCorsHeaders` */
  function SetCorsHeaders(response: Response): (r: Response)
    ensures r.status == response.status && r.body == response.body && r.corsHeaders
  {
    response.(corsHeaders := true)
  }

  /** `handleCors`: an OPTIONS request gets an empty 200 with the CORS headers. */
  function HandleCors(requestMethod: string): (r: Option<Response>)
    ensures r.Some? <==> requestMethod == "OPTIONS"
    ensures r.Some? ==> r.value == Response(200, NoBody, true)
  {
    if requestMethod == "OPTIONS" then Some(SetCorsHeaders(Response(200, NoBody, false))) else None
  }

  // ---- rate limiting ----

  /** One identifier's window: calls counted so far and when the window ends. */
  datatype RateRecord = RateRecord(count: int, resetTime: int)

  const DefaultLimit := 5
  const DefaultWindowMs := 60000

  /** The store after `checkRateLimit(identifier)` at time `now`. */
  function RateStore(store: map<string, RateRecord>, identifier: string, now: int, limit: int, windowMs: int): map<string, RateRecord> {
    if identifier !in store || now > store[identifier].resetTime then
      store[identifier := RateRecord(1, now + windowMs)]
    else if store[identifier].count >= limit then store
    else store[identifier := store[identifier].(count := store[identifier].count + 1)]
  }

  /** Whether `checkRateLimit(identifier)` at time `now` lets the call through. */
  function RateAllowed(store: map<string, RateRecord>, identifier: string, now: int, limit: int): bool {
    identifier !in store || now > store[identifier].resetTime || store[identifier].count < limit
  }

  /** `getRateLimitInfo` over a store: reported against the default limit of 5. */
  function RateInfo(store: map<string, RateRecord>, identifier: string): (r: Option<RateLimitInfo>)
    ensures r.None? <==> identifier !in store
    ensures r.Some? ==> r.value.limit == DefaultLimit && r.value.reset == store[identifier].resetTime
                        && r.value.remaining >= 0
    ensures r.Some? ==> (r.value.remaining == 0 <==> store[identifier].count >= DefaultLimit)
    ensures r.Some? && store[identifier].count < DefaultLimit ==> r.value.remaining == DefaultLimit - store[identifier].count
  {
    if identifier !in store then None
    else
      var record := store[identifier];
      Some(RateLimitInfo(if DefaultLimit - record.count > 0 then DefaultLimit - record.count else 0,
                         record.resetTime, DefaultLimit))
  }

  /** The module-level `rateLimitStore`. */
  class RateLimiter {
    var store: map<string, RateRecord>

    constructor()
      ensures store == map[]
    {
      store := map[];
    }

    /** `checkRateLimit` */
    method CheckRateLimit(identifier: string, now: int, limit: int := DefaultLimit, windowMs: int := DefaultWindowMs)
      returns (allowed: bool)
      modifies this
      ensures allowed == RateAllowed(old(store), identifier, now, limit)
      ensures store == RateStore(old(store), identifier, now, limit, windowMs)
    {
      if identifier !in store || now > store[identifier].resetTime {
        store := store[identifier := RateRecord(1, now + windowMs)];
        return true;
      }
      var record := store[identifier];
      if record.count >= limit {
        return false;
      }
      store := store[identifier := record.(count := record.count + 1)];
      return true;
    }

    /** `getRateLimitInfo` */
    function GetRateLimitInfo(identifier: string): (r: Option<RateLimitInfo>)
      reads this
      ensures r == RateInfo(store, identifier)
    {
      RateInfo(store, identifier)
    }
  }

  /** An unseen identifier, or one whose window has passed, starts a new
      window with one call counted, and the call is allowed. */
  lemma RateNewWindow(store: map<string, RateRecord>, identifier: string, now: int, limit: int, windowMs: int)
    requires identifier !in store || now > store[identifier].resetTime
    ensures RateAllowed(store, identifier, now, limit)
    ensures RateStore(store, identifier, now, limit, windowMs)[identifier] == RateRecord(1, now + windowMs)
  {
  }

  /** Inside a window (the reset time itself included) a call is allowed
      exactly while fewer than `limit` are counted; an allowed call adds one,
      a refused one changes nothing. */
  lemma RateWithinWindow(store: map<string, RateRecord>, identifier: string, now: int, limit: int, windowMs: int)
    requires identifier in store && now <= store[identifier].resetTime
    ensures RateAllowed(store, identifier, now, limit) <==> store[identifier].count < limit
    ensures !RateAllowed(store, identifier, now, limit) ==> RateStore(store, identifier, now, limit, windowMs) == store
    ensures RateAllowed(store, identifier, now, limit) ==>
      RateStore(store, identifier, now, limit, windowMs)[identifier]
        == RateRecord(store[identifier].count + 1, store[identifier].resetTime)
  {
  }

  /** Records of other identifiers are never touched, and nothing is removed. */
  lemma RateOthersUnchanged(store: map<string, RateRecord>, identifier: string, now: int, limit: int, windowMs: int)
    ensures var store' := RateStore(store, identifier, now, limit, windowMs);
      store'.Keys == store.Keys + {identifier}
      && forall j :: j in store && j != identifier ==> store'[j] == store[j]
  {
  }

  /** Every record ever stored has counted at least one call. */
  ghost predicate CountsPositive(store: map<string, RateRecord>) {
    forall j :: j in store ==> store[j].count >= 1
  }

  lemma RateKeepsCountsPositive(store: map<string, RateRecord>, identifier: string, now: int, limit: int, windowMs: int)
    requires CountsPositive(store)
    ensures CountsPositive(RateStore(store, identifier, now, limit, windowMs))
  {
  }

  /** How many of a series of calls for one identifier are allowed. */
  function AllowedCalls(store: map<string, RateRecord>, identifier: string, nows: seq<int>, limit: int, windowMs: int): nat
    decreases |nows|
  {
    if nows == [] then 0
    else
      (if RateAllowed(store, identifier, nows[0], limit) then 1 else 0)
      + AllowedCalls(RateStore(store, identifier, nows[0], limit, windowMs), identifier, nows[1..], limit, windowMs)
  }

  /** Calls that all fall inside the current window are allowed at most as
      many times as the limit has room left. */
  lemma {:induction false} WindowRoom(store: map<string, RateRecord>, identifier: string, nows: seq<int>, limit: int, windowMs: int)
    requires identifier in store
    requires forall k :: 0 <= k < |nows| ==> nows[k] <= store[identifier].resetTime
    ensures AllowedCalls(store, identifier, nows, limit, windowMs)
            <= if limit - store[identifier].count > 0 then limit - store[identifier].count else 0
  {
    if nows != [] {
      var store' := RateStore(store, identifier, nows[0], limit, windowMs);
      assert store'[identifier].resetTime == store[identifier].resetTime;
      WindowRoom(store', identifier, nows[1..], limit, windowMs);
    }
  }

  /** Between two window resets at most `limit` calls (at least the first)
      are allowed: all calls up to the reset time set by the first count
      against the same window. With the defaults that is 5 calls a minute. */
  lemma WindowBound(store: map<string, RateRecord>, identifier: string, nows: seq<int>, limit: int, windowMs: int)
    requires |nows| > 0
    requires identifier !in store || nows[0] > store[identifier].resetTime
    requires forall k :: 0 <= k < |nows| ==> nows[k] <= nows[0] + windowMs
    ensures AllowedCalls(store, identifier, nows, limit, windowMs) <= if limit > 1 then limit else 1
  {
    var store' := RateStore(store, identifier, nows[0], limit, windowMs);
    WindowRoom(store', identifier, nows[1..], limit, windowMs);
  }

  /** With the default limit, inside a window `getRateLimitInfo` reports room
      left exactly when the next call would be allowed. */
  lemma InfoMatchesDecision(store: map<string, RateRecord>, identifier: string, now: int)
    requires identifier in store && now <= store[identifier].resetTime
    ensures RateInfo(store, identifier).value.remaining > 0 <==> RateAllowed(store, identifier, now, DefaultLimit)
  {
  }

  // ---- withApiHandler ----

  /** The parts of a request the middleware looks at. */
  datatype Request = Request(verb: string, ip: Option<string>, forwardedFor: Option<string>)

  /** `request.ip || request.headers.get('x-forwarded-for') || 'unknown'` */
  function ClientIp(request: Request): (id: string)
    ensures id != ""
    ensures request.ip.Some? && request.ip.value != "" ==> id == request.ip.value
    ensures (request.ip.None? || request.ip.value == "") && request.forwardedFor.Some? && request.forwardedFor.value != ""
            ==> id == request.forwardedFor.value
    ensures (request.ip.None? || request.ip.value == "") && (request.forwardedFor.None? || request.forwardedFor.value == "")
            ==> id == "unknown"
  {
    if request.ip.Some? && request.ip.value != "" then request.ip.value
    else if request.forwardedFor.Some? && request.forwardedFor.value != "" then request.forwardedFor.value
    else "unknown"
  }

  datatype ApiOptions = ApiOptions(methods: Option<seq<string>>, cors: bool, rateLimit: bool)

  /** The method `withApiHandler` checks against: only the first listed. */
  function ExpectedMethod(methods: seq<string>): Option<string> {
    if |methods| > 0 then Some(methods[0]) else None
  }

  /** The answer given before the route handler runs, if any: the CORS
      preflight, then a wrong method, then a rate-limit denial. */
  function GateResponse(store: map<string, RateRecord>, options: ApiOptions, request: Request, now: int): Option<Response> {
    if options.cors && HandleCors(request.verb).Some? then HandleCors(request.verb)
    else if options.methods.Some? && ValidateRequestMethod(request.verb, ExpectedMethod(options.methods.value)).Some? then
      ValidateRequestMethod(request.verb, ExpectedMethod(options.methods.value))
    else if options.rateLimit && !RateAllowed(store, ClientIp(request), now, DefaultLimit) then Some(HandleRateLimitError())
    else None
  }

  /** The rate-limit store after the gate: a call is counted only when the
      request got as far as the rate limit. */
  function GateStore(store: map<string, RateRecord>, options: ApiOptions, request: Request, now: int): map<string, RateRecord> {
    if options.cors && request.verb == "OPTIONS" then store
    else if options.methods.Some? && ExpectedMethod(options.methods.value) != Some(request.verb) then store
    else if options.rateLimit then RateStore(store, ClientIp(request), now, DefaultLimit, DefaultWindowMs)
    else store
  }

  /** What the wrapped route handler did. */
  datatype HandlerOutcome = Responds(response: Response) | Threw

  /** The handler's response, with the CORS headers when enabled; a throw is a 500. */
  function FinishResponse(options: ApiOptions, outcome: HandlerOutcome): (r: Response)
    ensures outcome.Threw? ==> r == CreateErrorResponse(InternalError, 500)
    ensures outcome.Responds? ==> r.status == outcome.response.status && r.body == outcome.response.body
    ensures outcome.Responds? && options.cors ==> r.corsHeaders
    ensures outcome.Responds? && !options.cors ==> r == outcome.response
  {
    match outcome
    case Threw => CreateErrorResponse(InternalError, 500)
    case Responds(response) => if options.cors then SetCorsHeaders(response) else response
  }

  /** The checks `withApiHandler` makes before calling the handler; `None`
      means the handler is to be called. */
  method Gate(limiter: RateLimiter, options: ApiOptions, request: Request, now: int) returns (early: Option<Response>)
    modifies limiter
    ensures early == GateResponse(old(limiter.store), options, request, now)
    ensures limiter.store == GateStore(old(limiter.store), options, request, now)
  {
    if options.cors {
      var corsResponse := HandleCors(request.verb);
      if corsResponse.Some? {
        return corsResponse;
      }
    }
    if options.methods.Some? {
      var methodError := ValidateRequestMethod(request.verb, ExpectedMethod(options.methods.value));
      if methodError.Some? {
        return methodError;
      }
    }
    if options.rateLimit {
      var clientIp := ClientIp(request);
      var allowed := limiter.CheckRateLimit(clientIp, now);
      if !allowed {
        return Some(HandleRateLimitError());
      }
    }
    return None;
  }

  /** With CORS on, a preflight is answered before any other check and
      does not use up the rate limit. */
  lemma PreflightFirst(store: map<string, RateRecord>, options: ApiOptions, request: Request, now: int)
    requires options.cors && request.verb == "OPTIONS"
    ensures GateResponse(store, options, request, now) == Some(Response(200, NoBody, true))
    ensures GateStore(store, options, request, now) == store
  {
  }

  /** A request with the wrong method gets a 405 without CORS headers and
      does not use up the rate limit. */
  lemma WrongMethodRefused(store: map<string, RateRecord>, options: ApiOptions, request: Request, now: int)
    requires !(options.cors && request.verb == "OPTIONS")
    requires options.methods.Some? && ExpectedMethod(options.methods.value) != Some(request.verb)
    ensures var r := GateResponse(store, options, request, now);
      r.Some? && r.value.status == 405 && !r.value.corsHeaders
    ensures GateStore(store, options, request, now) == store
  {
  }

  /** The handler runs only when the method is the first listed one (or no
      list is given) and the rate limit let the call through; a denial is a
      429 without CORS headers. */
  lemma HandlerRunsOnlyWhenAdmitted(store: map<string, RateRecord>, options: ApiOptions, request: Request, now: int)
    ensures var r := GateResponse(store, options, request, now);
      (r.None? <==>
        !(options.cors && request.verb == "OPTIONS")
        && (options.methods.Some? ==> ExpectedMethod(options.methods.value) == Some(request.verb))
        && (options.rateLimit ==> RateAllowed(store, ClientIp(request), now, DefaultLimit)))
      && (r.Some? && r.value.status == 429 ==> r.value == HandleRateLimitError() && !r.value.corsHeaders)
  {
  }

  /** An empty method list refuses every method except a CORS preflight. */
  lemma EmptyMethodListRefusesAll(store: map<string, RateRecord>, request: Request, now: int, cors: bool, rateLimit: bool)
    requires !(cors && request.verb == "OPTIONS")
    ensures GateResponse(store, ApiOptions(Some([]), cors, rateLimit), request, now).value.status == 405
  {
  }
}
