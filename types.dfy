/** Value types shared by the whole model: the records declared in the
    repository's type files (database rows, validation results, form data,
    API responses), plus an Option type standing for JavaScript's null. */
module Types {

  datatype Option<T> = None | Some(value: T) {
    /** The value, or `default` when there is none. */
    function GetOr(default: T): T {
      match this
      case Some(v) => v
      case None => default
    }
  }

  /** A validation failure tagged with the form field it concerns. */
  datatype ValidationError = ValidationError(field: string, message: string)

  /** The result of one of the validators: a flag and the errors in the order found. */
  datatype ValidationResult = ValidationResult(isValid: bool, errors: seq<ValidationError>)

  /** Subscriber data as given to the validators; the opt-in flag may be missing. */
  datatype SubscriberFormData = SubscriberFormData(name: string, email: string, subscribedToUpdates: Option<bool>)

  /** The form data the client hooks pass around. */
  datatype FormData = FormData(name: string, email: string, subscribed: bool)

  /** The JSON body of a subscribe request; `subscribed` may be absent. */
  datatype SubscribeRequest = SubscribeRequest(name: string, email: string, subscribed: Option<bool>)

  /** A row of the subscribers table. */
  datatype Subscriber = Subscriber(
    id: string,
    name: string,
    email: string,
    subscribedToUpdates: bool,
    createdAt: string,
    updatedAt: string)

  /** The uniform result every database operation is normalised to. */
  datatype DbResult<T> = DbResult(data: Option<T>, error: Option<string>, success: bool)

  /** The rate-limit summary reported for one identifier. */
  datatype RateLimitInfo = RateLimitInfo(remaining: int, reset: int, limit: int)

  /** The `data` part of a success response. */
  datatype Payload = CountData(count: int) | IdData(id: Option<string>)

  /** A JSON response body (`{success, data, message}` or `{success: false, error}`),
      or no body at all (a CORS preflight answer). */
  datatype Body =
    | NoBody
    | SuccessBody(data: Payload, message: string)
    | ErrorBody(error: string)

  /** An HTTP response: status, body, and whether the CORS headers were set on it. */
  datatype Response = Response(status: int, body: Body, corsHeaders: bool) {
    predicate IsSuccess() { body.SuccessBody? }
  }

  /** A JavaScript value thrown or returned as an error. `text` of an object is
      what its `toString()` gives; `message` is "" when the object has none. */
  datatype Thrown =
    | Undefined
    | Null
    | Str(s: string)
    | Obj(message: string, details: Option<string>, hint: Option<string>, code: Option<string>, text: string)
  {
    /** JavaScript truthiness of the value. */
    predicate Truthy() {
      match this
      case Undefined => false
      case Null => false
      case Str(s) => s != ""
      case Obj(_, _, _, _, _) => true
    }
  }

  /** The message every layer uses for an email that is already subscribed. */
  const DuplicateEmail := "This email is already subscribed"

  /** What the external database service does with one request: it answers,
      it answers with an error object, or the call throws. */
  datatype Backend = Answer | Fails(err: Thrown) | Throws(exc: Thrown)
}
