/** `handleSupabaseError` (vibe-coding-landing/src/lib/supabase.ts): turns
    whatever the database client returned or threw as an error into a record
    with a message. The client itself is not part of this model. */
module Supabase {
  import opened Types

  datatype SupabaseError = SupabaseError(
    message: string,
    details: Option<string>,
    hint: Option<string>,
    code: Option<string>)

  const UnexpectedError := "An unexpected error occurred"
  const UnknownError := "Unknown error"

  /** `error?.toString()`: nothing for null and undefined. */
  function ToStringOf(e: Thrown): Option<string> {
    match e
    case Undefined => None
    case Null => None
    case Str(s) => Some(s)
    case Obj(_, _, _, _, text) => Some(text)
  }

  /** Whether `error?.message` is truthy: only objects have a message, and an
      empty one is falsy. */
  predicate HasMessage(e: Thrown) {
    e.Obj? && e.message != ""
  }

  function HandleSupabaseError(e: Thrown): (r: SupabaseError)
    ensures HasMessage(e) ==> r == SupabaseError(e.message, e.details, e.hint, e.code)
    ensures !HasMessage(e) ==> r.message == UnexpectedError && r.hint.None? && r.code.None?
    ensures !HasMessage(e) && ToStringOf(e).Some? && ToStringOf(e).value != "" ==> r.details == ToStringOf(e)
    ensures !HasMessage(e) && (ToStringOf(e).None? || ToStringOf(e).value == "") ==> r.details == Some(UnknownError)
  {
    if HasMessage(e) then
      SupabaseError(e.message, e.details, e.hint, e.code)
    else
      var text := ToStringOf(e);
      SupabaseError(UnexpectedError, Some(if text.Some? && text.value != "" then text.value else UnknownError), None, None)
  }

  /** The normalised message is never empty, so it is always a truthy error. */
  lemma MessageNonEmpty(e: Thrown)
    ensures HandleSupabaseError(e).message != ""
  {
  }

  /** A bare string thrown or returned as an error loses its text: the
      message is the generic one and the text survives only in `details`. */
  lemma StringErrorLosesText(s: string)
    ensures HandleSupabaseError(Str(s)).message == UnexpectedError
    ensures s != "" ==> HandleSupabaseError(Str(s)).details == Some(s)
  {
  }
}
