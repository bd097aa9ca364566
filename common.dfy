/** Outcomes shared by every request handler of the backend. */
module Common {

  /** Document identities. The store hands out fresh ones from a counter. */
  type UserId = nat
  type BookingId = nat
  type ReviewId = nat

  /** A value that may be absent (an undefined or null document field). */
  datatype Option<+T> = None | Some(value: T)

  /** The HTTP error classes the handlers answer with. */
  datatype Failure =
    | BadRequest   // 400: missing or malformed input, or a state precondition that fails
    | NotFound     // 404: the referenced document does not exist
    | ServerError  // 500: an exception thrown inside the handler

  /** What a handler answers: a success carrying a value, or an error status. */
  datatype Result<+T> = Ok(value: T) | Err(failure: Failure)

  /** No element occurs twice. */
  predicate NoDuplicates<T(==)>(s: seq<T>) {
    forall i, j :: 0 <= i < j < |s| ==> s[i] != s[j]
  }

  /** Appending an element not yet present keeps a sequence free of repeats. */
  lemma NoDuplicatesAppend<T>(s: seq<T>, x: T)
    requires NoDuplicates(s) && x !in s
    ensures NoDuplicates(s + [x])
  {
    var t := s + [x];
    forall i, j | 0 <= i < j < |t| ensures t[i] != t[j] {
      if j == |s| { assert t[i] in s; }
    }
  }
}
