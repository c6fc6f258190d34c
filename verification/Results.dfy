/** The two result shapes the services share: a lookup that may find nothing, and a call that may raise. */
module Results {
  datatype Option<+T> = None | Some(value: T)

  /** What was given, unless nothing or an empty text was. */
  function OrElse(given: Option<string>, own: string): string {
    if given.Some? && given.value != "" then given.value else own
  }

  /** `Refused` is a raised error: the surrounding transaction rolls back, so nothing has changed. */
  datatype Outcome<+T> = Done(value: T) | Refused(reason: string)
}
