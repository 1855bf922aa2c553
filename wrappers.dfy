/** Result types shared by every module of the model. */
module Wrappers {

  datatype Option<+T> = None | Some(value: T)

  /** What a route produces: a value, or the HTTP error it raises (status code and detail text). */
  datatype Outcome<+T> = Ok(value: T) | Err(status: int, detail: string)

  /** A route's reply `r` and the stored state `after` are what the transition `step`
      prescribes from `before`: on success its new state is stored and its reply returned;
      on an error nothing is stored and the same error is raised. */
  ghost predicate Settles<S, T>(step: Outcome<(S, T)>, before: S, after: S, r: Outcome<T>)
  {
    match step
    case Ok(v) => after == v.0 && r == Ok(v.1)
    case Err(code, detail) => after == before && r == Err(code, detail)
  }

  /** As `Settles`, for a route that can still fail after it has committed: on success the
      new state is stored and the reply the transition gives (itself possibly an error) is
      returned; on an error nothing is stored. */
  ghost predicate SettlesCommitted<S, T>(step: Outcome<(S, Outcome<T>)>, before: S, after: S, r: Outcome<T>)
  {
    match step
    case Ok(v) => after == v.0 && r == v.1
    case Err(code, detail) => after == before && r == Err(code, detail)
  }
}
