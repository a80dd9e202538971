/** The request lifecycle every slice shares: the four-valued fetch status,
    the network reply a thunk receives (an input here, standing for the HTTP
    call), and the fulfilled/rejected outcome a thunk produces. */
module Lifecycle {

  datatype Option<+T> = None | Some(value: T)

  /** `"idle" | "loading" | "succeeded" | "failed"` */
  datatype FetchStatus = Idle | Loading | Succeeded | Failed

  /** What the HTTP gateway answered: parsed data, or a thrown error with its message. */
  datatype Reply<+T> = Delivered(data: T) | Errored(reason: string)

  /** What a thunk settles with: `return payload` or `rejectWithValue(message)`. */
  datatype Outcome<+T> = Fulfilled(payload: T) | RejectedWith(message: string)

  /** `value || fallback` on an optional string (`action.payload || ...`,
      `message || ...`): a missing or empty value falls back. */
  function OrFallback(payload: Option<string>, fallback: string): (r: string)
    ensures payload.Some? && payload.value != "" ==> r == payload.value
    ensures payload.None? || payload.value == "" ==> r == fallback
  {
    match payload
    case Some(m) => if m != "" then m else fallback
    case None => fallback
  }

  /** The payload a rejected action carries into its reducer. */
  function RejectedPayload<T>(o: Outcome<T>): Option<string>
  {
    if o.RejectedWith? then Some(o.message) else None
  }

  const NotAuthenticated: string := "User not authenticated"
}
