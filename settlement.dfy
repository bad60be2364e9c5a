/**
 * How `remove` and `clear` turn the backend's `(error, response)` callback
 * into the outcome of the promise they return.
 */
module Settlement {
  import opened Wrappers

  /** The way a promise settles: fulfilled with a response or rejected with an error. */
  datatype Settlement<R, E> = Resolved(response: R) | Rejected(reason: E)

  /**
   * The callback body `if (error) reject(error); else resolve(response);`.
   * The error is passed on exactly when there is one, and verbatim; otherwise
   * the response is passed on verbatim. A settlement is one of the two, never both.
   */
  function Settle<R, E>(error: Option<E>, response: R): (s: Settlement<R, E>)
    ensures s.Rejected? <==> error.Some?
    ensures s.Rejected? ==> s.reason == error.value
    ensures s.Resolved? ==> s.response == response
  {
    if error.Some? then Rejected(error.value) else Resolved(response)
  }

  /**
   * Nothing is swallowed: the settlement determines the callback's error, and
   * the response whenever there was no error.
   */
  lemma SettleDeterminesReply<R, E>(e1: Option<E>, r1: R, e2: Option<E>, r2: R)
    requires Settle(e1, r1) == Settle(e2, r2)
    ensures e1 == e2
    ensures e1.None? ==> r1 == r2
  {
  }

  /** Every settlement arises from some callback: both paths are reachable. */
  lemma SettleOnto<R, E>(s: Settlement<R, E>, anyResponse: R)
    ensures s.Rejected? ==> Settle(Some(s.reason), anyResponse) == s
    ensures s.Resolved? ==> Settle(None, s.response) == s
  {
  }
}
