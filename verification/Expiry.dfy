/** What a pass over the sleep queue must do, whatever the queue is made of. */
module Expiry {
  /** `woken` lists exactly the entries of `due` that have expired at `now`,
      earliest first; entries due at the same instant come in any order. */
  ghost predicate ExpiryOrder<T>(due: map<T, int>, now: int, woken: seq<T>) {
    && (forall t :: t in woken ==> t in due && due[t] <= now)
    && (forall t :: t in due && due[t] <= now ==> t in woken)
    && (forall i, j :: 0 <= i < j < |woken| ==> woken[i] != woken[j])
    && (forall i, j :: 0 <= i < j < |woken| && woken[i] in due && woken[j] in due ==>
          due[woken[i]] <= due[woken[j]])
  }
}
