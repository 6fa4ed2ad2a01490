/**
 * The single-slot guard around token refresh in `ApiClient.refreshAccessToken`
 * (src/services/api/client.ts): `refreshTokenPromise` holds the refresh in flight, later callers join
 * it, and it is cleared once the refresh settles. A promise is a handle; `pending` records which
 * refresh call to the network has not settled yet.
 */
module RefreshGuard {
  import opened Wrappers

  type Handle = nat

  /** `slot` is the field `refreshTokenPromise`; `pending` the network refresh not yet settled. */
  datatype GuardState = GuardState(slot: Option<Handle>, pending: Option<Handle>, next: Handle)

  const Idle: GuardState := GuardState(None, None, 0)

  datatype Entry =
    | Joined(handle: Handle)            // the caller receives the promise already in the slot
    | FailedAtOnce(handle: Handle)      // no refresh token: the new promise is already rejected
    | Started(handle: Handle)           // a refresh request goes to the network

  /** The guard is sound when the slot holds exactly the refresh that is still in flight. */
  predicate Sound(s: GuardState) {
    s.slot == s.pending && (s.pending.Some? ==> s.pending.value < s.next)
  }

  /**
   * `refreshAccessToken` as written. Without a refresh token the async body throws before its first
   * `await`, so its `finally` clears the slot before the assignment stores the rejected promise there:
   * the slot keeps that promise after it has settled.
   */
  function BeginAsWritten(s: GuardState, hasRefreshToken: bool): (out: (GuardState, Entry))
    ensures s.slot.Some? ==> out == (s, Joined(s.slot.value))
    ensures s.slot.None? && !hasRefreshToken ==> out.0.slot == Some(s.next) && out.0.pending == s.pending
  {
    if s.slot.Some? then (s, Joined(s.slot.value))
    else if !hasRefreshToken then (GuardState(Some(s.next), s.pending, s.next + 1), FailedAtOnce(s.next))
    else (GuardState(Some(s.next), Some(s.next), s.next + 1), Started(s.next))
  }

  /** The evidently intended behaviour: a refresh that fails at once leaves the slot empty. */
  function Begin(s: GuardState, hasRefreshToken: bool): (out: (GuardState, Entry))
    ensures s.slot.Some? ==> out == (s, Joined(s.slot.value))
    ensures s.slot.None? && !hasRefreshToken ==>
              out.0.slot.None? && out.0.pending == s.pending && out.1 == FailedAtOnce(s.next)
    ensures s.slot.None? && hasRefreshToken ==>
              out.1 == Started(s.next) && out.0.slot == out.0.pending == Some(s.next)
    ensures out.0.next >= s.next
  {
    if s.slot.Some? then (s, Joined(s.slot.value))
    else if !hasRefreshToken then (GuardState(None, s.pending, s.next + 1), FailedAtOnce(s.next))
    else (GuardState(Some(s.next), Some(s.next), s.next + 1), Started(s.next))
  }

  /** The network refresh settles (either way); the `finally` clears the slot. */
  function Settle(s: GuardState): (t: GuardState)
    ensures t.slot.None? && t.pending.None? && t.next == s.next
  {
    GuardState(None, None, s.next)
  }

  /** The corrected guard stays sound through every event. */
  lemma {:induction false} GuardStaysSound(s: GuardState, hasRefreshToken: bool)
    requires Sound(s)
    ensures Sound(Begin(s, hasRefreshToken).0)
    ensures Sound(Settle(s))
  {
  }

  /** Single flight: while a refresh is in flight every further caller joins it and nothing new starts. */
  lemma {:induction false} ConcurrentCallersJoin(s: GuardState, tokens: seq<bool>)
    requires Sound(s) && s.pending.Some?
    ensures forall i :: 0 <= i < |tokens| ==> Begin(s, tokens[i]) == (s, Joined(s.pending.value))
  {
  }

  /** Once the last refresh has settled, the next call starts a new refresh whenever a token is available. */
  lemma {:induction false} SettledGuardStartsAgain(s: GuardState)
    requires Sound(s) && s.pending.None?
    ensures Begin(s, true).1 == Started(s.next)
  {
  }

  /**
   * As written, a refresh attempted without a token leaves its rejected promise in the slot for good:
   * every later call joins it and no refresh ever reaches the network again, token or not.
   */
  lemma AsWrittenSlotIsStuck(tokens: seq<bool>)
    ensures var (s1, first) := BeginAsWritten(Idle, false);
            first == FailedAtOnce(0) && s1.pending.None? && !Sound(s1) &&
            forall i :: 0 <= i < |tokens| ==> BeginAsWritten(s1, tokens[i]) == (s1, Joined(0))
  {
  }

  /** The corrected guard, in the same scenario, starts a real refresh as soon as a token is there. */
  lemma CorrectedSlotRecovers()
    ensures var (s1, first) := Begin(Idle, false);
            first == FailedAtOnce(0) && Sound(s1) && Begin(s1, true).1 == Started(1)
  {
  }
}
