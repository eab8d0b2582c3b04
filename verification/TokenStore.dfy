/** The stored token: how it is written, when it counts as expiring, and who is told. */
module TokenStore {
  import opened Common

  /** The fields of an auth response that reach the token store. */
  datatype AuthInfo = AuthInfo(clientToken: string, leaseDuration: u64, renewable: bool)

  datatype TokenState = TokenState(value: string, expiresAt: Option<nat>, renewable: bool, lease: nat)

  /** The end of the clock: `Instant` counts seconds in an `i64`. */
  const INSTANT_END: nat := 0x8000_0000_0000_0000 * SECOND

  /** `Instant::checked_add`. */
  function CheckedAdd(t: nat, d: nat): Option<nat> {
    if t + d < INSTANT_END then Some(t + d) else None
  }

  /** The state that `update_token_from_auth` stores at clock reading `now`. */
  function FromAuth(auth: AuthInfo, now: nat): TokenState {
    var lease := FromSecs(auth.leaseDuration);
    TokenState(auth.clientToken, if auth.leaseDuration > 0 then CheckedAdd(now, lease) else None,
               auth.renewable, lease)
  }

  /** The state that `set_token` stores: a token that never expires. */
  function FromPlain(value: string): TokenState {
    TokenState(value, None, false, 0)
  }

  /** `token_needs_renewal`: a fifth of the lease or less is left. `mul_f64(0.2)` is taken exactly. */
  predicate NeedsRenewal(ts: TokenState, now: nat) {
    match ts.expiresAt
    case Some(expires) => now + ts.lease / 5 >= expires
    case None => false
  }

  /**
   * The token is the one that was granted at `at`: its value, whether it is renewable, and its
   * end, if it has one and the clock can tell it. Times in nanoseconds.
   */
  predicate Holds(token: Option<TokenState>, auth: AuthInfo, at: nat) {
    var lease := auth.leaseDuration as nat * 1_000_000_000;
    && token.Some?
    && token.value.value == auth.clientToken
    && token.value.renewable == auth.renewable
    && token.value.lease == lease
    && token.value.expiresAt ==
       if 0 < lease && at + lease < 9_223_372_036_854_775_808 * 1_000_000_000 then Some(at + lease) else None
  }

  /** The part of the client that holds the token, with the calls of `on_token_changed` in order. */
  class TokenCell {
    var token: Option<TokenState>
    var notified: seq<AuthInfo>

    constructor (token: Option<TokenState>)
      ensures this.token == token && notified == []
    {
      this.token := token;
      notified := [];
    }

    /** `set_token`: no callback. */
    method SetToken(value: string)
      modifies this
      ensures token == Some(FromPlain(value)) && notified == old(notified)
      ensures token == Some(TokenState(value, None, false, 0))
    {
      token := Some(TokenState(value, None, false, 0));
    }

    /** `update_token_from_auth`: write, then call back once. */
    method UpdateTokenFromAuth(auth: AuthInfo, now: nat)
      modifies this
      ensures token == Some(FromAuth(auth, now)) && notified == old(notified) + [auth]
      ensures Holds(token, auth, now)
    {
      var expiresAt := None;
      if auth.leaseDuration > 0 {
        expiresAt := CheckedAdd(now, FromSecs(auth.leaseDuration));
      }
      token := Some(TokenState(auth.clientToken, expiresAt, auth.renewable, FromSecs(auth.leaseDuration)));
      notified := notified + [auth];
    }
  }

  /** A token is due for renewal only when four fifths of its lease have passed since it was written. */
  lemma DueAfterFourFifths(auth: AuthInfo, written: nat, now: nat)
    requires NeedsRenewal(FromAuth(auth, written), now)
    ensures auth.leaseDuration > 0
    ensures 5 * now >= 5 * written + 4 * FromSecs(auth.leaseDuration)
  {
  }

  /** For whole seconds the rule is exact, as long as the expiry is on the clock. */
  lemma DueExactly(auth: AuthInfo, written: nat, now: nat)
    requires auth.leaseDuration > 0 && written + FromSecs(auth.leaseDuration) < INSTANT_END
    ensures NeedsRenewal(FromAuth(auth, written), now)
            <==> 5 * now >= 5 * written + 4 * FromSecs(auth.leaseDuration)
  {
    var secs := auth.leaseDuration as nat;
    assert FromSecs(auth.leaseDuration) / 5 == secs * 200_000_000;
  }
}
