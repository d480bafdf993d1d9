/**
 The second login step with the real TOTP verification in place: which codes let a TOTP user
 in, and how often.
 */
module TotpLogin {
  import opened Basics
  import opened Totp
  import opened TwoFactor

  /** The window `verify_totp` has by default, which the login uses. */
  const WINDOW: nat := 1

  /** What `verify_totp` says of a code, with the clock it reads, about each secret. */
  function Judged(hmac: Hmac, b32decode: string -> Option<seq<byte>>, code: string, clock: Clock): string -> bool {
    (secret: string) =>
      var key := b32decode(Normalised(secret));
      key.Some? && Accepts(hmac, key.value, code, WINDOW, clock)
  }

  /** The step of a user whose handshake token is valid and who is active. */
  function Attempt(hmac: Hmac, b32decode: string -> Option<seq<byte>>, code: string, clock: Clock, now: int): Request {
    SecondStep(true, true, code, Judged(hmac, b32decode, code, clock), now)
  }

  lemma LoginAsksTotp(u: User, hmac: Hmac, b32decode: string -> Option<seq<byte>>, code: string, clock: Clock, now: int)
    requires UserInv(u) && u.channel == Some(ByTotp)
    ensures var key := b32decode(Normalised(u.secret.value));
            Step(u, Attempt(hmac, b32decode, code, clock, now)).1.AccessToken?
            <==> key.Some? && Accepts(hmac, key.value, code, WINDOW, clock)
  {
  }

  /**
   A TOTP user gets a token at the second step if and only if the stripped code is what
   RFC 4226 shows, under the secret in force, for a counter at most one step away from the
   clock's, which counts steps of 30 seconds.
   */
  lemma TotpLoginIff(u: User, hmac: Hmac, b32decode: string -> Option<seq<byte>>, code: string, clock: Clock,
                     step: nat, now: int)
    requires UserInv(u) && u.channel == Some(ByTotp)
    requires forall i :: 0 <= i <= 2 ==> 30 * step <= clock(i) < 30 * step + 30
    requires 1 <= step && step + 1 < 0x1_0000_0000_0000_0000
    ensures var key := b32decode(Normalised(u.secret.value));
            Step(u, Attempt(hmac, b32decode, code, clock, now)).1.AccessToken?
            <==> key.Some? && exists message: seq<byte> ::
                                |message| == 8 && step - 1 <= BigEndian(message) <= step + 1
                                && ShowsCode(hmac(key.value, message), Strip(code))
  {
    var key := b32decode(Normalised(u.secret.value));
    LoginAsksTotp(u, hmac, b32decode, code, clock, now);
    if key.Some? {
      AcceptedIffRfc6238(hmac, key.value, code, WINDOW, clock, step);
    }
  }

  /** A second step with a good code gives a TOTP user a token and changes nothing about the user. */
  lemma {:induction false} GoodAttempts(s: System, requests: seq<Request>)
    requires s.user.enabled && s.user.channel == Some(ByTotp)
    requires forall i :: 0 <= i < |requests| ==>
               requests[i].SecondStep? && requests[i].tokenValid && requests[i].active
               && TotpAccepts(s.user, requests[i].goodFor)
    ensures Exec(s, requests).user == s.user
    ensures Exec(s, requests).ledger.tokens == s.ledger.tokens + |requests|
    decreases |requests|
  {
    if requests != [] {
      GoodAttempts(Next(s, requests[0]), requests[1..]);
    }
  }

  /** The same code, presented once for each reading of the clock. */
  function Attempts(hmac: Hmac, b32decode: string -> Option<seq<byte>>, code: string, clocks: seq<Clock>,
                    now: int): seq<Request>
  {
    seq(|clocks|, i requires 0 <= i < |clocks| => Attempt(hmac, b32decode, code, clocks[i], now))
  }

  /**
   Nothing records that a TOTP code was accepted: as long as the clock is within one step of
   the code's counter, it gives a token every time it is presented, though section 5.2 of
   RFC 6238 wants it accepted once.
   */
  lemma SameCodeAgain(s: System, hmac: Hmac, b32decode: string -> Option<seq<byte>>, counter: nat,
                      clocks: seq<Clock>, steps: seq<nat>, now: int)
    requires UserInv(s.user) && s.user.channel == Some(ByTotp) && b32decode(Normalised(s.user.secret.value)).Some?
    requires counter < MAX_COUNTER && |steps| == |clocks|
    requires forall i :: 0 <= i < |clocks| ==>
               SameStep(clocks[i], WINDOW, steps[i]) && WINDOW <= steps[i] && steps[i] + WINDOW < MAX_COUNTER
               && steps[i] - WINDOW <= counter <= steps[i] + WINDOW
    ensures var code := Hotp(hmac, b32decode(Normalised(s.user.secret.value)).value, counter);
            var end := Exec(s, Attempts(hmac, b32decode, code, clocks, now));
            end.ledger.tokens == s.ledger.tokens + |clocks| && end.user == s.user
  {
    var key := b32decode(Normalised(s.user.secret.value)).value;
    var code := Hotp(hmac, key, counter);
    StripKeepsDigits(code);
    assert IsCodeOf(hmac, key, code, counter);
    var requests := Attempts(hmac, b32decode, code, clocks, now);
    forall i | 0 <= i < |requests| ensures TotpAccepts(s.user, requests[i].goodFor) {
      CodeInWindowAccepted(hmac, key, code, WINDOW, clocks[i], steps[i], counter);
    }
    GoodAttempts(s, requests);
  }
}
