/**
 Two-factor authentication of one user: setup, verify, login, second login step, disable.

 Each committed request is one step.  bcrypt is idealised: a hash verifies exactly the code it
 was made from.  What `verify_totp` says of the submitted code is part of the request, as a
 predicate on secrets; `TotpLogin` puts the real one in its place.
 */
module TwoFactor {
  import opened Basics

  datatype Method = ByTotp | ByEmail

  datatype Hash = HashOf(code: string)

  datatype User = User(
    enabled: bool, channel: Option<Method>, secret: Option<string>, otp: Option<Hash>, otpExpires: Option<int>)

  const FIVE_MINUTES := 300

  /** `newCode` is the code a request issues if it issues one; `goodFor`: is `code` a TOTP code of a secret? */
  datatype Request =
    | Setup(channel: string, newCode: string, now: int)
    | Verify(channel: string, secret: string, code: string, goodFor: string -> bool, now: int)
    | Login(newCode: string, now: int)
    | SecondStep(tokenValid: bool, active: bool, code: string, goodFor: string -> bool, now: int)
    | Disable(code: string, goodFor: string -> bool, newCode: string, now: int)

  datatype Response = Refused | SecretOffered | CodeSent | MethodEnabled | CodeRequired | AccessToken | MethodDisabled

  function Issue(u: User, newCode: string, now: int): User {
    u.(otp := Some(HashOf(newCode)), otpExpires := Some(now + FIVE_MINUTES))
  }

  function Cleared(u: User): User {
    u.(otp := None, otpExpires := None)
  }

  predicate OtpPending(u: User) {
    u.otp.Some? && u.otpExpires.Some?
  }

  predicate OtpAccepts(u: User, code: string, now: int) {
    OtpPending(u) && now <= u.otpExpires.value && u.otp == Some(HashOf(code))
  }

  predicate TotpAccepts(u: User, goodFor: string -> bool) {
    u.secret.Some? && goodFor(u.secret.value)
  }

  function Step(u: User, r: Request): (User, Response) {
    match r
    case Setup(channel, newCode, now) =>
      if u.enabled then (u, Refused)
      else if channel == "totp" then (u, SecretOffered)
      else if channel == "email" then (Issue(u, newCode, now), CodeSent)
      else (u, Refused)
    case Verify(channel, secret, code, goodFor, now) =>
      if u.enabled then (u, Refused)
      else if channel == "totp" then
        if secret != "" && goodFor(secret) then
          (User(true, Some(ByTotp), Some(secret), None, None), MethodEnabled)
        else (u, Refused)
      else if channel == "email" then
        if !OtpPending(u) then (u, Refused)
        else if u.otpExpires.value < now then (Cleared(u), Refused)
        else if u.otp != Some(HashOf(code)) then (u, Refused)
        else (User(true, Some(ByEmail), None, None, None), MethodEnabled)
      else (u, Refused)
    case Login(newCode, now) =>
      if !u.enabled then (u, AccessToken)
      else (if u.channel == Some(ByEmail) then Issue(u, newCode, now) else u, CodeRequired)
    case SecondStep(tokenValid, active, code, goodFor, now) =>
      if !tokenValid || !active || !u.enabled then (u, Refused)
      else if u.channel == Some(ByTotp) then (u, if TotpAccepts(u, goodFor) then AccessToken else Refused)
      else if u.channel == Some(ByEmail) then
        if OtpAccepts(u, code, now) then (Cleared(u), AccessToken) else (u, Refused)
      else (u, AccessToken)
    case Disable(code, goodFor, newCode, now) =>
      var off := User(false, None, None, None, None);
      if !u.enabled then (u, Refused)
      else if u.channel == Some(ByEmail) && code == "send_otp" then (Issue(u, newCode, now), CodeSent)
      else if u.channel == Some(ByTotp) then if TotpAccepts(u, goodFor) then (off, MethodDisabled) else (u, Refused)
      else if u.channel == Some(ByEmail) then if OtpAccepts(u, code, now) then (off, MethodDisabled) else (u, Refused)
      else (off, MethodDisabled)
  }

  // ----- Runs, with a ledger of the codes issued and accepted -----

  datatype Sent = Sent(code: string, at: int)

  /** `issued`: every one-time code ever sent; `spent`: which of them were accepted, in that order. */
  datatype Ledger = Ledger(issued: seq<Sent>, spent: seq<int>, tokens: nat, acceptedAtLogin: nat)

  datatype System = System(user: User, ledger: Ledger)

  const FRESH := System(User(false, None, None, None, None), Ledger([], [], 0, 0))

  /** The request presents a one-time code by mail that is accepted. */
  predicate SpendsOtp(u: User, r: Request) {
    || (r.Verify? && !u.enabled && r.channel == "email" && OtpAccepts(u, r.code, r.now))
    || (r.SecondStep? && r.tokenValid && r.active && u.enabled && u.channel == Some(ByEmail)
        && OtpAccepts(u, r.code, r.now))
    || (r.Disable? && u.enabled && u.channel == Some(ByEmail) && r.code != "send_otp" && OtpAccepts(u, r.code, r.now))
  }

  /** The second login step accepts the code, whichever the method. */
  predicate AcceptedAtLogin(u: User, r: Request) {
    && r.SecondStep? && r.tokenValid && r.active && u.enabled
    && ((u.channel == Some(ByTotp) && TotpAccepts(u, r.goodFor))
        || (u.channel == Some(ByEmail) && OtpAccepts(u, r.code, r.now)))
  }

  /** A code goes out when the response says so, or when a login asks for the one just mailed. */
  function Issued(u: User, r: Request): seq<Sent> {
    var response := Step(u, r).1;
    if response.CodeSent? || (response.CodeRequired? && u.channel == Some(ByEmail))
    then [Sent(r.newCode, r.now)] else []
  }

  function Next(s: System, r: Request): System {
    var (user, response) := Step(s.user, r);
    var l := s.ledger;
    System(user, Ledger(
      l.issued + Issued(s.user, r),
      if SpendsOtp(s.user, r) then l.spent + [|l.issued| - 1] else l.spent,
      if s.user.enabled && response.AccessToken? then l.tokens + 1 else l.tokens,
      if AcceptedAtLogin(s.user, r) then l.acceptedAtLogin + 1 else l.acceptedAtLogin))
  }

  function Exec(s: System, requests: seq<Request>): System
    decreases |requests|
  {
    if requests == [] then s else Exec(Next(s, requests[0]), requests[1..])
  }

  ghost predicate UserInv(u: User) {
    && (u.enabled <==> u.channel.Some?)
    && (!u.enabled ==> u.secret == None)
    && (u.channel == Some(ByTotp) ==> u.secret.Some? && u.secret.value != "" && u.otp == None)
    && (u.channel == Some(ByEmail) ==> u.secret == None)
    && (u.otp.Some? <==> u.otpExpires.Some?)
  }

  /** A pending code is the last one issued and not spent; spent codes are distinct, in issue order. */
  ghost predicate LedgerInv(s: System) {
    var l := s.ledger;
    && (forall i :: 0 <= i < |l.spent| ==> 0 <= l.spent[i] < |l.issued|)
    && (forall i, j :: 0 <= i < j < |l.spent| ==> l.spent[i] < l.spent[j])
    && (s.user.otp.Some? ==>
          && l.issued != []
          && s.user.otp == Some(HashOf(l.issued[|l.issued| - 1].code))
          && s.user.otpExpires == Some(l.issued[|l.issued| - 1].at + FIVE_MINUTES)
          && (forall i :: 0 <= i < |l.spent| ==> l.spent[i] < |l.issued| - 1))
    && l.tokens == l.acceptedAtLogin
  }

  ghost predicate Inv(s: System) {
    UserInv(s.user) && LedgerInv(s)
  }

  lemma UserStep(u: User, r: Request)
    requires UserInv(u)
    ensures UserInv(Step(u, r).0)
  {
  }

  /** For a protected user each guarded outcome happens exactly when a right code was presented. */
  lemma GuardedOutcomes(u: User, r: Request)
    requires UserInv(u) && u.enabled
    ensures Step(u, r).1.AccessToken? <==> AcceptedAtLogin(u, r)
    ensures Step(u, r).1.MethodDisabled? <==>
              r.Disable? && ((u.channel == Some(ByTotp) && TotpAccepts(u, r.goodFor)) || SpendsOtp(u, r))
    ensures !Step(u, r).0.enabled <==> Step(u, r).1.MethodDisabled?
    ensures Step(u, r).1 != MethodEnabled
  {
    match u.channel.value
    case ByTotp => assert u.channel == Some(ByTotp);
    case ByEmail => assert u.channel == Some(ByEmail);
  }

  /** Spending a code uses it up; issuing one makes it the pending one; nothing else creates one. */
  lemma OtpStep(u: User, r: Request)
    requires UserInv(u)
    ensures SpendsOtp(u, r) ==> u.otp.Some? && Step(u, r).0.otp == None && Issued(u, r) == []
    ensures Issued(u, r) != [] ==>
              Step(u, r).0.otp == Some(HashOf(Issued(u, r)[0].code))
               && Step(u, r).0.otpExpires == Some(Issued(u, r)[0].at + FIVE_MINUTES)
    ensures Issued(u, r) == [] ==>
              Step(u, r).0.otp == None || (Step(u, r).0.otp == u.otp && Step(u, r).0.otpExpires == u.otpExpires)
    ensures |Issued(u, r)| <= 1
  {
  }

  lemma TokensStep(s: System, r: Request)
    requires UserInv(s.user) && s.ledger.tokens == s.ledger.acceptedAtLogin
    ensures Next(s, r).ledger.tokens == Next(s, r).ledger.acceptedAtLogin
  {
    if s.user.enabled {
      GuardedOutcomes(s.user, r);
    }
  }

  lemma InvStep(s: System, r: Request)
    requires Inv(s)
    ensures Inv(Next(s, r))
  {
    UserStep(s.user, r);
    TokensStep(s, r);
    OtpStep(s.user, r);
  }

  /** The invariant of the two-factor fields holds after every run of requests. */
  lemma {:induction false} InvRun(s: System, requests: seq<Request>)
    requires Inv(s)
    ensures Inv(Exec(s, requests))
    decreases |requests|
  {
    if requests != [] {
      InvStep(s, requests[0]);
      InvRun(Next(s, requests[0]), requests[1..]);
    }
  }

  /**
   After every run: a method is set exactly when two-factor authentication is on; when it is
   off there is no TOTP secret; under TOTP there is a non-empty one and no code pending; and
   a one-time code and its expiry come and go together.
   */
  lemma FieldsStayConsistent(requests: seq<Request>)
    ensures var u := Exec(FRESH, requests).user;
            && (u.enabled <==> u.channel.Some?)
            && (!u.enabled ==> u.secret == None)
            && (u.channel == Some(ByTotp) ==>
                  u.secret.Some? && u.secret.value != "" && u.otp == None && u.otpExpires == None)
            && (u.otp.Some? <==> u.otpExpires.Some?)
  {
    InvRun(FRESH, requests);
  }

  lemma {:induction false} IncreasingFits(spent: seq<int>, bound: nat)
    requires forall i :: 0 <= i < |spent| ==> 0 <= spent[i] < bound
    requires forall i, j :: 0 <= i < j < |spent| ==> spent[i] < spent[j]
    ensures |spent| <= bound
  {
    if spent != [] {
      var last := |spent| - 1;
      IncreasingFits(spent[..last], spent[last]);
    }
  }

  /**
   Codes are conserved: over any run, every one-time code is accepted at most once, and the
   accepted ones together with the pending one never exceed those issued.  Tokens given to a
   protected user are exactly the codes its second login steps accepted.
   */
  lemma CodesAreConserved(requests: seq<Request>)
    ensures var end := Exec(FRESH, requests);
            && UserInv(end.user)
            && |end.ledger.spent| + (if end.user.otp.Some? then 1 else 0) <= |end.ledger.issued|
            && (forall i, j :: 0 <= i < j < |end.ledger.spent| ==> end.ledger.spent[i] != end.ledger.spent[j])
            && end.ledger.tokens == end.ledger.acceptedAtLogin
  {
    InvRun(FRESH, requests);
    var end := Exec(FRESH, requests);
    IncreasingFits(end.ledger.spent, if end.user.otp.Some? then |end.ledger.issued| - 1 else |end.ledger.issued|);
  }

  /** An accepted one-time code is the last one issued, and was issued at most five minutes before. */
  lemma AcceptedCodeIsLatest(s: System, r: Request)
    requires Inv(s) && SpendsOtp(s.user, r)
    ensures s.ledger.issued != []
    ensures var last := s.ledger.issued[|s.ledger.issued| - 1]; r.code == last.code && r.now <= last.at + FIVE_MINUTES
    ensures |s.ledger.issued| - 1 !in s.ledger.spent
  {
  }

  // ----- What each request does, field by field -----

  /** Setup is for an unprotected user: it offers a secret, or mails a code that is good for 300 seconds. */
  lemma SetupOutcomes(u: User, channel: string, newCode: string, now: int)
    ensures var (t, response) := Step(u, Setup(channel, newCode, now));
            && (response == SecretOffered <==> !u.enabled && channel == "totp")
            && (response == CodeSent <==> !u.enabled && channel == "email")
            && (response != SecretOffered && response != CodeSent ==> response == Refused)
            && (response == CodeSent ==> t == u.(otp := Some(HashOf(newCode)), otpExpires := Some(now + 300)))
            && (response != CodeSent ==> t == u)
  {
  }

  /**
   Verifying enables a method exactly when a right code is presented for it: one that the
   offered secret accepts, or the mailed one before it expires.  The method is then in force
   with exactly its own secret and nothing is pending; otherwise nothing is enabled, and only
   an expired mailed code is dropped.
   */
  lemma VerifyOutcomes(u: User, channel: string, secret: string, code: string, goodFor: string -> bool, now: int)
    requires UserInv(u)
    ensures var (t, response) := Step(u, Verify(channel, secret, code, goodFor, now));
            var byTotp := !u.enabled && channel == "totp" && secret != "" && goodFor(secret);
            var byEmail := !u.enabled && channel == "email" && u.otp == Some(HashOf(code)) && u.otpExpires.Some?
                           && now <= u.otpExpires.value;
            var expired := !u.enabled && channel == "email" && u.otpExpires.Some? && u.otpExpires.value < now;
            && (response == MethodEnabled <==> byTotp || byEmail)
            && (response != MethodEnabled ==> response == Refused)
            && t == (if byTotp then User(true, Some(ByTotp), Some(secret), None, None)
                     else if byEmail then User(true, Some(ByEmail), None, None, None)
                     else if expired then u.(otp := None, otpExpires := None)
                     else u)
  {
  }

  /** The first login step: a token without protection, and otherwise a question, with a code mailed for that method. */
  lemma LoginOutcomes(u: User, newCode: string, now: int)
    requires UserInv(u)
    ensures var (t, response) := Step(u, Login(newCode, now));
            && response == (if u.enabled then CodeRequired else AccessToken)
            && (u.channel == Some(ByEmail) ==> t == u.(otp := Some(HashOf(newCode)), otpExpires := Some(now + 300)))
            && (u.channel != Some(ByEmail) ==> t == u)
  {
  }

  /** The second login step gives a token exactly for a right code, and uses up a mailed one. */
  lemma SecondStepOutcomes(u: User, tokenValid: bool, active: bool, code: string, goodFor: string -> bool, now: int)
    requires UserInv(u)
    ensures var (t, response) := Step(u, SecondStep(tokenValid, active, code, goodFor, now));
            && (response == AccessToken
                <==> && tokenValid && active
                     && (|| (u.channel == Some(ByTotp) && u.secret.Some? && goodFor(u.secret.value))
                         || (u.channel == Some(ByEmail) && u.otp == Some(HashOf(code)) && u.otpExpires.Some?
                             && now <= u.otpExpires.value)))
            && (response != AccessToken ==> response == Refused && t == u)
            && (response == AccessToken ==>
                  t == if u.channel == Some(ByEmail) then u.(otp := None, otpExpires := None) else u)
  {
    if u.enabled {
      GuardedOutcomes(u, SecondStep(tokenValid, active, code, goodFor, now));
    }
  }

  /** Disabling mails a code on request, and clears all five fields exactly for a right code. */
  lemma DisableOutcomes(u: User, code: string, goodFor: string -> bool, newCode: string, now: int)
    requires UserInv(u)
    ensures var (t, response) := Step(u, Disable(code, goodFor, newCode, now));
            var asked := u.channel == Some(ByEmail) && code == "send_otp";
            && (response == CodeSent <==> asked)
            && (response == MethodDisabled
                <==> !asked
                     && (|| (u.channel == Some(ByTotp) && u.secret.Some? && goodFor(u.secret.value))
                         || (u.channel == Some(ByEmail) && u.otp == Some(HashOf(code)) && u.otpExpires.Some?
                             && now <= u.otpExpires.value)))
            && (response != CodeSent && response != MethodDisabled ==> response == Refused && t == u)
            && (asked ==> t == u.(otp := Some(HashOf(newCode)), otpExpires := Some(now + 300)))
            && (response == MethodDisabled ==> t == User(false, None, None, None, None))
  {
    if u.enabled {
      GuardedOutcomes(u, Disable(code, goodFor, newCode, now));
    }
  }

  /** A code mailed at a login gets in exactly if it is that code, within 300 seconds. */
  lemma MailedCodeGetsInIff(u: User, newCode: string, at: int, code: string, goodFor: string -> bool, now: int)
    requires UserInv(u) && u.channel == Some(ByEmail)
    ensures var mailed := Step(u, Login(newCode, at)).0;
            Step(mailed, SecondStep(true, true, code, goodFor, now)).1 == AccessToken
            <==> code == newCode && now <= at + 300
  {
    UserStep(u, Login(newCode, at));
    SecondStepOutcomes(Step(u, Login(newCode, at)).0, true, true, code, goodFor, now);
  }

  // ----- Tokens -----

  /** `handshake`: the token is for the second login step. */
  datatype Token = Token(handshake: bool, expires: int)

  /** The token that goes out with a response made at `now`; an access token lasts `life` seconds. */
  function TokenOf(response: Response, now: int, life: nat): Option<Token> {
    if response.AccessToken? then Some(Token(false, now + life))
    else if response.CodeRequired? then Some(Token(true, now + FIVE_MINUTES))
    else None
  }

  /** `get_current_user` looks at the expiry, and never at `handshake`. */
  predicate CurrentUserAccepts(token: Token, active: bool, now: int) {
    active && token.expires >= now
  }

  /** `login_2fa` wants a handshake token. */
  predicate SecondStepAccepts(token: Token, now: int) {
    token.handshake && token.expires >= now
  }

  /**
   What authenticates a protected user: a request hands out a token that other requests accept,
   then and for as long as it lasts, if and only if it is a second step with a right code or
   just a first login step.  In the latter case the token is the handshake token, good for five
   minutes.
   */
  lemma AuthenticatedIff(u: User, r: Request, life: nat)
    requires UserInv(u) && u.enabled
    ensures var token := TokenOf(Step(u, r).1, r.now, life);
            && ((token.Some? && forall now :: r.now <= now <= token.value.expires ==>
                   CurrentUserAccepts(token.value, true, now))
                <==> AcceptedAtLogin(u, r) || r.Login?)
            && (r.Login? ==> token == Some(Token(true, r.now + 300)) && SecondStepAccepts(token.value, r.now))
            && (AcceptedAtLogin(u, r) ==> token == Some(Token(false, r.now + life)))
  {
    GuardedOutcomes(u, r);
  }

  // ----- The user record -----

  class UserRecord {
    var twoFactorEnabled: bool
    var twoFactorMethod: Option<Method>
    var twoFactorSecret: Option<string>
    var otpSecret: Option<Hash>
    var otpExpiresAt: Option<int>

    ghost function View(): User
      reads this
    {
      User(twoFactorEnabled, twoFactorMethod, twoFactorSecret, otpSecret, otpExpiresAt)
    }

    constructor ()
      ensures View() == FRESH.user
    {
      twoFactorEnabled, twoFactorMethod, twoFactorSecret := false, None, None;
      otpSecret, otpExpiresAt := None, None;
    }

    method Setup(channel: string, newCode: string, now: int) returns (response: Response)
      modifies this`otpSecret, this`otpExpiresAt
      ensures (View(), response) == Step(old(View()), Request.Setup(channel, newCode, now))
    {
      if twoFactorEnabled || (channel != "totp" && channel != "email") {
        return Refused;
      }
      if channel == "totp" {
        return SecretOffered;
      }
      otpSecret := Some(HashOf(newCode));
      otpExpiresAt := Some(now + FIVE_MINUTES);
      return CodeSent;
    }

    method Verify(channel: string, secret: string, code: string, goodFor: string -> bool, now: int)
      returns (response: Response)
      modifies this
      ensures (View(), response) == Step(old(View()), Request.Verify(channel, secret, code, goodFor, now))
    {
      if twoFactorEnabled || (channel != "totp" && channel != "email") {
        return Refused;
      }
      if channel == "totp" {
        if secret == "" || !goodFor(secret) {
          return Refused;
        }
        twoFactorMethod := Some(ByTotp);
        twoFactorSecret := Some(secret);
      } else {
        if otpSecret == None || otpExpiresAt == None {
          return Refused;
        }
        if otpExpiresAt.value < now {
          otpSecret, otpExpiresAt := None, None;
          return Refused;
        }
        if otpSecret != Some(HashOf(code)) {
          return Refused;
        }
        twoFactorMethod := Some(ByEmail);
        twoFactorSecret := None;
      }
      twoFactorEnabled := true;
      otpSecret, otpExpiresAt := None, None;
      return MethodEnabled;
    }

    method Login(newCode: string, now: int) returns (response: Response)
      modifies this`otpSecret, this`otpExpiresAt
      ensures (View(), response) == Step(old(View()), Request.Login(newCode, now))
    {
      if !twoFactorEnabled {
        return AccessToken;
      }
      if twoFactorMethod == Some(ByEmail) {
        otpSecret := Some(HashOf(newCode));
        otpExpiresAt := Some(now + FIVE_MINUTES);
      }
      return CodeRequired;
    }

    method LoginSecondStep(tokenValid: bool, active: bool, code: string, goodFor: string -> bool, now: int)
      returns (response: Response)
      modifies this`otpSecret, this`otpExpiresAt
      ensures (View(), response) == Step(old(View()), SecondStep(tokenValid, active, code, goodFor, now))
    {
      if !tokenValid || !active || !twoFactorEnabled {
        return Refused;
      }
      if twoFactorMethod == Some(ByTotp) {
        if twoFactorSecret == None || !goodFor(twoFactorSecret.value) {
          return Refused;
        }
      } else if twoFactorMethod == Some(ByEmail) {
        if otpSecret == None || otpExpiresAt == None || otpExpiresAt.value < now || otpSecret != Some(HashOf(code)) {
          return Refused;
        }
        otpSecret, otpExpiresAt := None, None;
      }
      return AccessToken;
    }

    method DisableTwoFactor(code: string, goodFor: string -> bool, newCode: string, now: int)
      returns (response: Response)
      modifies this
      ensures (View(), response) == Step(old(View()), Disable(code, goodFor, newCode, now))
    {
      if !twoFactorEnabled {
        return Refused;
      }
      if twoFactorMethod == Some(ByEmail) && code == "send_otp" {
        otpSecret := Some(HashOf(newCode));
        otpExpiresAt := Some(now + FIVE_MINUTES);
        return CodeSent;
      }
      if twoFactorMethod == Some(ByTotp) {
        if twoFactorSecret == None || !goodFor(twoFactorSecret.value) {
          return Refused;
        }
      } else if twoFactorMethod == Some(ByEmail) {
        if otpSecret == None || otpExpiresAt == None || otpExpiresAt.value < now || otpSecret != Some(HashOf(code)) {
          return Refused;
        }
      }
      twoFactorEnabled, twoFactorMethod, twoFactorSecret := false, None, None;
      otpSecret, otpExpiresAt := None, None;
      return MethodDisabled;
    }
  }
}
