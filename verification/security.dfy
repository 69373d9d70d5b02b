/** includes/security.php: the per-request session guard (inactivity
    timeout, user-agent pinning, client-IP watch), the CSRF token of the
    session, the input sanitizers and validators, and the per-session rate
    limiter. `$_SESSION` is the class Session, one field per key. */
module Security {
  import opened Util
  import opened Php
  import opened Constants

  // ------------------------------------------------------------------
  // Validators and sanitizers (pure)
  // ------------------------------------------------------------------

  /** validateOrderStatus: the status if it is one of the five, else null. */
  function ValidateOrderStatus(s: string): (r: Option<OrderStatus>)
    ensures r.Some? <==> s in ValidOrderStatuses
    ensures r.Some? ==> StatusName(r.value) == s
  {
    if s == "Pending" then Some(Pending)
    else if s == "In Progress" then Some(InProgress)
    else if s == "Ready" then Some(Ready)
    else if s == "Pickup" then Some(Pickup)
    else if s == "Archived" then Some(Archived)
    else None
  }

  /** validatePaymentStatus. */
  function ValidatePaymentStatus(s: string): (r: Option<PaymentStatus>)
    ensures r.Some? <==> s in ValidPaymentStatuses
    ensures r.Some? ==> PaymentName(r.value) == s
  {
    if s == "Paid" then Some(Paid)
    else if s == "Unpaid" then Some(Unpaid)
    else if s == "Partial" then Some(Partial)
    else None
  }

  /** validateServiceMode. */
  function ValidateServiceMode(s: string): (r: Option<ServiceMode>)
    ensures r.Some? <==> s in ValidServiceModes
    ensures r.Some? ==> ModeName(r.value) == s
  {
    if s == "Regular" then Some(Regular)
    else if s == "Express" then Some(Express)
    else None
  }

  /** Each validator accepts exactly the names of its enumeration. */
  lemma ValidatorsInvertNames()
    ensures forall s :: ValidateOrderStatus(StatusName(s)) == Some(s)
    ensures forall p :: ValidatePaymentStatus(PaymentName(p)) == Some(p)
    ensures forall m :: ValidateServiceMode(ModeName(m)) == Some(m)
  {
    ValidListsAreTheEnumerations();
  }

  /** validateId, on the already converted integer: positive ids only. */
  function ValidateId(id: int): (r: Option<int>)
    ensures r.Some? <==> id > 0
    ensures r.Some? ==> r.value == id
  {
    if id <= 0 then None else Some(id)
  }

  /** sanitizeText($text, $maxLength): '' for a non-string (None), else the
      trimmed text cut to `maxLength` characters and escaped with ENT_QUOTES |
      ENT_HTML5. The result carries no raw markup character and decodes
      back to the trimmed, cut input. */
  function SanitizeText(text: Option<string>, maxLength: nat): (r: string)
    ensures text.None? ==> r == ""
    ensures text.Some? ==> Unescape(r, Html5) == Truncate(Trim(text.value), maxLength)
    ensures forall i :: 0 <= i < |r| ==> !IsHtmlSpecial(r[i])
  {
    match text
    case None => ""
    case Some(t) =>
      var cut := Truncate(Trim(t), maxLength);
      EscapeRoundTrip(cut, Html5);
      HtmlEscape(cut, Html5)
  }

  /** sanitizeEmail: trimmed and lower-cased, or null when it is not an
      address or longer than 254 bytes. */
  function SanitizeEmail(email: string, php: Builtins): (r: Option<string>)
    ensures r.Some? <==> php.isValidEmail(ToLower(Trim(email))) && |Trim(email)| <= MaxEmailLength
    ensures r.Some? ==> php.isValidEmail(r.value) && |r.value| <= MaxEmailLength
  {
    var e := ToLower(Trim(email));
    if !php.isValidEmail(e) then None
    else if |e| > MaxEmailLength then None
    else Some(e)
  }

  /** A sanitized address has no capitals and no blank at either end. */
  lemma SanitizedEmailIsNormal(email: string, php: Builtins)
    requires SanitizeEmail(email, php).Some?
    ensures var e := SanitizeEmail(email, php).value;
      && (forall i :: 0 <= i < |e| ==> !('A' <= e[i] <= 'Z'))
      && (e == [] || (!IsTrimmable(e[0]) && !IsTrimmable(e[|e| - 1])))
  {
    var t := Trim(email);
    var e := ToLower(t);
    assert SanitizeEmail(email, php).value == e;
    if e != [] {
      assert e[0] == LowerChar(t[0]) && e[|e| - 1] == LowerChar(t[|t| - 1]);
      LowerCharKeepsBlanks(t[0]);
      LowerCharKeepsBlanks(t[|t| - 1]);
    }
  }

  // ------------------------------------------------------------------
  // CSRF
  // ------------------------------------------------------------------

  predicate IsHexDigit(c: char) {
    '0' <= c <= '9' || 'a' <= c <= 'f'
  }

  /** bin2hex(random_bytes(CSRF_TOKEN_LENGTH)): 64 lower-case hex digits. */
  predicate IsFreshToken(t: string) {
    |t| == 2 * CsrfTokenLength && forall i :: 0 <= i < |t| ==> IsHexDigit(t[i])
  }

  /** validateCsrfToken($token): both the submitted and the session token
      must be non-empty, and they must be equal (hash_equals). */
  function ValidateCsrfToken(submitted: string, sessionToken: Option<string>): (ok: bool)
    ensures ok <==> !IsEmpty(submitted) && sessionToken == Some(submitted)
  {
    if IsEmpty(submitted) then false
    else if sessionToken.None? || IsEmpty(sessionToken.value) then false
    else sessionToken.value == submitted
  }

  // ------------------------------------------------------------------
  // Rate limiting (pure step)
  // ------------------------------------------------------------------

  /** The session key of a limiter: the source hashes action . client id;
      the pair is kept instead (distinct pairs, distinct keys). */
  datatype RateKey = RateKey(action: string, client: string)

  datatype RateRecord = RateRecord(count: int, firstTime: int, lastTime: int)

  datatype RateDecision = RateDecision(allowed: bool, record: RateRecord)

  /** The client id: REMOTE_ADDR ?? 'unknown'. */
  function ClientKey(action: string, remoteAddr: Option<string>): RateKey {
    RateKey(action, remoteAddr.GetOr("unknown"))
  }

  /** One checkRateLimit call on the record stored under its key. A fresh
      window starts with the first request and once more than `window`
      seconds have passed since the window began; within a window, at most
      `maxAttempts` requests are let through. */
  function RateStep(rec: Option<RateRecord>, maxAttempts: int, window: int, now: int): (d: RateDecision)
    ensures rec.None? || now - rec.value.firstTime > window ==> d == RateDecision(true, RateRecord(1, now, now))
    ensures rec.Some? && now - rec.value.firstTime <= window ==>
      (d.allowed <==> rec.value.count < maxAttempts)
    ensures !d.allowed ==> rec.Some? && d.record == rec.value
    ensures d.allowed && rec.Some? && now - rec.value.firstTime <= window ==>
      d.record == RateRecord(rec.value.count + 1, rec.value.firstTime, now)
    ensures maxAttempts >= 1 && (rec.None? || rec.value.count <= maxAttempts) ==> d.record.count <= maxAttempts
  {
    match rec
    case None => RateDecision(true, RateRecord(1, now, now))
    case Some(data) =>
      if now - data.firstTime > window then RateDecision(true, RateRecord(1, now, now))
      else if data.count >= maxAttempts then RateDecision(false, data)
      else RateDecision(true, data.(count := data.count + 1, lastTime := now))
  }

  /** getRateLimitRemaining on the record stored under its key. */
  function Remaining(rec: Option<RateRecord>, maxAttempts: int): (r: int)
    ensures rec.None? ==> r == maxAttempts
    ensures rec.Some? ==> r >= 0 && r + rec.value.count >= maxAttempts
    ensures rec.Some? ==> r == 0 || r + rec.value.count == maxAttempts
  {
    match rec
    case None => maxAttempts
    case Some(data) => if maxAttempts - data.count > 0 then maxAttempts - data.count else 0
  }

  /** Within the window, the remaining count says whether the next request
      is let through. */
  lemma RemainingPredictsStep(rec: RateRecord, maxAttempts: int, window: int, now: int)
    requires now - rec.firstTime <= window
    ensures RateStep(Some(rec), maxAttempts, window, now).allowed <==> Remaining(Some(rec), maxAttempts) > 0
  {
  }

  /** The verdicts of consecutive checks of one key, starting from `rec`. */
  function Run(rec: Option<RateRecord>, maxAttempts: int, window: int, times: seq<int>): (allowed: seq<bool>)
    ensures |allowed| == |times|
    decreases |times|
  {
    if times == [] then []
    else
      var d := RateStep(rec, maxAttempts, window, times[0]);
      [d.allowed] + Run(Some(d.record), maxAttempts, window, times[1..])
  }

  /** Inside one window that already counted `c` requests, request i of a
      burst is let through exactly while c + i stays under the limit. */
  lemma {:induction false} RunInsideWindow(c: int, first: int, last: int, maxAttempts: int, window: int, times: seq<int>)
    requires forall i :: 0 <= i < |times| ==> times[i] - first <= window
    ensures forall i :: 0 <= i < |times| ==>
      Run(Some(RateRecord(c, first, last)), maxAttempts, window, times)[i] == (c + i < maxAttempts)
    decreases |times|
  {
    if times != [] {
      var d := RateStep(Some(RateRecord(c, first, last)), maxAttempts, window, times[0]);
      var next := if c < maxAttempts then c + 1 else c;
      assert d.record.count == next && d.record.firstTime == first;
      RunInsideWindow(next, first, d.record.lastTime, maxAttempts, window, times[1..]);
      var r := Run(Some(RateRecord(c, first, last)), maxAttempts, window, times);
      forall i | 0 <= i < |times|
        ensures r[i] == (c + i < maxAttempts)
      {
        if i > 0 {
          assert r[i] == Run(Some(d.record), maxAttempts, window, times[1..])[i - 1];
        }
      }
    }
  }

  /** A burst of requests from a client without a record, all within the
      window of the first one: exactly the first `maxAttempts` pass. */
  lemma BurstAllowsExactlyMax(maxAttempts: int, window: int, times: seq<int>)
    requires maxAttempts >= 1 && |times| >= 1
    requires forall i :: 0 <= i < |times| ==> times[i] - times[0] <= window
    ensures forall i :: 0 <= i < |times| ==> Run(None, maxAttempts, window, times)[i] == (i < maxAttempts)
  {
    var d := RateStep(None, maxAttempts, window, times[0]);
    RunInsideWindow(1, times[0], times[0], maxAttempts, window, times[1..]);
    var r := Run(None, maxAttempts, window, times);
    forall i | 0 <= i < |times|
      ensures r[i] == (i < maxAttempts)
    {
      if i > 0 {
        assert r[i] == Run(Some(d.record), maxAttempts, window, times[1..])[i - 1];
      }
    }
  }

  /** With the order limit (10 per 60 s), the eleventh order within a
      minute is refused and the tenth is not. */
  lemma EleventhOrderInAMinuteRefused(times: seq<int>)
    requires |times| == 11
    requires forall i :: 0 <= i < |times| ==> times[0] <= times[i] <= times[0] + 60
    ensures Run(None, RateLimitOrder, RateLimitWindow, times)[9]
    ensures !Run(None, RateLimitOrder, RateLimitWindow, times)[10]
  {
    BurstAllowsExactlyMax(RateLimitOrder, RateLimitWindow, times);
  }

  // ------------------------------------------------------------------
  // The session
  // ------------------------------------------------------------------

  /** What the guard at the top of every page decided. */
  datatype Verdict =
    | Anonymous                  // no user_id: the guard does nothing
    | Expired                    // destroyed, redirect to index.php?session=expired
    | Hijacked                   // destroyed, redirect to index.php?error=security
    | Active(ipChanged: bool)    // carry on; an IP change is only logged

  /** What the model needs of an HTTP request: time() while it is served,
      the User-Agent and REMOTE_ADDR headers, and BASE_URL. */
  datatype Request = Request(now: int, userAgent: Option<string>, remoteAddr: Option<string>, baseUrl: string)

  /** How a request ends: a Location redirect, a die()/exit with a
      message, or the page rendered with its success and error banners. */
  datatype Response =
    | Redirect(location: string)
    | Halt(status: int, message: string)
    | Page(success: Option<string>, error: Option<string>)

  /** The redirect that ends a request the guard refused. */
  function GuardResponse(v: Verdict, baseUrl: string): (r: Option<Response>)
    ensures r.Some? <==> v == Expired || v == Hijacked
  {
    match v
    case Expired => Some(Redirect(baseUrl + "/index.php?session=expired"))
    case Hijacked => Some(Redirect(baseUrl + "/index.php?error=security"))
    case _ => None
  }

  /** How one branch ends: the text for `$success` or for `$err` of an admin page. */
  datatype Outcome = Done(message: string) | Refused(message: string)

  /** `$success` and `$err` as the branches leave them. */
  datatype Banners = Banners(success: Option<string>, error: Option<string>)

  function Show(b: Banners, o: Outcome): (r: Banners)
    ensures o.Done? ==> r == b.(success := Some(o.message))
    ensures o.Refused? ==> r == b.(error := Some(o.message))
  {
    match o
    case Done(m) => b.(success := Some(m))
    case Refused(m) => b.(error := Some(m))
  }

  /** The login page an administrator page sends strangers to. */
  const LoginPage := "../index.php"

  /** The session's token after initializeCsrfToken(): kept when non-empty,
      otherwise `newToken`. */
  function TokenAfterInit(token: Option<string>, newToken: string): (r: Option<string>)
    ensures r.Some? && !IsEmpty(r.value) <== !IsEmpty(newToken)
    ensures token.Some? && !IsEmpty(token.value) ==> r == token
    ensures !(token.Some? && !IsEmpty(token.value)) ==> r == Some(newToken)
  {
    if token.Some? && !IsEmpty(token.value) then token else Some(newToken)
  }

  class Session {
    var userId: Option<int>
    var name: Option<string>
    var role: Option<Role>
    var loginTime: Option<int>
    var loginIp: Option<string>
    var lastActivity: Option<int>
    var userAgentHash: Option<string>
    var clientIp: Option<string>
    var csrfToken: Option<string>
    var rateLimit: map<RateKey, RateRecord>
    var flashSuccess: Option<string>
    var flashError: Option<string>

    /** A new, empty session. */
    constructor ()
      ensures IsCleared()
    {
      userId, name, role, loginTime, loginIp := None, None, None, None, None;
      lastActivity, userAgentHash, clientIp, csrfToken := None, None, None, None;
      rateLimit, flashSuccess, flashError := map[], None, None;
    }

    /** session_unset(): no key is left. */
    predicate IsCleared()
      reads this
    {
      && userId.None? && name.None? && role.None? && loginTime.None? && loginIp.None?
      && lastActivity.None? && userAgentHash.None? && clientIp.None? && csrfToken.None?
      && rateLimit == map[] && flashSuccess.None? && flashError.None?
    }

    /** isAdmin(): logged in with role 'admin'. */
    predicate IsAdmin()
      reads this
    {
      userId.Some? && role == Some(Admin)
    }

    /** More than SESSION_TIMEOUT seconds have passed since the last
        request of this session. */
    predicate ExpiredAt(now: int)
      reads this
    {
      lastActivity.Some? && now - lastActivity.value > SessionTimeout
    }

    /** The session is pinned to another user agent. */
    predicate AgentMismatch(agentHash: string)
      reads this
    {
      userAgentHash.Some? && userAgentHash.value != agentHash
    }

    /** The guard lets a logged-in user's request through. */
    predicate Admits(req: Request, php: Builtins)
      reads this
    {
      userId.Some? && !ExpiredAt(req.now) && !AgentMismatch(php.sha256(req.userAgent.GetOr("")))
    }

    /** isLoggedIn(). */
    predicate IsLoggedIn()
      reads this
    {
      userId.Some?
    }

    method Destroy()
      modifies this
      ensures IsCleared()
    {
      userId, name, role, loginTime, loginIp := None, None, None, None, None;
      lastActivity, userAgentHash, clientIp, csrfToken := None, None, None, None;
      rateLimit, flashSuccess, flashError := map[], None, None;
    }

    /** The session guard run by every page that loads security.php, with
        time() = now and the request's User-Agent and REMOTE_ADDR. */
    method Enforce(now: int, userAgent: Option<string>, remoteAddr: Option<string>, php: Builtins)
      returns (v: Verdict)
      modifies this
      ensures v == Anonymous <==> old(userId).None?
      ensures v == Anonymous ==> unchanged(this)
      ensures v == Expired <==> old(userId.Some? && ExpiredAt(now))
      ensures v == Hijacked <==>
        old(userId.Some? && !ExpiredAt(now) && AgentMismatch(php.sha256(userAgent.GetOr(""))))
      ensures v == Expired || v == Hijacked ==> IsCleared()
      ensures v.Active? ==>
        && lastActivity == Some(now)
        && userAgentHash == Some(php.sha256(userAgent.GetOr("")))
        && clientIp == (if old(clientIp).Some? then old(clientIp) else Some(remoteAddr.GetOr("")))
        && v.ipChanged == (old(clientIp).Some? && old(clientIp).value != remoteAddr.GetOr("") && !IsEmpty(remoteAddr.GetOr("")))
        && userId == old(userId) && name == old(name) && role == old(role)
        && loginTime == old(loginTime) && loginIp == old(loginIp) && csrfToken == old(csrfToken)
        && rateLimit == old(rateLimit) && flashSuccess == old(flashSuccess) && flashError == old(flashError)
    {
      if userId.None? {
        return Anonymous;
      }
      if lastActivity.Some? && now - lastActivity.value > SessionTimeout {
        Destroy();
        return Expired;
      }
      lastActivity := Some(now);
      var hash := php.sha256(userAgent.GetOr(""));
      if userAgentHash.None? {
        userAgentHash := Some(hash);
      } else if userAgentHash.value != hash {
        Destroy();
        return Hijacked;
      }
      var ip := remoteAddr.GetOr("");
      if clientIp.None? {
        clientIp := Some(ip);
        v := Active(false);
      } else {
        v := Active(clientIp.value != ip && !IsEmpty(ip));
      }
    }

    /** initializeCsrfToken() (and getCsrfToken(), which does the same):
        keep a non-empty token, otherwise store `newToken`. */
    method InitializeCsrfToken(newToken: string) returns (token: string)
      requires IsFreshToken(newToken)
      modifies this`csrfToken
      ensures csrfToken == Some(token) && !IsEmpty(token)
      ensures old(csrfToken).Some? && !IsEmpty(old(csrfToken).value) ==> csrfToken == old(csrfToken)
      ensures old(csrfToken).None? || IsEmpty(old(csrfToken).value) ==> token == newToken
      ensures forall s :: ValidateCsrfToken(s, csrfToken) <==> s == token
    {
      if csrfToken.None? || IsEmpty(csrfToken.value) {
        csrfToken := Some(newToken);
      }
      token := csrfToken.value;
    }

    /** regenerateCsrfToken(): always a new token. */
    method RegenerateCsrfToken(newToken: string) returns (token: string)
      requires IsFreshToken(newToken)
      modifies this`csrfToken
      ensures token == newToken && csrfToken == Some(newToken)
      ensures forall s :: ValidateCsrfToken(s, csrfToken) <==> s == newToken
    {
      csrfToken := Some(newToken);
      token := newToken;
    }

    /** What every page does by loading security.php: run the guard, and,
        unless it ended the request, make sure a CSRF token exists. */
    method Bootstrap(req: Request, php: Builtins, newToken: string) returns (v: Verdict)
      requires IsFreshToken(newToken)
      modifies this
      ensures v == Expired || v == Hijacked ==> IsCleared()
      ensures v.Anonymous? || v.Active? ==> csrfToken.Some? && !IsEmpty(csrfToken.value)
      ensures v.Anonymous? || v.Active? ==> userId == old(userId) && role == old(role) && name == old(name)
      ensures v.Anonymous? || v.Active? ==> rateLimit == old(rateLimit)
      ensures v.Anonymous? || v.Active? ==> csrfToken == TokenAfterInit(old(csrfToken), newToken)
      ensures v.Anonymous? <==> old(userId).None?
      ensures v.Active? <==> old(Admits(req, php))
      ensures v.Active? ==> lastActivity == Some(req.now)
    {
      v := Enforce(req.now, req.userAgent, req.remoteAddr, php);
      if v.Anonymous? || v.Active? {
        var _ := InitializeCsrfToken(newToken);
      }
    }

    /** The top of a page that loads security.php and then admits only
        administrators: the guard's redirect, or the redirect to the login
        page when the session is not an administrator's. */
    method AdminGate(req: Request, php: Builtins, newToken: string) returns (stop: Option<Response>)
      requires IsFreshToken(newToken)
      modifies this
      ensures stop.None? <==> old(IsAdmin() && Admits(req, php))
      ensures stop.Some? ==> stop.value.Redirect?
      ensures stop.None? ==>
        && userId == old(userId) && role == old(role) && name == old(name)
        && rateLimit == old(rateLimit)
        && csrfToken == TokenAfterInit(old(csrfToken), newToken)
    {
      var v := Bootstrap(req, php, newToken);
      stop := GuardResponse(v, req.baseUrl);
      if stop.None? && !IsAdmin() {
        stop := Some(Redirect(LoginPage));
      }
    }

    /** checkRateLimit($action, $maxAttempts, $timeWindow) at time `now`. */
    method CheckRateLimit(action: string, remoteAddr: Option<string>, maxAttempts: int, window: int, now: int)
      returns (allowed: bool)
      modifies this`rateLimit
      ensures var key := ClientKey(action, remoteAddr);
              var d := RateStep(Lookup(old(rateLimit), key), maxAttempts, window, now);
              allowed == d.allowed && rateLimit == old(rateLimit)[key := d.record]
    {
      var key := ClientKey(action, remoteAddr);
      if key !in rateLimit {
        rateLimit := rateLimit[key := RateRecord(1, now, now)];
        return true;
      }
      var data := rateLimit[key];
      if now - data.firstTime > window {
        rateLimit := rateLimit[key := RateRecord(1, now, now)];
        return true;
      }
      if data.count >= maxAttempts {
        return false;
      }
      rateLimit := rateLimit[key := data.(count := data.count + 1, lastTime := now)];
      allowed := true;
    }

    /** clearRateLimit($action): forget this client's record. */
    method ClearRateLimit(action: string, remoteAddr: Option<string>)
      modifies this`rateLimit
      ensures rateLimit == old(rateLimit) - {ClientKey(action, remoteAddr)}
    {
      rateLimit := rateLimit - {ClientKey(action, remoteAddr)};
    }

    /** getRateLimitRemaining($action, $maxAttempts). */
    function RateLimitRemaining(action: string, remoteAddr: Option<string>, maxAttempts: int): (r: int)
      reads this
      ensures ClientKey(action, remoteAddr) !in rateLimit ==> r == maxAttempts
      ensures ClientKey(action, remoteAddr) in rateLimit ==> r >= 0 && r >= maxAttempts - rateLimit[ClientKey(action, remoteAddr)].count
      ensures ClientKey(action, remoteAddr) in rateLimit ==> r == 0 || r == maxAttempts - rateLimit[ClientKey(action, remoteAddr)].count
    {
      var key := ClientKey(action, remoteAddr);
      Remaining(Lookup(rateLimit, key), maxAttempts)
    }
  }
}
