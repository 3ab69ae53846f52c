/** The guard in front of the `/setup` pages (src/server.js, lines 596-653): a fixed-window
    rate limiter per client address, and HTTP Basic authentication against SETUP_PASSWORD
    (section 2 of RFC 7617). Base64 decoding and SHA-256 are passed in as functions. */
module SetupAuth {
  import opened Text

  /** `setupRateLimiter.windowMs` and `setupRateLimiter.maxAttempts`. */
  const WindowMs: int := 60000
  const MaxAttempts: nat := 50

  /** One entry of `setupRateLimiter.attempts`. */
  datatype Window = Window(windowStart: int, count: nat)

  type Attempts = map<string, Window>

  /** Whether the window of an entry is over at time `now`. */
  predicate Expired(w: Window, now: int) {
    now - w.windowStart > WindowMs
  }

  /** `isRateLimited(ip)` at time `now`: a missing or expired entry is replaced by a fresh
      window holding this attempt, which is allowed; otherwise the attempt is counted and
      refused once the count passes the maximum. No other address is touched. */
  function Check(attempts: Attempts, ip: string, now: int): (res: (Attempts, bool))
    ensures ip in res.0 && res.0 == attempts[ip := res.0[ip]]
    ensures ip !in attempts || Expired(attempts[ip], now) ==>
      res.0[ip] == Window(now, 1) && !res.1
    ensures ip in attempts && !Expired(attempts[ip], now) ==>
      res.0[ip] == Window(attempts[ip].windowStart, attempts[ip].count + 1)
    ensures res.1 <==> res.0[ip].count > MaxAttempts
  {
    if ip !in attempts || Expired(attempts[ip], now) then (attempts[ip := Window(now, 1)], false)
    else
      var w := Window(attempts[ip].windowStart, attempts[ip].count + 1);
      (attempts[ip := w], w.count > MaxAttempts)
  }

  /** The periodic cleanup at time `now`: exactly the expired entries are deleted. */
  function Expire(attempts: Attempts, now: int): (r: Attempts)
    ensures forall ip :: ip in r <==> ip in attempts && !Expired(attempts[ip], now)
    ensures forall ip :: ip in r ==> r[ip] == attempts[ip]
  {
    map ip | ip in attempts && !Expired(attempts[ip], now) :: attempts[ip]
  }

  /** Attempts from one address at the given times; the allowed ones are counted. */
  function Attempt(attempts: Attempts, ip: string, times: seq<int>): (res: (Attempts, nat))
    decreases |times|
  {
    if times == [] then (attempts, 0)
    else
      var (next, limited) := Check(attempts, ip, times[0]);
      var (last, allowed) := Attempt(next, ip, times[1..]);
      (last, allowed + if limited then 0 else 1)
  }

  /** Within an open window every attempt is counted and at most what remains of the maximum
      is allowed. */
  lemma {:induction false} WindowBound(attempts: Attempts, ip: string, times: seq<int>)
    requires ip in attempts
    requires forall i :: 0 <= i < |times| ==> !Expired(attempts[ip], times[i])
    ensures var (last, allowed) := Attempt(attempts, ip, times);
      && ip in last
      && last[ip] == Window(attempts[ip].windowStart, attempts[ip].count + |times|)
      && allowed <= if attempts[ip].count >= MaxAttempts then 0 else MaxAttempts - attempts[ip].count
    decreases |times|
  {
    if times != [] {
      var (next, limited) := Check(attempts, ip, times[0]);
      WindowBound(next, ip, times[1..]);
    }
  }

  /** An address gets at most 50 attempts through per window: the attempt that opens the
      window and every later one that falls inside it. */
  lemma AtMostMaxPerWindow(attempts: Attempts, ip: string, start: int, times: seq<int>)
    requires ip !in attempts || Expired(attempts[ip], start)
    requires forall i :: 0 <= i < |times| ==> times[i] - start <= WindowMs
    ensures Attempt(attempts, ip, [start] + times).1 <= MaxAttempts
  {
    var (next, _) := Check(attempts, ip, start);
    assert ([start] + times)[1..] == times;
    WindowBound(next, ip, times);
  }

  /** `req.ip || req.socket?.remoteAddress || "unknown"` ("" stands for a missing value). */
  function ClientIp(reqIp: string, remoteAddress: string): (ip: string)
    ensures ip != ""
    ensures reqIp != "" ==> ip == reqIp
    ensures reqIp == "" && remoteAddress != "" ==> ip == remoteAddress
  {
    if reqIp != "" then reqIp else if remoteAddress != "" then remoteAddress else "unknown"
  }

  /** `Buffer.from(encoded, "base64").toString("utf8")`. */
  type Base64Decode = string -> string

  /** SHA-256 of a string's UTF-8 bytes. */
  type Digest = string -> seq<bv8>

  /** The password of decoded Basic credentials: everything after the first colon, "" when
      there is no colon. */
  function PasswordOf(decoded: string): (password: string)
    ensures ':' !in decoded ==> password == ""
    ensures ':' in decoded ==> decoded == decoded[..FindChar(decoded, ':')] + ":" + password
  {
    var i := FindChar(decoded, ':');
    if i == |decoded| then ""
    else
      assert decoded == decoded[..i] + [decoded[i]] + decoded[i + 1..];
      decoded[i + 1..]
  }

  /** Section 2 of RFC 7617: the user-id contains no colon, the password may; splitting at the
      first colon gives the password back. */
  lemma BasicPassword(userId: string, password: string)
    requires ':' !in userId
    ensures PasswordOf(userId + ":" + password) == password
  {
    var decoded := userId + ":" + password;
    var i := FindChar(decoded, ':');
    assert decoded[..|userId|] == userId;
    assert decoded[|userId|] == ':';
    assert i == |userId|;
    assert decoded[i + 1..] == password;
  }

  /** How `requireSetupAuth` answers. */
  datatype Outcome =
    | PasswordUnset      // 500
    | TooManyRequests    // 429
    | AuthRequired       // 401 "Auth required"
    | InvalidPassword    // 401 "Invalid password"
    | Authorized         // next()

  /** The credential check, once the rate limiter has let the request through: the header
      must be `Basic` followed by a non-empty second space-separated field, and the digest of
      the password it carries must equal that of the configured password. */
  function CheckCredentials(header: string, setupPassword: string, decode: Base64Decode, sha256: Digest): (o: Outcome)
    ensures o == AuthRequired || o == InvalidPassword || o == Authorized
    ensures o == Authorized <==>
      (Split(header, ' ')[0] == "Basic" && |Split(header, ' ')| >= 2 && Split(header, ' ')[1] != ""
       && sha256(PasswordOf(decode(Split(header, ' ')[1]))) == sha256(setupPassword))
    ensures o == AuthRequired <==>
      (Split(header, ' ')[0] != "Basic" || |Split(header, ' ')| < 2 || Split(header, ' ')[1] == "")
  {
    var parts := Split(header, ' ');
    var scheme := parts[0];
    if scheme != "Basic" || |parts| < 2 || parts[1] == "" then AuthRequired
    else
      var password := PasswordOf(decode(parts[1]));
      if sha256(password) == sha256(setupPassword) then Authorized else InvalidPassword
  }

  /** `header.split(" ")` of a well-formed Basic header. */
  lemma SplitBasic(encoded: string)
    requires ' ' !in encoded
    ensures Split("Basic " + encoded, ' ') == ["Basic", encoded]
  {
    var h := "Basic " + encoded;
    var i := FindChar(h, ' ');
    assert h[5] == ' ';
    assert forall k :: 0 <= k < 5 ==> h[k] != ' ';
    assert i == 5;
    assert h[..5] == "Basic" && h[6..] == encoded;
    FindCharAbsent(encoded, ' ');
  }

  /** A client that sends `Basic` and the encoding of `user:password`, with the right password
      and a user-id without colon, is let in, whatever the digest function. */
  lemma AcceptsValidCredentials(encoded: string, userId: string, setupPassword: string,
                                decode: Base64Decode, sha256: Digest)
    requires encoded != "" && ' ' !in encoded && ':' !in userId
    requires decode(encoded) == userId + ":" + setupPassword
    ensures CheckCredentials("Basic " + encoded, setupPassword, decode, sha256) == Authorized
  {
    SplitBasic(encoded);
    BasicPassword(userId, setupPassword);
  }

  /** A second space after the scheme leaves the credentials field empty: the request is
      refused as unauthenticated even if the credentials that follow are right. */
  lemma DoubleSpaceRefused(encoded: string, setupPassword: string, decode: Base64Decode, sha256: Digest)
    ensures CheckCredentials("Basic  " + encoded, setupPassword, decode, sha256) == AuthRequired
  {
    var h := "Basic  " + encoded;
    assert h[5] == ' ' && forall k :: 0 <= k < 5 ==> h[k] != ' ';
    assert FindChar(h, ' ') == 5;
    var rest := h[6..];
    assert rest[0] == ' ';
    assert FindChar(rest, ' ') == 0;
    assert Split(h, ' ')[1] == "";
  }

  /** The rate limiter's map, updated in place. */
  class SetupRateLimiter {
    var attempts: Attempts

    constructor ()
      ensures attempts == map[]
    {
      attempts := map[];
    }

    /** `isRateLimited(ip)` at time `now`. */
    method IsRateLimited(ip: string, now: int) returns (limited: bool)
      modifies this
      ensures (attempts, limited) == Check(old(attempts), ip, now)
    {
      if ip !in attempts || now - attempts[ip].windowStart > WindowMs {
        attempts := attempts[ip := Window(now, 1)];
        return false;
      }
      var data := attempts[ip];
      data := data.(count := data.count + 1);
      attempts := attempts[ip := data];
      limited := data.count > MaxAttempts;
    }

    /** The cleanup interval's callback at time `now`: walks the entries, deleting the
        expired ones. */
    method Cleanup(now: int)
      modifies this
      ensures attempts == Expire(old(attempts), now)
    {
      var pending := attempts.Keys;
      while pending != {}
        invariant pending <= old(attempts).Keys
        invariant forall ip :: ip in attempts <==>
          ip in old(attempts) && (ip in pending || !Expired(old(attempts)[ip], now))
        invariant forall ip :: ip in attempts ==> attempts[ip] == old(attempts)[ip]
        decreases pending
      {
        var ip :| ip in pending;
        if now - attempts[ip].windowStart > WindowMs {
          attempts := map k | k in attempts && k != ip :: attempts[k];
        }
        pending := pending - {ip};
      }
      assert attempts.Keys == Expire(old(attempts), now).Keys;
    }

    /** `requireSetupAuth`: password unset, rate limit, then credentials, in this order; the
        limiter is consulted only once the password is known to be set. `setupPassword` is
        `SETUP_PASSWORD` as the module reads it, trimmed ("" when unset or blank): both the
        500 branch and the digest comparison see the trimmed value. */
    method RequireSetupAuth(setupPassword: string, reqIp: string, remoteAddress: string, header: string,
                            now: int, decode: Base64Decode, sha256: Digest) returns (o: Outcome)
      modifies this
      ensures setupPassword == "" ==> o == PasswordUnset && attempts == old(attempts)
      ensures setupPassword != "" ==>
        var (next, limited) := Check(old(attempts), ClientIp(reqIp, remoteAddress), now);
        && attempts == next
        && o == (if limited then TooManyRequests else CheckCredentials(header, setupPassword, decode, sha256))
    {
      if setupPassword == "" {
        return PasswordUnset;
      }
      var ip := ClientIp(reqIp, remoteAddress);
      var limited := IsRateLimited(ip, now);
      if limited {
        return TooManyRequests;
      }
      o := CheckCredentials(header, setupPassword, decode, sha256);
    }
  }
}
