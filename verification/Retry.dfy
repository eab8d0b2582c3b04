/** The retry loop (`send_with_retry`) refined to a one-line specification. */
module Retry {
  import opened Common
  import opened Backoff
  import opened VaultErrors

  datatype Config = Config(maxRetries: u32, initialRetryDelay: nat, retryOnSealed: bool)

  /** What one `send` brings back. `retryAfter` is the parsed header, if it is there and parses. */
  datatype Response =
    | Status(code: u16, retryAfter: Option<u64>, errors: seq<string>)
    | NetworkError(cause: HttpCause)

  datatype Outcome = Ok(response: Response) | Err(error: VaultError)

  /** What the loop does, in order. */
  datatype Event =
    | Sent(attempt: nat)
    | ServerDelay(time: nat)   // slept as long as `Retry-After` asked, capped
    | JitterDelay(ms: nat)     // slept a random part of the backoff, in milliseconds

  // --- Specification ---

  /** The answer a response stands for, were it the last one. */
  function Classify(url: string, r: Response): Outcome {
    match r
    case NetworkError(cause) => Err(Http(cause))
    case Status(code, retryAfter, errors) =>
      if 200 <= code <= 299 || code == 404 then Ok(r)
      else if code == 401 then Err(AuthRequired)
      else if code == 403 then Err(PermissionDenied(errors))
      else if code == 429 then Err(RateLimited(retryAfter))
      else if code == 412 then Err(ConsistencyRetry)
      else if code == 503 then Err(Sealed(url))
      else Err(Api(code, errors))
  }

  /** No retry follows: a success, an error that is not retryable, or a sealed Vault in CLI mode. */
  predicate Final(cfg: Config, url: string, r: Response) {
    match Classify(url, r)
    case Ok(_) => true
    case Err(e) => !IsRetryable(e) || (e.Sealed? && !cfg.retryOnSealed)
  }

  /** The first send from `i` on whose response is final, or else the last one allowed. */
  function LastSend(cfg: Config, url: string, server: nat -> Response, i: nat): (k: nat)
    requires i <= cfg.maxRetries as nat
    ensures i <= k <= cfg.maxRetries as nat
    ensures k == cfg.maxRetries as nat || Final(cfg, url, server(k))
    ensures forall j :: i <= j < k ==> !Final(cfg, url, server(j))
    decreases cfg.maxRetries as nat - i
  {
    if i == cfg.maxRetries as nat || Final(cfg, url, server(i)) then i
    else LastSend(cfg, url, server, i + 1)
  }

  /** The server named a delay in response `r`. */
  predicate NamesDelay(r: Response) {
    r.Status? && r.code == 429 && r.retryAfter.Some?
  }

  /** `e` is the wait that belongs between send `i`, answered `r`, and send `i + 1`. */
  predicate WaitFits(cfg: Config, r: Response, i: nat, e: Event) {
    if NamesDelay(r) then e == ServerDelay(Min(FromSecs(r.retryAfter.value), MAX_BACKOFF))
    else e.JitterDelay? && e.ms < JitterEnd(cfg.initialRetryDelay, i + 1)
  }

  /** Sends 0 to `k` with exactly one fitting wait between neighbours and none at the end. */
  predicate Alternates(cfg: Config, server: nat -> Response, log: seq<Event>, k: nat) {
    if k == 0 then log == [Sent(0)]
    else
      && |log| >= 2
      && log[|log| - 1] == Sent(k)
      && WaitFits(cfg, server(k - 1), k - 1, log[|log| - 2])
      && Alternates(cfg, server, log[..|log| - 2], k - 1)
  }

  // --- The loop ---

  /** `random_range(0..end)`: any value of the range. */
  method RandomRange(end: nat) returns (r: nat)
    requires end > 0
    ensures r < end
  {
    r :| r < end;
  }

  /** `log` is complete up to the wait in front of send number `attempt`. */
  ghost predicate ReadyToSend(cfg: Config, server: nat -> Response, log: seq<Event>, attempt: nat) {
    if attempt == 0 then log == []
    else
      && log != []
      && WaitFits(cfg, server(attempt - 1), attempt - 1, log[|log| - 1])
      && Alternates(cfg, server, log[..|log| - 1], attempt - 1)
  }

  lemma AfterWait(cfg: Config, server: nat -> Response, log: seq<Event>, attempt: nat, e: Event)
    requires attempt > 0 && Alternates(cfg, server, log, attempt - 1)
    requires WaitFits(cfg, server(attempt - 1), attempt - 1, e)
    ensures ReadyToSend(cfg, server, log + [e], attempt)
  {
  }

  lemma AfterSend(cfg: Config, server: nat -> Response, log: seq<Event>, attempt: nat)
    requires ReadyToSend(cfg, server, log, attempt)
    ensures Alternates(cfg, server, log + [Sent(attempt)], attempt)
  {
    var longer := log + [Sent(attempt)];
    if attempt > 0 {
      assert longer[..|longer| - 2] == log[..|log| - 1];
    }
  }

  /** None of the first `n` responses is final. */
  ghost predicate NoneFinal(cfg: Config, url: string, server: nat -> Response, n: nat) {
    if n == 0 then true else NoneFinal(cfg, url, server, n - 1) && !Final(cfg, url, server(n - 1))
  }

  lemma {:induction false} NoneFinalBefore(cfg: Config, url: string, server: nat -> Response, n: nat)
    requires NoneFinal(cfg, url, server, n)
    ensures forall j :: 0 <= j < n ==> !Final(cfg, url, server(j))
  {
    if n > 0 {
      NoneFinalBefore(cfg, url, server, n - 1);
    }
  }

  lemma StopsHere(cfg: Config, url: string, server: nat -> Response, attempt: nat)
    requires attempt <= cfg.maxRetries as nat && NoneFinal(cfg, url, server, attempt)
    ensures attempt == cfg.maxRetries as nat || Final(cfg, url, server(attempt))
            ==> LastSend(cfg, url, server, 0) == attempt
  {
    NoneFinalBefore(cfg, url, server, attempt);
  }

  /**
   * The `match` on a response: what to return, or how long to sleep before the next
   * round when the server named a delay.
   */
  method Judge(cfg: Config, url: string, attempt: nat, r: Response)
    returns (answer: Option<Outcome>, sleep: Option<nat>)
    ensures answer.Some? <==> attempt >= cfg.maxRetries as nat || Final(cfg, url, r)
    ensures answer.Some? ==> answer.value == Classify(url, r)
    ensures answer.None? ==>
              if NamesDelay(r) then sleep == Some(Min(FromSecs(r.retryAfter.value), MAX_BACKOFF))
              else sleep == None
  {
    var max := cfg.maxRetries as nat;
    sleep := None;
    match r
    case NetworkError(cause) =>
      if (cause.Timeout? || cause.Connect?) && attempt < max {
        return None, None;
      }
      return Some(Err(Http(cause))), None;
    case Status(code, retryAfter, errors) =>
      if 200 <= code <= 299 || code == 404 {
        return Some(Ok(r)), None;
      } else if code == 401 {
        return Some(Err(AuthRequired)), None;
      } else if code == 403 {
        return Some(Err(PermissionDenied(errors))), None;
      } else if code == 429 {
        if attempt >= max {
          return Some(Err(RateLimited(retryAfter))), None;
        }
        if retryAfter.Some? {
          return None, Some(Min(FromSecs(retryAfter.value), MAX_BACKOFF));
        }
        return None, None;
      } else if code == 412 {
        if attempt >= max {
          return Some(Err(ConsistencyRetry)), None;
        }
        return None, None;
      } else if code == 503 {
        if attempt >= max || !cfg.retryOnSealed {
          return Some(Err(Sealed(url))), None;
        }
        return None, None;
      } else {
        var e := Api(code, errors);
        if IsRetryable(e) && attempt < max {
          return None, None;
        }
        return Some(Err(e)), None;
      }
  }

  /**
   * `server(i)` answers send number `i`. A request whose body is a stream cannot be
   * cloned and is never sent.
   */
  method SendWithRetry(cfg: Config, url: string, cloneable: bool, server: nat -> Response)
    returns (result: Outcome, log: seq<Event>)
    ensures !cloneable ==> log == [] && result.Err? && result.error.Config?
    ensures cloneable ==>
              var k := LastSend(cfg, url, server, 0);
              result == Classify(url, server(k)) && Alternates(cfg, server, log, k)
  {
    var max := cfg.maxRetries as nat;
    var skipBackoff := false;
    log := [];
    for attempt := 0 to max + 1
      invariant attempt <= max
      invariant attempt > 0 ==> cloneable
      invariant NoneFinal(cfg, url, server, attempt)
      invariant if attempt == 0 || skipBackoff then ReadyToSend(cfg, server, log, attempt)
                else Alternates(cfg, server, log, attempt - 1) && !NamesDelay(server(attempt - 1))
    {
      if attempt > 0 && !skipBackoff {
        var ms := RandomRange(JitterEnd(cfg.initialRetryDelay, attempt));
        AfterWait(cfg, server, log, attempt, JitterDelay(ms));
        log := log + [JitterDelay(ms)];
      }
      skipBackoff := false;

      if !cloneable {
        return Err(VaultError.Config("request body not cloneable (stream body?)")), log;
      }

      AfterSend(cfg, server, log, attempt);
      log := log + [Sent(attempt)];
      var answer, sleep := Judge(cfg, url, attempt, server(attempt));
      if answer.Some? {
        StopsHere(cfg, url, server, attempt);
        return answer.value, log;
      }
      if sleep.Some? {
        AfterWait(cfg, server, log, attempt + 1, ServerDelay(sleep.value));
        log := log + [ServerDelay(sleep.value)];
        skipBackoff := true;
      }
    }
    assert false; // the loop always returns from within
  }

  // --- What the specification means ---

  function Sends(log: seq<Event>): nat {
    if log == [] then 0
    else Sends(log[..|log| - 1]) + if log[|log| - 1].Sent? then 1 else 0
  }

  function TotalWait(log: seq<Event>): nat {
    if log == [] then 0
    else TotalWait(log[..|log| - 1]) + WaitTime(log[|log| - 1])
  }

  function WaitTime(e: Event): nat {
    match e
    case Sent(_) => 0
    case ServerDelay(time) => time
    case JitterDelay(ms) => ms * MILLI
  }

  lemma WaitIsShort(cfg: Config, r: Response, i: nat, e: Event)
    requires WaitFits(cfg, r, i, e)
    ensures !e.Sent? && WaitTime(e) <= MAX_BACKOFF
  {
  }

  /**
   * The wait between send `i`, answered `r`, and the next: the named delay of a 429 but at
   * most 30 s, or else a whole number of milliseconds below the doubled delay and below 30 s.
   */
  predicate WaitIs(cfg: Config, r: Response, i: nat, e: Event) {
    match r
    case Status(429, Some(secs), _) => e == ServerDelay(Min(secs as nat * 1_000_000_000, 30_000_000_000))
    case _ =>
      && e.JitterDelay?
      && (e.ms == 0
          || (e.ms + 1) * 1_000_000
             <= Min(cfg.initialRetryDelay * Min(Pow2(i), 4_294_967_295), 30_000_000_000))
  }

  lemma WaitFitsExactly(cfg: Config, r: Response, i: nat, e: Event)
    ensures WaitFits(cfg, r, i, e) <==> WaitIs(cfg, r, i, e)
  {
    if e.JitterDelay? {
      JitterEndExactly(cfg.initialRetryDelay, i + 1, e.ms);
    }
  }

  /** What stands at place `i` of a log: sends in order, and the waits between them. */
  predicate EventIs(cfg: Config, server: nat -> Response, log: seq<Event>, i: nat)
    requires i < |log|
  {
    if i % 2 == 0 then log[i] == Sent(i / 2) else WaitIs(cfg, server(i / 2), i / 2, log[i])
  }

  /** The logs of a call are exactly the alternations of sends and such waits, `k` of them. */
  lemma {:induction false} EventsAlternate(cfg: Config, server: nat -> Response, log: seq<Event>, k: nat)
    ensures Alternates(cfg, server, log, k) <==>
              |log| == 2 * k + 1 && forall i :: 0 <= i < |log| ==> EventIs(cfg, server, log, i)
  {
    if k == 0 {
      assert |log| == 1 && EventIs(cfg, server, log, 0) ==> log == [Sent(0)];
    } else if |log| >= 2 {
      var n := |log| - 2;
      var shorter := log[..n];
      EventsAlternate(cfg, server, shorter, k - 1);
      WaitFitsExactly(cfg, server(k - 1), k - 1, log[n]);
      assert forall i :: 0 <= i < n ==> (EventIs(cfg, server, log, i) <==> EventIs(cfg, server, shorter, i));
      if |log| == 2 * k + 1 {
        assert EventIs(cfg, server, log, n) <==> WaitIs(cfg, server(k - 1), k - 1, log[n]);
        assert EventIs(cfg, server, log, n + 1) <==> log[n + 1] == Sent(k);
      }
    }
  }

  /** So `k` retries make `k + 1` sends, and wait for at most 30 s each. */
  lemma {:induction false} SendsAndWaits(cfg: Config, server: nat -> Response, log: seq<Event>, k: nat)
    requires Alternates(cfg, server, log, k)
    ensures Sends(log) == k + 1 && |log| == 2 * k + 1
    ensures TotalWait(log) <= MAX_BACKOFF * k
  {
    if k == 0 {
      assert log[..0] == [];
    } else {
      var wait := log[|log| - 2];
      WaitIsShort(cfg, server(k - 1), k - 1, wait);
      SendsAndWaits(cfg, server, log[..|log| - 2], k - 1);
      var shorter := log[..|log| - 1];
      assert shorter[..|shorter| - 1] == log[..|log| - 2];
    }
  }

  /** Whatever the server does: at most `max_retries + 1` sends, and 30 s of waiting per retry. */
  lemma RetryBudget(cfg: Config, url: string, server: nat -> Response, log: seq<Event>)
    requires Alternates(cfg, server, log, LastSend(cfg, url, server, 0))
    ensures 1 <= Sends(log) <= cfg.maxRetries as nat + 1
    ensures TotalWait(log) <= MAX_BACKOFF * cfg.maxRetries as nat
  {
    var k := LastSend(cfg, url, server, 0);
    SendsAndWaits(cfg, server, log, k);
    MulMonotone(MAX_BACKOFF, k, cfg.maxRetries as nat);
  }

  /** The mapped error remembers the status it came from. */
  lemma ClassifyKeepsStatus(url: string, r: Response)
    requires r.Status?
    ensures Classify(url, r).Err? ==> StatusCode(Classify(url, r).error) == Some(r.code)
    ensures Classify(url, r).Ok? <==> 200 <= r.code <= 299 || r.code == 404
  {
  }

  /** Nothing that the server said gets lost: the error names the address, the delay or the messages. */
  lemma ClassifyKeepsMessages(url: string, r: Response)
    ensures match Classify(url, r)
            case Ok(response) => response == r
            case Err(Http(cause)) => r == NetworkError(cause)
            case Err(Sealed(address)) => r.Status? && r.code == 503 && address == url
            case Err(RateLimited(delay)) => r.Status? && r.code == 429 && delay == r.retryAfter
            case Err(PermissionDenied(messages)) => r.Status? && r.code == 403 && messages == r.errors
            case Err(Api(code, messages)) =>
              r.Status? && code == r.code && messages == r.errors && code !in {401, 403, 404, 412, 429, 503}
            case Err(AuthRequired) => r.Status? && r.code == 401
            case Err(ConsistencyRetry) => r.Status? && r.code == 412
            case Err(_) => false
  {
  }

  /** The statuses that are retried, with and without CLI mode, and the failures of the network that are. */
  lemma RetriedStatuses(cfg: Config, url: string, r: Response)
    ensures !Final(cfg, url, r) <==>
            match r
            case Status(code, _, _) => code in {412, 429, 500, 502, 504} || (code == 503 && cfg.retryOnSealed)
            case NetworkError(cause) => cause in {Timeout, Connect}
  {
  }
}
