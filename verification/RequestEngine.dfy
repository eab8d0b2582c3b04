/** One `execute_raw`: admission by the breaker, the retry loop, and the record of its outcome. */
module RequestEngine {
  import opened Common
  import opened VaultErrors
  import opened Retry
  import Breaker = CircuitBreaker

  /** The clock readings of one call, and what other calls do to the breaker while it is in flight. */
  datatype Schedule = Schedule(at: nat, stamp: nat, others: seq<Breaker.Op>, recordedAt: nat)

  function Record(ok: bool, at: nat): Breaker.Op {
    if ok then Breaker.Success else Breaker.Failure(at)
  }

  /**
   * What happens at the breaker in the course of one call: its check, which may be refused,
   * and if it sends, the operations of other calls meanwhile and the record of its outcome.
   */
  function BreakerOps(s: Schedule, sends: bool, ok: bool): seq<Breaker.Op> {
    [Breaker.Check(s.at, s.stamp)] + if sends then s.others + [Record(ok, s.recordedAt)] else []
  }

  /**
   * A refused call sends and records nothing. An admitted call whose URL does not parse
   * sends and records nothing either. Every other call runs the retry loop and then
   * records exactly one outcome, after whatever the other calls did meanwhile.
   */
  method ExecuteRaw(breaker: Breaker.CircuitBreaker?, cfg: Config, url: Option<string>, cloneable: bool,
                    server: nat -> Response, s: Schedule)
    returns (result: Outcome, log: seq<Event>)
    requires breaker != null ==> breaker.Valid()
    modifies if breaker != null then {breaker} else {}
    ensures breaker != null ==> breaker.Valid()
    ensures breaker != null ==>
              var sends := Breaker.Admits(breaker.config, old(breaker.state), s.at) && url.Some?;
              breaker.history == old(breaker.history) + BreakerOps(s, sends, result.Ok?)
    ensures breaker != null && !Breaker.Admits(breaker.config, old(breaker.state), s.at) ==>
              result == Err(CircuitOpen) && log == [] && breaker.state == old(breaker.state)
    ensures var admitted := breaker == null || Breaker.Admits(breaker.config, old(breaker.state), s.at);
            && (admitted && url.None? ==> result.Err? && result.error.UrlParse? && log == [])
            && (admitted && url.Some? && !cloneable ==> result.Err? && result.error.Config? && log == [])
            && (admitted && url.Some? && cloneable ==>
                  var k := LastSend(cfg, url.value, server, 0);
                  result == Classify(url.value, server(k)) && Alternates(cfg, server, log, k))
    ensures Sends(log) <= cfg.maxRetries as nat + 1
  {
    log := [];
    if breaker != null {
      var admitted := breaker.Check(s.at, s.stamp);
      if !admitted {
        return Err(CircuitOpen), log;
      }
    }
    if url.None? {
      return Err(UrlParse("")), log;
    }
    result, log := SendWithRetry(cfg, url.value, cloneable, server);
    if cloneable {
      RetryBudget(cfg, url.value, server, log);
    }
    if breaker != null {
      breaker.Interleave(s.others);
      if result.Ok? {
        breaker.RecordSuccess();
      } else {
        breaker.RecordFailure(s.recordedAt);
      }
    }
  }
}
