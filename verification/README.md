# The request engine of vault-client-rs, modelled and proved

vault-client-rs is an HTTP client for Vault. Its endpoint methods are thin, but they all go
through one request engine, and this project models that engine in Dafny 4.11 and proves what
it promises, or shows exactly when it does. `dafny verify dfyconfig.toml` checks everything.

**Paths** (`PathEncoding`, `Kv2Urls`, `VaultPath`, `LoginPath`). The percent-encoder and its
inverse over all byte strings, the KV2 request paths and a parser for them, the path check, and
the login paths of the nine built-in auth methods.

**One request** (`VaultErrors`, `Backoff`, `Retry`, `CircuitBreaker`, `RequestEngine`). The retry
loop is an imperative loop over an arbitrary server, refined to one sentence: the answer is the
classification of the first final response. The breaker is a class whose mutex-protected methods
are proved against a function on states; theorems about histories of that function cover every
interleaving of checks, records and abandoned calls, because the mutex puts them in one order.
`RequestEngine.ExecuteRaw` joins the two with the operations of other calls in between.

**The token lifecycle** (`TokenStore`, `Lifecycle*`, `VaultClient`). `Lifecycle` is a step system
with any number of callers, each a stack of nested activations of `execute`, other writers of the
token, one lock that is not reentrant, a clock and a server that answers as it likes. Each read,
lock, write, callback, request and answer is a step of its own, and a caller may be dropped where
it waits. Its theorems are about every run. `LifecycleLimits` holds the runs that show what is not
promised, and the exact conditions; `LifecycleDecision` tells what every look at the token decides
from the log of the run. `VaultClient.Client` is the same path through the code for one caller as
methods, in the order of the source, with the token changing at every wait; what they do is
determined by the answers, the breaker and the clock, and Dafny's termination check is the proof that
the recursion through the login is bounded. `LifecycleOutcomes` gives exactly the ways in which a
call can end in the step system, and `ClientRuns` a run of it for every call of the client.
`ClientCourse` tells each call of the client from the last writes and the answers alone.
`LifecycleAnnouncements` says when the order of the announcements is that of the stores.

**Lease watchers** (`LeaseWatcher`, `Watcher*`, `RenewalTiming`). The background task, its handle,
the event channel with 16 slots and the clock are another step system. The event traces are
characterised exactly, and so is the condition under which `shutdown` returns. `WatcherLoop` holds
the loops as they are written, determined by their inputs and refined to the step system.

**The token daemon** (`TokenDaemon`). The renewal daemon runs beside the callers of the lifecycle.
The exact leases are given for which a punctual daemon spares the callers every renewal.

Conventions: instants and durations are counted in nanoseconds. `mul_f64(0.66)` and `mul_f64(0.2)`
are taken as the exact rationals 33/50 and 1/5. Random jitter is an arbitrary value of its range.
The order in which waiting callers get the renewal lock is arbitrary, which includes the fair
order that tokio uses.

Where the code does something else than its documentation says, the model follows the code:

- The documentation of `ensure_valid_token` says that concurrent callers share a single renew-self
  call. They do for four fifths of a lease after a renewal that carried `auth`; a successful
  answer without `auth` is not shared (`SecondLookExactly`, `RenewalWithoutAuthIsNotShared`).
- The second look does not ask whether the token is renewable, so renew-self is also sent for tokens
  that are not (`RenewedExactly`).
- `shutdown` of a lease watcher is documented to wait for the task. Because a send is not raced
  against the cancellation and nobody receives any more, it may wait forever
  (`StuckIsReachable`, `ShutdownExactly`).
- A failure threshold of 0 behaves like 1.
- A login that is answered 404 fails with `NotFound` before its body is looked at; a renewal that is
  answered 404 is judged by its body, because `renew_token_via_api` does not look at the status.

## Model

| member | source | states |
|---|---|---|
| `PathEncoding.EncodePath` | crates/vault-client-rs/src/client/async_client.rs:1090-1101 | The loop appends, for every byte string, exactly the encoding that the lemmas below describe. |
| `PathEncoding.DecodeUndoesEncode` | crates/vault-client-rs/src/client/async_client.rs:1090-1101 | One round of percent-decoding (section 2.1 of RFC 3986) gives every byte string back. |
| `PathEncoding.EncodeInjective` | crates/vault-client-rs/src/client/async_client.rs:1090-1101 | Two paths have the same encoding exactly when they are equal. |
| `PathEncoding.EncodeConcat` | crates/vault-client-rs/src/client/async_client.rs:1090-1101 | The encoding of a concatenation is the concatenation of the encodings. |
| `PathEncoding.EncodeKeepsSegments` | crates/vault-client-rs/src/client/async_client.rs:1087-1101 | Splitting an encoded path at `/` gives the encodings of the pieces of the path. |
| `PathEncoding.EncodeAlphabet` | crates/vault-client-rs/src/client/async_client.rs:1094-1097 | Every output byte is printable ASCII other than `#`, `%`, `?`, `[` and `]`, or belongs to an escape of `%` and two upper-case hexadecimal digits. |
| `PathEncoding.EncodeLength` | crates/vault-client-rs/src/client/async_client.rs:1091-1099 | The output is one to three times as long as the input, as long only if nothing was escaped, and unchanged exactly when every byte is printable ASCII other than those five. |
| `PathEncoding.EncodeTwice` | crates/vault-client-rs/src/client/async_client.rs:1090-1101 | Encoding twice equals encoding once exactly when the input is unchanged by encoding. |
| `Kv2Urls.UrlHasOneQuestion` | crates/vault-client-rs/src/api/kv2.rs:59-71 | Any two positions of `?` in a KV2 path coincide, and it is the one right before the query. |
| `Kv2Urls.ParseUndoesUrl` | crates/vault-client-rs/src/api/kv2.rs:37-71 | A server that knows mount and operation recovers path and query from the URL, for every mount, path, operation word and number. |
| `Kv2Urls.VersionUrlRoundTrip` | crates/vault-client-rs/src/api/kv2.rs:54-71 | The versioned read path gives back the secret path and the u64 version. |
| `Kv2Urls.VersionUrlSegments` | crates/vault-client-rs/src/api/kv2.rs:59-71 | In front of its `?` stand the encoded segments of the mount, `data` and those of the secret path, and behind it `version=` and the number. |
| `Kv2Urls.SubkeysUrlRoundTrip` | crates/vault-client-rs/src/api/kv2.rs:186-196 | The subkeys path gives back the secret path and whether and which depth was asked for. |
| `Kv2Urls.SubkeysUrlSegments` | crates/vault-client-rs/src/api/kv2.rs:186-196 | The same for `subkeys` and `depth=`, without a `?` if there is no depth. |
| `Kv2Urls.UrlInjective` | crates/vault-client-rs/src/api/kv2.rs:202-211 | Requests to one mount with the same path have the same operation, secret path and query. |
| `VaultPath.AcceptedExactly` | crates/vault-client-rs/src/types/secret.rs:7-22 | A path is accepted if and only if its first and last segments are not empty, no segment has `..` in it, and there is no escape of a dot or slash and no control character. |
| `VaultPath.AcceptedSurvivesDecoding` | crates/vault-client-rs/src/types/secret.rs:7-22 | For every accepted path, one round of decoding leaves the number of `/`, adds no leading or trailing `/` and no `..`, and the encoded path decodes back to it. |
| `VaultPath.DecodeAddsNoDotDot` | crates/vault-client-rs/src/types/secret.rs:9-16 | Without escaped dots, a `..` after decoding was there before. |
| `VaultPath.DelimitersExactly` | crates/vault-client-rs/src/types/secret.rs:13-16 | For every text, decoding loses no dot and no slash, and adds none if and only if no escape of one is in it. |
| `VaultPath.TwoRoundsExactly` | crates/vault-client-rs/src/types/secret.rs:7-22 | For an accepted path, a second round changes no dot or slash if and only if the once decoded text holds no escape of one; then the path stays inside its mount. |
| `VaultPath.TwoRoundsMayEscape` | crates/vault-client-rs/src/types/secret.rs:13-16 | Otherwise it may not: `%252e%252e` is accepted and decodes to `..` in two rounds. |
| `LoginPath.BuiltInLoginIsExempt` | crates/vault-client-rs/src/api/auth/mod.rs:248-397 | The login path of every built-in method passes the `is_login` test, for every mount and user name. |
| `LoginPath.LoginSegments` | crates/vault-client-rs/src/api/auth/userpass.rs:22-29 | A server reads `auth`, the encoded segments of the mount, `login`, and for userpass and LDAP those of the user name, for every method, mount and user name. |
| `LoginPath.IsLoginExactly` | crates/vault-client-rs/src/client/async_client.rs:845-847 | A path passes the `is_login` test if and only if its first segment is `auth`, it has others, and one of them starts with `login`. |
| `LoginPath.RenewSelfSegments` | crates/vault-client-rs/src/client/async_client.rs:828-831 | The renewal goes to `auth`, `token`, `renew-self`. |
| `LoginPath.RenewSelfIsNotExempt` | crates/vault-client-rs/src/client/async_client.rs:828-831 | The renew-self path does not pass the test, so it has to bypass `execute`. |
| `Backoff.IdealExactly` | crates/vault-client-rs/src/client/async_client.rs:958-965 | The saturating, checked, capped delay equals min(30 s, d * 2^(attempt-1)) over unbounded integers for every attempt if and only if d is 0 or at least 7 ns. |
| `Backoff.LargeOrSmallIsIdeal` | crates/vault-client-rs/src/client/async_client.rs:958-965 | For any d the two agree on the first 32 retries, and for d = 0 or d >= 7 ns on all. |
| `Backoff.CappedNondecreasing` | crates/vault-client-rs/src/client/async_client.rs:958-965 | The capped delay never shrinks from one attempt to a later one. |
| `Backoff.JitterEndExactly` | crates/vault-client-rs/src/client/async_client.rs:958-967 | For every delay d and every attempt, the jitter range is exactly 0 and the whole milliseconds below the smaller of 30 s and d times the power of two, which stops growing at 2^32 - 1. |
| `Backoff.JitterIsExponential` | crates/vault-client-rs/src/client/async_client.rs:958-967 | For d = 0 and d >= 7 ns it is the power of two for every attempt. |
| `Backoff.JitterRange` | crates/vault-client-rs/src/client/async_client.rs:966-967 | The jitter range is never empty, and every delay in it is below 30 s and below the capped delay, or zero. |
| `Retry.Judge` | crates/vault-client-rs/src/client/async_client.rs:982-1039 | A response ends the loop exactly when it is final or the last allowed one; the answer is its classification; otherwise the sleep is the capped Retry-After exactly when a 429 names one. |
| `Retry.SendWithRetry` | crates/vault-client-rs/src/client/async_client.rs:948-1043 | For every response sequence: the classification of the first final response or of number `max_retries`; a log of that many retries as characterised by `EventsAlternate`; the code after the loop is not reached. |
| `Retry.LastSend` | crates/vault-client-rs/src/client/async_client.rs:957-1042 | The index is the first final one at or after the start, or else `max_retries`. |
| `Retry.EventsAlternate` | crates/vault-client-rs/src/client/async_client.rs:957-1009 | A log is one of a call with k retries if and only if sends, numbered in order, and single waits alternate in it, each wait being the named delay of a 429 but at most 30 s, or a jitter from the range above. |
| `Retry.SendsAndWaits` | crates/vault-client-rs/src/client/async_client.rs:957-971 | So k retries are k + 1 sends and at most k times 30 s of waiting. |
| `Retry.RetryBudget` | crates/vault-client-rs/src/client/async_client.rs:954-1042 | Whatever the server does: at most `max_retries + 1` sends and 30 s * `max_retries` of waiting. |
| `Retry.ClassifyKeepsStatus` | crates/vault-client-rs/src/types/error.rs:100-111 | `status_code` of the mapped error is the status of the response; exactly 2xx and 404 are successes. |
| `Retry.ClassifyKeepsMessages` | crates/vault-client-rs/src/client/async_client.rs:976-1040 | Nothing the server said gets lost: each error comes from one status and names the messages, the delay, the address or the cause. |
| `VaultErrors.RetryableByStatus` | crates/vault-client-rs/src/types/error.rs:85-111 | Whether an error with a status is retryable depends on that status alone: 500, 502, 503 and 504 for `Api`, 412, 429 and 503 for the others. |
| `Retry.RetriedStatuses` | crates/vault-client-rs/src/types/error.rs:85-92 | The statuses that are retried are exactly 412, 429, 500, 502, 504 and, outside CLI mode, 503; of the network errors, timeouts and failed connections. |
| `CircuitBreaker.CircuitBreaker.Check` | crates/vault-client-rs/src/circuit_breaker.rs:51-80 | The mutable breaker admits and changes as `Apply` says, reading the clock twice; its state is that of its whole history. |
| `CircuitBreaker.CircuitBreaker.RecordSuccess` | crates/vault-client-rs/src/circuit_breaker.rs:83-89 | The new state is `Apply` of a success. |
| `CircuitBreaker.CircuitBreaker.RecordFailure` | crates/vault-client-rs/src/circuit_breaker.rs:93-121 | The new state is `Apply` of a failure; the `u32` increment is in range because of the invariant. |
| `CircuitBreaker.CircuitBreaker.Interleave` | crates/vault-client-rs/src/circuit_breaker.rs:51-121 | Any sequence of operations of other calls leaves the state that the history function gives. |
| `CircuitBreaker.ClosedIffFewFailures` | crates/vault-client-rs/src/circuit_breaker.rs:83-121 | After every history the circuit is closed exactly when fewer than max(1, threshold) failures were recorded since the last success or the start, and then it lets everybody through and the counter is that number. |
| `CircuitBreaker.ProbesAreSpaced` | crates/vault-client-rs/src/circuit_breaker.rs:55-79 | From any open or half-open state, without a recorded success, the first admission comes at least `reset_timeout` after the last transition and admissions are at least that far apart. |
| `CircuitBreaker.SpacedAfterOpening` | crates/vault-client-rs/src/circuit_breaker.rs:91-121 | A failure that is the last straw or ends a probe opens the circuit; for every history before it, and every later one without a success, admissions are spaced from then on. |
| `CircuitBreaker.AdmissionRate` | crates/vault-client-rs/src/circuit_breaker.rs:55-79 | n such admissions take at least n - 1 timeouts. |
| `CircuitBreaker.StateOfHistory` | crates/vault-client-rs/src/circuit_breaker.rs:51-121 | After every history the state is told by the history alone: the failures since the last success, and when the last opening failure or admitted probe was. Refused checks and failures of late calls leave no trace. |
| `CircuitBreaker.RecoversExactly` | crates/vault-client-rs/src/circuit_breaker.rs:66-78 | After every history, a check is admitted if and only if too few failures were recorded or `reset_timeout` has passed since the last move; neither refused checks nor abandoned probes put that off. |
| `CircuitBreaker.AlwaysRecovers` | crates/vault-client-rs/src/circuit_breaker.rs:66-78 | So a check one timeout after the last move is admitted whatever happened, and so is any check one timeout after the last operation. |
| `CircuitBreaker.LateSuccessCloses` | crates/vault-client-rs/src/circuit_breaker.rs:83-89 | However the circuit opened, and with any operations but successes since, a success closes it, also when no probe was admitted. |
| `CircuitBreaker.LateSuccessIsPossible` | crates/vault-client-rs/src/circuit_breaker.rs:83-89 | For every threshold there is a history in which a call admitted before the circuit opened does so. |
| `RequestEngine.ExecuteRaw` | crates/vault-client-rs/src/client/async_client.rs:856-912 | A refused call sends and records nothing; one with a bad URL sends and records nothing after admission; every other one records exactly one outcome after the retry loop. The history of the breaker grows by exactly these operations and those of other calls in between. |
| `TokenStore.TokenCell.SetToken` | crates/vault-client-rs/src/client/async_client.rs:545-558 | The token becomes the given one, which never expires, and nobody is notified. |
| `TokenStore.TokenCell.UpdateTokenFromAuth` | crates/vault-client-rs/src/client/async_client.rs:581-603 | The token gets the value, the renewable flag, the lease and the end that were granted, and exactly one notification follows. |
| `TokenStore.DueAfterFourFifths` | crates/vault-client-rs/src/client/async_client.rs:737-745 | A token is due only when it has a lease and four fifths of it have passed since it was written. |
| `TokenStore.DueExactly` | crates/vault-client-rs/src/client/async_client.rs:737-745 | For whole seconds and an expiry that the clock can hold this is exact. |
| `LifecycleSafety.RunKeepsLock` | crates/vault-client-rs/src/client/async_client.rs:777-809 | In every run the lock names exactly the activation that is inside the locked arm. |
| `LifecycleSafety.MutualExclusion` | crates/vault-client-rs/src/client/async_client.rs:747-751 | In every run of any number of callers and writers at most one activation is inside the locked arm, whatever the auth method. |
| `LifecycleSharing.RenewalsAreSpaced` | crates/vault-client-rs/src/client/async_client.rs:778-809 | If every granted lease is zero or at least L, any locked renew-self starts at least 4L/5 after any earlier locked renewal was stored. |
| `LifecycleSharing.QueuedCallersShare` | crates/vault-client-rs/src/client/async_client.rs:782-795 | Within 4L/5 of a stored locked renewal, a caller that gets the lock leaves it without a request. |
| `LifecycleSharing.ExpiryOverRuns` | crates/vault-client-rs/src/client/async_client.rs:587-596 | In every run the stored expiry is its write time plus a positive lease. |
| `LifecycleProgress.CallsInOrder` | crates/vault-client-rs/src/client/async_client.rs:752-852 | In every run a caller nests at most two activations and issues at most renew-self, login and request, in that order. If it issued the request, its renewal was answered, or failed and was followed by a login, and its login was answered with an auth value that it stored twice. |
| `LifecycleProgress.ResultsAreEarned` | crates/vault-client-rs/src/client/async_client.rs:795-852 | In every run a finished `execute` gives back the answer to its request; or it fails without a request, and then its login failed or brought no `auth`, or its renewal failed and there is no method. Only tasks started as writers are exempt. |
| `LifecycleOutcomes.OutcomesExactly` | crates/vault-client-rs/src/client/async_client.rs:752-852 | For every path outside the `is_login` test: what calls have issued, received and stored when they give their reply, over all runs, is exactly what the rules for being let through or turned away allow. |
| `LifecycleProgress.BoundedWork` | crates/vault-client-rs/src/client/async_client.rs:752-852 | In every run a caller takes at most 18 steps of its own. |
| `LifecycleProgress.DroppedWhereItWaits` | crates/vault-client-rs/src/client/async_client.rs:777-852 | In every run a caller can be dropped exactly while it waits for an answer or for the lock. |
| `LifecycleProgress.NoDeadlock` | crates/vault-client-rs/src/client/async_client.rs:777-809 | A caller that cannot move waits for the lock, and the owner, another caller, can move. |
| `LifecycleProgress.StuckMeansDone` | crates/vault-client-rs/src/client/async_client.rs:777-852 | When nobody can move, everybody has an answer or was dropped, and the lock is free. |
| `LifecycleProgress.BuiltInLoginIsExemptEverywhere` | crates/vault-client-rs/src/api/auth/mod.rs:248-397 | These results apply to every built-in method, mount and user name. |
| `LifecycleTokens.TokenChangesAreConserved` | crates/vault-client-rs/src/client/async_client.rs:581-603 | In every run what was announced was stored; once everybody is done the two bags of (caller, auth) are equal; `set_token` is in neither. |
| `LifecycleTokens.RunKeepsBags` | crates/vault-client-rs/src/client/async_client.rs:581-603 | In every run, how often the log has a caller store a value is how often that caller stored it. |
| `LifecycleTokens.LogMatchesCalls` | crates/vault-client-rs/src/client/async_client.rs:830-851 | In every run the log has a caller send exactly the requests that it issued, in order. |
| `LifecycleTokens.ReauthenticationCountsTwice` | crates/vault-client-rs/src/api/auth/approle.rs:33-36 | A caller that logged in and went on has contributed exactly two equal entries to what was stored and, once everybody is done, to what was announced. |
| `LifecycleTokens.OnlyOverwrittenTokensAreRenewedInVain` | crates/vault-client-rs/src/client/async_client.rs:784-797 | The second look moves on to renew a non-renewable token only if somebody wrote the token since the first look. |
| `LifecycleTokens.RequestsCarryAToken` | crates/vault-client-rs/src/client/async_client.rs:764-776 | With an auth method, a request that is not a login is only sent once a token is stored, in every run. |
| `LifecycleDecision.TokenIsLastWrite` | crates/vault-client-rs/src/client/async_client.rs:545-603 | In every run the stored token is the one of the last write in the log of all callers and writers. |
| `LifecycleDecision.StoredTokenExactly` | crates/vault-client-rs/src/client/async_client.rs:581-596 | So in every run it has the client token, the flag, the lease and the end of the last grant, or is the plain token that was set, or there is none. |
| `LifecycleDecision.FirstLookExactly` | crates/vault-client-rs/src/client/async_client.rs:759-772 | In every run, told from the last write: a caller queues for a renewal if and only if that was a renewable grant of whose lease four fifths are over; it logs in if and only if there is a method and nothing was ever written or a grant is due and not renewable; otherwise it sends its request. |
| `LifecycleDecision.SecondLookExactly` | crates/vault-client-rs/src/client/async_client.rs:782-795 | In every run a caller with the lock goes on to renew if and only if the last write was a grant with an expiry on the clock of whose lease four fifths are over. An answer without `auth` is no write, so it is not shared. |
| `LifecycleDecision.PlainTokensAreLeftAlone` | crates/vault-client-rs/src/client/async_client.rs:737-745 | In every run of a client built with a token without expiry, `set_token` included, until somebody stores a login answer each caller issues at most its own request, and nobody takes the lock. |
| `LifecycleLimits.RenewalWithoutAuthIsNotShared` | crates/vault-client-rs/src/client/async_client.rs:833-836 | A run with two locked renewals at one instant, because the first answer carried no `auth`; the exact condition is `SecondLookExactly`. |
| `LifecycleLimits.SelfDeadlockExactly` | crates/vault-client-rs/src/client/async_client.rs:845-850 | No run lets a caller wait for its own lock if and only if the login path passes the `is_login` test. |
| `LifecycleLimits.SelfDeadlockIsForever` | crates/vault-client-rs/src/client/async_client.rs:777-804 | Such a wait ends only when the caller is dropped. |
| `LifecycleLimits.NestingExactly` | crates/vault-client-rs/src/client/async_client.rs:845-850 | The nesting of `execute` stays at two in all runs if and only if the login path passes the test. |
| `LifecycleLimits.OtherLoginPathsNest` | crates/vault-client-rs/src/client/async_client.rs:813-822 | Otherwise it reaches any depth. |
| `LifecycleLimits.AnnouncementsMayLag` | crates/vault-client-rs/src/client/async_client.rs:597-601 | A run in which the last announced value is not the stored one, because the callback runs after the write guard is dropped. |
| `LifecycleAnnouncements.InStepExactly` | crates/vault-client-rs/src/client/async_client.rs:581-603 | For every run: the announcements are at every moment the stores in order, one behind at most, if and only if nobody ever stores while an announcement is outstanding. |
| `LifecycleAnnouncements.AnnouncementsCanBeOvertaken` | crates/vault-client-rs/src/client/async_client.rs:597-601 | From every reachable state with one announcement outstanding and another caller about to store, three steps make the last announcement a different one from the last store. |
| `LifecycleLimits.RenewedExactly` | crates/vault-client-rs/src/client/async_client.rs:784-797 | For every grant: some run decides under the lock to renew a token stored for it if and only if its lease is positive and can be on the clock, whether or not it is renewable. |
| `LifecycleLimits.AnyGrantIsRenewed` | crates/vault-client-rs/src/client/async_client.rs:784-797 | For every such grant, a run that sends renew-self under the lock while the token stored for it is the current one. |
| `VaultClient.Client.Execute` | crates/vault-client-rs/src/client/async_client.rs:839-852 | With others using the token and the breaker at every wait: which requests are issued and where, each answer, the result, the stored token, the announcements and the history of the breaker are determined; a request is refused if and only if the breaker does not admit it after the history so far; the own request is issued if and only if the lifecycle ended well; the guard is released and the recursion through the login terminates. |
| `VaultClient.Client.EnsureValidToken` | crates/vault-client-rs/src/client/async_client.rs:752-810 | A renewal if and only if both looks call for it, a login if and only if there is a method and the first look calls for it or the renewal failed; the result is the verdict on the last answer; token, announcements and breaker are those of the answers. |
| `VaultClient.Client.RenewTokenViaApi` | crates/vault-client-rs/src/client/async_client.rs:828-837 | One renew-self that bypasses `execute`, refused if and only if the breaker says so; success if and only if the body parses, whatever the status, and one store and one announcement if and only if it carries `auth`. |
| `VaultClient.Client.TryReAuthenticate` | crates/vault-client-rs/src/client/async_client.rs:813-822 | `AuthRequired` without a method; else one login, whose auth value, if there is one, is stored and announced twice, and success if and only if there is one. |
| `VaultClient.Client.ExecWithAuth` | crates/vault-client-rs/src/client/async_client.rs:667-682 | A login answered 404 is `NotFound` with the path, whatever its body; otherwise the body decides. |
| `VaultClient.Client.LogIn` | crates/vault-client-rs/src/api/auth/approle.rs:20-36 | One login request to the path of the method; success if and only if the answer is not a 404, parses and carries `auth`, which is then stored and announced once. |
| `ClientCourse.CourseExactly` | crates/vault-client-rs/src/client/async_client.rs:752-852 | Told from the last write before each look: the first request is a renewal if and only if a renewable grant is due at the first look and a grant is due at the second; a login if and only if there is a method and no token or a due grant that is not renewable; every later request and every error follows from the answer before, and all go to the right path. |
| `ClientCourse.SettleExactly` | crates/vault-client-rs/src/api/auth/approle.rs:33-36 | A renewal with `auth` leaves that grant behind and announces it once, a login that is not a 404 leaves it behind and announces it twice, and everything else leaves what others left. |
| `ClientCourse.AnswerIsTheServers` | crates/vault-client-rs/src/client/async_client.rs:667-682 | An admitted request brings the last response of the server: success exactly for 2xx and 404, the mark for 404 exactly for 404, and otherwise an error with its status. |
| `VaultClient.UpkeepFollowsSteps` | crates/vault-client-rs/src/client/async_client.rs:752-810 | What the lifecycle methods issue, receive and store meets the invariant of the step system for a caller that was let through, or turned away. |
| `VaultClient.CourseFollowsSteps` | crates/vault-client-rs/src/client/async_client.rs:839-852 | A call of `execute` issues its request only after the lifecycle let it through in that sense, and otherwise returns an error. |
| `ClientRuns.CourseIsRun` | crates/vault-client-rs/src/client/async_client.rs:752-852 | For every such call, whatever the outside does, some run of the step system ends with a caller that issued the same requests, got the same answers, stored the same values and has the same result. |
| `VaultClient.CourseIsBounded` | crates/vault-client-rs/src/client/async_client.rs:839-912 | One call issues at most three requests, in the order renew-self, login, request, and at most 3 * (max_retries + 1) sends. |
| `VaultClient.EachSentRequestIsRecordedOnce` | crates/vault-client-rs/src/client/async_client.rs:868-908 | Over one call of `execute`, the outcomes recorded at the breaker, apart from those of other calls, are exactly one success for each request that was sent and ended well and one failure for each that did not. |
| `WatcherTrace.EveryRunEmitsATrace` | crates/vault-client-rs/src/renewal.rs:234-318 | Every run of either task, under any scheduling, emits a prefix of (Renewed or Error Rotated)* then nothing or Error Expired, with the current lease in each event; Expired comes last, after exactly three failed rotation attempts. |
| `WatcherTrace.AutomatonMatchesTrace` | crates/vault-client-rs/src/renewal.rs:332-343 | Reading a trace event by event accepts exactly that language. |
| `WatcherTrace.EventsSayWhatHappened` | crates/vault-client-rs/src/renewal.rs:172-318 | In every run the Renewed events carry exactly the leases that renewals granted, and the Rotated events those that the callback returned, each once and in order. |
| `WatcherTrace.EventsArriveInOrder` | crates/vault-client-rs/src/renewal.rs:169 | The user receives the events in order and without a gap, and never more than 16 wait. |
| `WatcherLanguage.TracesExactly` | crates/vault-client-rs/src/renewal.rs:165-318 | A trace is emitted by some run if and only if it is in the language. |
| `WatcherLoop.RotateLease` | crates/vault-client-rs/src/renewal.rs:267-300 | For every sequence of attempts: rotated with the lease of the first attempt that is not a plain failure, cancelled by it, or failed three times; with one and two seconds of back-off in between; a refinement of the step system. |
| `WatcherLoop.WatchLeaseRotate` | crates/vault-client-rs/src/renewal.rs:234-318 | For every sequence of rounds: the events, the timers, the lease and whether the task has stopped are those of the specification after that many rounds, and of a run of the step system. |
| `WatcherLoop.WatchLeaseEvents` | crates/vault-client-rs/src/renewal.rs:171-204 | The same for the task that does not rotate. |
| `WatcherLoop.RoundExactly` | crates/vault-client-rs/src/renewal.rs:171-318 | Case by case, what one round adds to events and timers, which lease and TTL it leaves, and whether it is the last: a sleep of 33/50 of the TTL and the jitter, at least one second; one and two seconds in front of the second and third attempt. |
| `WatcherLoop.EverySleepFits` | crates/vault-client-rs/src/renewal.rs:172-178 | Of the timers of a task, the one that each round starts with fits the TTL at that moment. |
| `WatcherLoop.StopsExactly` | crates/vault-client-rs/src/renewal.rs:171-318 | After any number of rounds the task has stopped if and only if some round was cancelled or lost its lease, and it has said Expired if and only if the first of them lost it: the renewal failed and, when rotating, all three attempts. |
| `WatcherShutdown.AtMostTwoMoreSends` | crates/vault-client-rs/src/renewal.rs:20-25 | After the cancellation a task completes at most two more sends and takes at most seven more actions, in every run. |
| `WatcherShutdown.ShutdownEnds` | crates/vault-client-rs/src/renewal.rs:366-383 | With as many free slots as sends may follow, two always being enough, or once the handle is gone, the task can act until it stops, within seven of its actions. |
| `WatcherShutdown.ShutdownExactly` | crates/vault-client-rs/src/renewal.rs:366-371 | A begun `shutdown` never gets stuck if and only if the free slots cover the sends that may still follow. |
| `WatcherShutdown.StuckForever` | crates/vault-client-rs/src/renewal.rs:183-195 | A task stuck on the full channel stays so until the pending `shutdown` is dropped. |
| `WatcherShutdown.StuckIsReachable` | crates/vault-client-rs/src/renewal.rs:169-195 | Such a state is reachable from the start when the user does not receive. |
| `RenewalTiming.SleepExactly` | crates/vault-client-rs/src/renewal.rs:174-176 | For every TTL and jitter, the sleep is 33/50 of the TTL, rounded down, plus the jitter, and at least one second, from both sides. |
| `RenewalTiming.WakesInTimeExactly` | crates/vault-client-rs/src/renewal.rs:174-176 | For every TTL in nanoseconds, the sleep is shorter than the TTL for every jitter if and only if 17 * TTL > 50 * 4999 ms. |
| `RenewalTiming.FifteenSeconds` | crates/vault-client-rs/src/renewal.rs:174-176 | In whole seconds that is 15, and not 14. |
| `RenewalTiming.RenewalsArePaced` | crates/vault-client-rs/src/renewal.rs:11-13 | In every run, for any TTLs, renewals are sent at least one second apart. |
| `RenewalTiming.RenewalsAreOnRecord` | crates/vault-client-rs/src/renewal.rs:178-200 | In every run each renewal has its time on record, those that were answered and the one under way or dropped, so the pace is that of all renewals. |
| `RenewalTiming.SleepsEndBeforeTheLease` | crates/vault-client-rs/src/renewal.rs:172-187 | In every run, every sleep follows the TTL that is current, be it the initial one or one granted by a renewal or a rotation, from both sides, and is set to end before it if it is long enough. |
| `RenewalTiming.InTimeExactly` | crates/vault-client-rs/src/renewal.rs:172-188 | All runs that watch a lease with this TTL wake in time if and only if the TTL is long enough. |
| `RenewalTiming.RotationsBackOff` | crates/vault-client-rs/src/renewal.rs:270-300 | In every run, failed rotation attempts are at least one and then two seconds apart, and the timer in between is set to exactly one and two seconds from its start. |
| `RenewalTiming.RenewalRate` | crates/vault-client-rs/src/renewal.rs:172-188 | So k renewals take at least k - 1 seconds. |
| `TokenDaemon.DaemonKeepsAhead` | crates/vault-client-rs/src/renewal.rs:64-104 | In every run of a punctual daemon and any number of callers, with answers within a latency and grants that last: no caller ever finds the token due, takes the lock, renews or logs in. |
| `TokenDaemon.DaemonIsFirstExactly` | crates/vault-client-rs/src/renewal.rs:64-104 | No caller finds the token due in any such run if and only if the lease lasts: for a renewable one 140 ms per second exceed 4999 ms and the latency, for another one 800 ms per second exceed 60 s and the latency, or it has no expiry on the clock. |
| `TokenDaemon.DaemonNeeds36Seconds` | crates/vault-client-rs/src/renewal.rs:77-85 | Without latency that is 36 whole seconds, and not 35. |
| `TokenDaemon.SleepExactly` | crates/vault-client-rs/src/renewal.rs:77-89 | The daemon sleeps 33/50 of a renewable lease and a jitter below five seconds, or else a minute, and renews no earlier. |
| `TokenDaemon.AnswersExactly` | crates/vault-client-rs/src/renewal.rs:89-98 | A failed renewal is followed by a login if and only if there is a method; renewal and login store what was granted, and nothing else changes the token. |

## Left out

- The endpoint methods beyond the login and KV2 paths, the blocking client, and the request and response types: they delegate.
- HTTP, TLS, JSON, URL normalisation, environment variables and files: their results are arbitrary inputs of the model.
- Lock poisoning, tracing, and panics of `Instant` arithmetic.
- Floating-point rounding in `mul_f64`, which the exact rationals replace.
- Fairness: the progress theorems bound the steps of a caller and exclude deadlock; that the scheduler lets callers run and that the network answers is assumed by whoever applies them.
- Auth methods written by users that do more than one request and one store: the model covers one login request through any path, and says which paths are safe.
- A daemon that is late or whose renewals fail: in `TokenDaemon` such runs exist, but only the punctual and successful ones are judged; cancelling the daemon is not modelled; in the lifecycle the daemon's writes are those of an arbitrary other writer.
- `watch_lease`, the watcher without events: it has the timing of the other two and sends nothing.
- `raft_snapshot_restore`, which goes around the breaker, the retries and the lifecycle.
- Client.Execute: what other callers do to the token and the breaker is an input that takes effect at each wait of this caller; all finer interleavings at the token are in the `Lifecycle` modules.
- WatchLeaseRotate: covers whole rounds with a user who receives every event; suspension inside a round, a full channel and dropped handles are in the step system.
- WatchLeaseEvents: the same restriction.
