/**
The retry loops of the webhook and email notifiers, run against a script of outcomes: the n-th
attempt meets `script(n)`, counting from 1.  Pauses are in milliseconds.
*/
module RetryLoops {
  import opened Wrappers

  /** Exponential backoff: 0.2 s doubled after every attempt, at most 2 s. */
  function Power2(n: nat): nat {
    if n == 0 then 1 else 2 * Power2(n - 1)
  }

  function Pause(attempt: nat): nat
    requires attempt >= 1
  {
    if 200 * Power2(attempt - 1) < 2000 then 200 * Power2(attempt - 1) else 2000
  }

  /** The pauses after the first `n` attempts. */
  function Pauses(n: nat): nat {
    if n == 0 then 0 else Pauses(n - 1) + Pause(n)
  }

  /** Even with the most retries a caller may ask for, a delivery sleeps at most five seconds. */
  lemma PausesBounded(n: nat)
    requires n <= 5
    ensures Pauses(n) <= 5000
    ensures n == 5 ==> Pauses(n) == 5000
  {
  }

  lemma {:induction false} PowerGrows(n: nat)
    requires n >= 4
    ensures Power2(n) >= 16
  {
    if n == 4 {
      assert Power2(2) == 4;
    } else {
      PowerGrows(n - 1);
    }
  }

  /** Each pause, and the sum of the pauses of one to six attempts, in milliseconds. */
  lemma PausesExact(n: nat)
    requires n >= 1
    ensures Pause(n) == if n == 1 then 200 else if n == 2 then 400 else if n == 3 then 800 else if n == 4 then 1600
                        else 2000
    ensures [Pauses(0), Pauses(1), Pauses(2), Pauses(3), Pauses(4), Pauses(5)] == [0, 200, 600, 1400, 3000, 5000]
  {
    PausesBounded(5);
    if n >= 5 {
      PowerGrows(n - 1);
    }
    assert Power2(2) == 4 && Power2(3) == 8;
    assert Pause(1) == 200 && Pause(2) == 400 && Pause(3) == 800 && Pause(4) == 1600;
    assert Pauses(2) == 600 && Pauses(4) == 3000;
  }

  // ---------------------------------------------------------------- webhook

  datatype WebhookOutcome =
    | Response(status: int)
    | NetworkTrouble            // a timeout or a broken connection
    | TransportError            // any other client error

  datatype WebhookError = InvalidParameters | Transport | Rejected(retryable: bool) | Unavailable(retryable: bool)

  datatype WebhookDelivery = WebhookDelivery(attempts: nat, status: int)

  predicate Delivered(o: WebhookOutcome) {
    o.Response? && 200 <= o.status < 300
  }

  predicate Retryable(o: WebhookOutcome) {
    o.NetworkTrouble? || (o.Response? && (o.status == 429 || o.status >= 500))
  }

  /** An outcome that ends the loop by itself. */
  predicate Decisive(o: WebhookOutcome) {
    !Retryable(o)
  }

  /** The attempt at which the loop must stop: the first decisive one, or the last allowed one. */
  ghost predicate StopsAt(script: nat -> WebhookOutcome, retries: nat, n: nat) {
    1 <= n <= retries + 1 &&
    (forall k :: 1 <= k < n ==> !Decisive(script(k))) &&
    (Decisive(script(n)) || n == retries + 1)
  }

  /** The status of the latest attempt that got any response at all. */
  function LastStatus(script: nat -> WebhookOutcome, n: nat): Option<int> {
    if n == 0 then None
    else if script(n).Response? then Some(script(n).status)
    else LastStatus(script, n - 1)
  }

  function Verdict(script: nat -> WebhookOutcome, n: nat): Result<WebhookDelivery, WebhookError>
    requires n >= 1
  {
    if Delivered(script(n)) then Ok(WebhookDelivery(n, script(n).status))
    else if script(n).TransportError? then Err(Transport)
    else if LastStatus(script, n).Some? && LastStatus(script, n).value != 0 && LastStatus(script, n).value < 500 then
      Err(Rejected(Retryable(script(n))))
    else
      Err(Unavailable(Retryable(script(n))))
  }

  /** The stopping attempt is determined by the script. */
  lemma StopsOnce(script: nat -> WebhookOutcome, retries: nat, n: nat, m: nat)
    requires StopsAt(script, retries, n) && StopsAt(script, retries, m)
    ensures n == m
  {
  }

  /** A delivery is reported exactly when a success comes before any other decisive outcome within the attempts. */
  lemma {:induction false} DeliveredIff(script: nat -> WebhookOutcome, retries: nat, n: nat)
    requires StopsAt(script, retries, n)
    ensures Verdict(script, n).Ok? <==>
            exists k :: 1 <= k <= retries + 1 && Delivered(script(k)) &&
              forall j :: 1 <= j < k ==> !Decisive(script(j))
  {
    if k :| 1 <= k <= retries + 1 && Delivered(script(k)) && forall j :: 1 <= j < k ==> !Decisive(script(j)) {
      assert StopsAt(script, retries, k);
      StopsOnce(script, retries, n, k);
    }
  }

  lemma {:induction false} Stops(script: nat -> WebhookOutcome, retries: nat, n: nat)
    requires 1 <= n <= retries + 1 <= 6 && forall k :: 1 <= k < n ==> !Decisive(script(k))
    requires Decisive(script(n)) || n == retries + 1
    ensures StopsAt(script, retries, n) && Pauses(n - 1) <= 5000
    ensures Verdict(script, n).Ok? <==>
            exists k :: 1 <= k <= retries + 1 && Delivered(script(k)) &&
              forall j :: 1 <= j < k ==> !Decisive(script(j))
  {
    DeliveredIff(script, retries, n);
    PausesBounded(n - 1);
  }

  /**
  Posts until a decisive outcome or until the retries are used up.  `attempts` counts the posts
  and `slept` the pauses between them.
  */
  method Notify(script: nat -> WebhookOutcome, validTimeout: bool, retries: int)
    returns (r: Result<WebhookDelivery, WebhookError>, attempts: nat, slept: nat)
    ensures !(validTimeout && 0 <= retries <= 5) ==> r == Err(InvalidParameters) && attempts == 0 && slept == 0
    ensures validTimeout && 0 <= retries <= 5 ==>
              StopsAt(script, retries, attempts) && r == Verdict(script, attempts) &&
              slept == Pauses(attempts - 1) <= 5000
    ensures validTimeout && 0 <= retries <= 5 ==>
              (r.Ok? <==> exists k :: 1 <= k <= retries + 1 && Delivered(script(k)) &&
                            forall j :: 1 <= j < k ==> !Decisive(script(j)))
  {
    attempts, slept := 0, 0;
    if !validTimeout || retries < 0 || retries > 5 {
      return Err(InvalidParameters), 0, 0;
    }
    var lastStatus: Option<int> := None;
    while attempts <= retries
      invariant 0 <= attempts <= retries
      invariant forall k :: 1 <= k <= attempts ==> !Decisive(script(k))
      invariant lastStatus == LastStatus(script, attempts)
      invariant slept == Pauses(attempts)
    {
      attempts := attempts + 1;
      var outcome := script(attempts);
      if outcome.TransportError? {
        Stops(script, retries, attempts);
        return Err(Transport), attempts, slept;
      }
      if outcome.Response? {
        lastStatus := Some(outcome.status);
        if 200 <= outcome.status < 300 {
          Stops(script, retries, attempts);
          return Ok(WebhookDelivery(attempts, outcome.status)), attempts, slept;
        }
      }
      var retryable := outcome.NetworkTrouble? || outcome.status == 429 || outcome.status >= 500;
      if !retryable || attempts > retries {
        Stops(script, retries, attempts);
        r := if lastStatus.Some? && lastStatus.value != 0 && lastStatus.value < 500 then Err(Rejected(retryable))
             else Err(Unavailable(retryable));
        return;
      }
      slept := slept + Pause(attempts);
    }
    assert false;
  }

  lemma {:induction false} LastStatusNone(script: nat -> WebhookOutcome, n: nat)
    ensures LastStatus(script, n).None? <==> forall k :: 1 <= k <= n ==> !script(k).Response?
    ensures LastStatus(script, n).Some? ==>
              exists k :: 1 <= k <= n && script(k) == Response(LastStatus(script, n).value) &&
                forall j :: k < j <= n ==> !script(j).Response?
  {
    if n > 0 && !script(n).Response? {
      LastStatusNone(script, n - 1);
    }
  }

  /**
  When the retries run out the error code follows the last status ever received, not the last
  attempt: a rejection is reported although the final attempts may all have been timeouts.
  */
  lemma {:induction false} ExhaustedCode(script: nat -> WebhookOutcome, retries: nat, n: nat)
    requires StopsAt(script, retries, n) && Retryable(script(n))
    ensures n == retries + 1
    ensures Verdict(script, n) == Err(Rejected(true)) || Verdict(script, n) == Err(Unavailable(true))
    ensures Verdict(script, n) == Err(Rejected(true)) <==>
            exists k :: 1 <= k <= n && script(k) == Response(429) && forall j :: k < j <= n ==> !script(j).Response?
  {
    LastStatusNone(script, n);
    if LastStatus(script, n).Some? {
      var k :| 1 <= k <= n && script(k) == Response(LastStatus(script, n).value) &&
        forall j :: k < j <= n ==> !script(j).Response?;
      assert Retryable(script(k));
    }
  }

  /** The latest response, if there is one, is a 429, and only timeouts and broken connections follow it. */
  ghost predicate Throttled(script: nat -> WebhookOutcome, n: nat) {
    exists k :: 1 <= k <= n && script(k) == Response(429) && forall j :: k < j <= n ==> script(j) == NetworkTrouble
  }

  /** An outcome after which the loop goes on while attempts are left. */
  ghost predicate Passing(o: WebhookOutcome) {
    o == NetworkTrouble || (o.Response? && (o.status == 429 || o.status >= 500))
  }

  /**
  What a delivery ends with: a status from 200 to 299 is a success; any other below 500, except
  429, is a rejection not to be retried; other client errors are transport errors; the rest has used
  up all attempts, and is a rejection to be retried only if the platform last said 429.
  */
  lemma {:induction false} VerdictExact(script: nat -> WebhookOutcome, retries: nat, n: nat)
    requires StopsAt(script, retries, n)
    ensures forall k :: 1 <= k < n ==> Passing(script(k))
    ensures Passing(script(n)) ==> n == retries + 1
    ensures Verdict(script, n) ==
            match script(n)
            case TransportError => Err(Transport)
            case NetworkTrouble => Err(if Throttled(script, n) then Rejected(true) else Unavailable(true))
            case Response(status) =>
              if 200 <= status <= 299 then Ok(WebhookDelivery(n, status))
              else if status == 429 then Err(Rejected(true))
              else if status >= 500 then Err(Unavailable(true))
              else if status == 0 then Err(Unavailable(false))
              else Err(Rejected(false))
  {
    if script(n) == NetworkTrouble {
      ExhaustedCode(script, retries, n);
      assert forall j :: 1 <= j <= n ==> Passing(script(j));
    }
  }

  /** One 429 and then only timeouts: still reported as a rejection. */
  lemma {:induction false} RejectedAfterTimeouts(retries: nat)
    requires retries >= 1
    ensures var script := (n: nat) => if n == 1 then Response(429) else NetworkTrouble;
            StopsAt(script, retries, retries + 1) && Retryable(script(retries + 1)) &&
            Verdict(script, retries + 1) == Err(Rejected(true)) && script(retries + 1) == NetworkTrouble
  {
    var script := (n: nat) => if n == 1 then Response(429) else NetworkTrouble;
    assert StopsAt(script, retries, retries + 1);
    ExhaustedCode(script, retries, retries + 1);
    assert script(1) == Response(429) && forall j :: 1 < j <= retries + 1 ==> !script(j).Response?;
  }

  // ---------------------------------------------------------------- email

  datatype EmailOutcome = Sent | MailTrouble | Raised(name: string)

  datatype EmailError = InvalidMailParameters | MailUnavailable | Propagated(name: string)

  /** The first attempt that is not a passing mail problem, or the last allowed one. */
  ghost predicate EmailStopsAt(script: nat -> EmailOutcome, retries: nat, n: nat) {
    1 <= n <= retries + 1 &&
    (forall k :: 1 <= k < n ==> script(k).MailTrouble?) &&
    (!script(n).MailTrouble? || n == retries + 1)
  }

  lemma UnavailableIff(script: nat -> EmailOutcome, retries: nat, n: nat)
    requires EmailStopsAt(script, retries, n)
    ensures script(n).MailTrouble? <==> forall k :: 1 <= k <= retries + 1 ==> script(k).MailTrouble?
  {
  }

  /** Sends until the mail is out, an error that is not caught escapes, or the retries are used up. */
  method DeliverEmail(script: nat -> EmailOutcome, validTimeout: bool, retries: int)
    returns (r: Result<nat, EmailError>, attempts: nat, slept: nat)
    ensures !(validTimeout && 0 <= retries <= 5) ==> r == Err(InvalidMailParameters) && attempts == 0 && slept == 0
    ensures validTimeout && 0 <= retries <= 5 ==>
              EmailStopsAt(script, retries, attempts) && slept == Pauses(attempts - 1) <= 5000 &&
              match script(attempts) {
                case Sent => r == Ok(attempts)
                case MailTrouble => r == Err(MailUnavailable)
                case Raised(name) => r == Err(Propagated(name))
              }
    ensures validTimeout && 0 <= retries <= 5 ==>
              (r == Err(MailUnavailable) <==> forall k :: 1 <= k <= retries + 1 ==> script(k).MailTrouble?)
  {
    attempts, slept := 0, 0;
    if !validTimeout || retries < 0 || retries > 5 {
      return Err(InvalidMailParameters), 0, 0;
    }
    while attempts <= retries
      invariant 0 <= attempts <= retries
      invariant forall k :: 1 <= k <= attempts ==> script(k).MailTrouble?
      invariant slept == Pauses(attempts)
    {
      attempts := attempts + 1;
      match script(attempts) {
        case Sent =>
          PausesBounded(attempts - 1);
          UnavailableIff(script, retries, attempts);
          return Ok(attempts), attempts, slept;
        case Raised(name) =>
          PausesBounded(attempts - 1);
          UnavailableIff(script, retries, attempts);
          return Err(Propagated(name)), attempts, slept;
        case MailTrouble =>
          if attempts > retries {
            PausesBounded(attempts - 1);
            UnavailableIff(script, retries, attempts);
            return Err(MailUnavailable), attempts, slept;
          }
      }
      slept := slept + Pause(attempts);
    }
    assert false;
  }
}
