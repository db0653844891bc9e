/**
 * The zone-mapping fan-out: fetch every planned subscription, re-fan-out the throttled ones after
 * a common backoff, give up on a subscription after MAX_PAGE_THROTTLES retries.
 */
module ZoneFanout {
  const MAX_PAGE_THROTTLES: nat := 60

  datatype Response = Ok | Throttled(retryAfter: nat) | Transient(retryAfter: nat) | Error(detail: string) {
    predicate Retryable() { Throttled? || Transient? }
  }

  datatype Outcome = Stored | Failed(error: string)

  /** What the service answers at each attempt for each subscription: any pattern at all. */
  type Service = (nat, string) -> Response

  /** The first answer that is not a retry decides; too many retries decide too. */
  function Verdict(service: Service, sub: string, attempt: nat): Outcome
    requires attempt <= MAX_PAGE_THROTTLES
    decreases MAX_PAGE_THROTTLES - attempt
  {
    match service(attempt, sub)
    case Ok => Stored
    case Error(detail) => Failed(detail)
    case _ =>
      if attempt < MAX_PAGE_THROTTLES then Verdict(service, sub, attempt + 1)
      else Failed("exceeded max transient retries")
  }

  /** The first answer that is neither throttled nor transient, within the first and 60 further attempts. */
  ghost predicate FinalAt(service: Service, sub: string, t: nat) {
    && t <= 60 && !service(t, sub).Throttled? && !service(t, sub).Transient?
    && forall k: nat | k < t :: service(k, sub).Throttled? || service(k, sub).Transient?
  }

  /** What a subscription's verdict is: that of its final answer, or failure if it gets none. */
  lemma VerdictIsTheFinalAnswers(service: Service, sub: string)
    ensures forall t: nat | FinalAt(service, sub, t) ::
              && (service(t, sub).Ok? <==> Verdict(service, sub, 0) == Stored)
              && (service(t, sub).Error? ==> Verdict(service, sub, 0) == Failed(service(t, sub).detail))
    ensures (forall t: nat :: !FinalAt(service, sub, t)) ==>
              Verdict(service, sub, 0) == Failed("exceeded max transient retries")
  {
    forall t: nat | FinalAt(service, sub, t)
      ensures Verdict(service, sub, 0) == if service(t, sub).Ok? then Stored else Failed(service(t, sub).detail)
    {
      VerdictAt(service, sub, t, 0);
    }
    if forall t: nat :: !FinalAt(service, sub, t) { NeverFinal(service, sub, 0); }
  }

  lemma {:induction false} VerdictAt(service: Service, sub: string, t: nat, attempt: nat)
    requires FinalAt(service, sub, t) && attempt <= t
    ensures Verdict(service, sub, attempt) == if service(t, sub).Ok? then Stored else Failed(service(t, sub).detail)
    decreases t - attempt
  {
    if attempt < t { VerdictAt(service, sub, t, attempt + 1); }
  }

  lemma {:induction false} NeverFinal(service: Service, sub: string, attempt: nat)
    requires attempt <= MAX_PAGE_THROTTLES && forall t: nat :: !FinalAt(service, sub, t)
    requires forall k: nat | k < attempt :: service(k, sub).Throttled? || service(k, sub).Transient?
    ensures Verdict(service, sub, attempt) == Failed("exceeded max transient retries")
    decreases MAX_PAGE_THROTTLES - attempt
  {
    assert !FinalAt(service, sub, attempt);
    if attempt < MAX_PAGE_THROTTLES { NeverFinal(service, sub, attempt + 1); }
  }

  /** Told to retry in every one of the first k rounds. */
  ghost predicate Stuck(service: Service, sub: string, k: nat) {
    forall j | 0 <= j < k :: service(j, sub).Retryable()
  }

  function Max(a: nat, b: nat): nat { if a < b then b else a }

  function Backoff(attempt: nat): nat {
    if attempt >= 5 then 120 else if attempt == 0 then 5 else if attempt == 1 then 10
    else if attempt == 2 then 20 else if attempt == 3 then 40 else 80
  }

  /** How long a unit's answer asks to wait. */
  function Wait(r: Response, attempt: nat): nat {
    match r
    case Throttled(after) => after
    case Transient(after) => Max(after, Backoff(attempt))
    case _ => 0
  }

  function Pow2(k: nat): nat {
    if k == 0 then 1 else 2 * Pow2(k - 1)
  }

  lemma {:induction false} Pow2Grows(k: nat)
    requires k >= 5
    ensures Pow2(k) >= 32
  {
    if k > 5 { Pow2Grows(k - 1); } else { assert Pow2(3) == 8; }
  }

  /** A throttled answer asks for its own delay; a transient one for at least 5 s doubled per attempt, up to 120 s. */
  lemma WaitIsWhatIsAsked(r: Response, attempt: nat)
    ensures r.Throttled? ==> Wait(r, attempt) == r.retryAfter
    ensures r.Transient? ==>
              var backoff := if 5 * Pow2(attempt) < 120 then 5 * Pow2(attempt) else 120;
              Wait(r, attempt) == if r.retryAfter < backoff then backoff else r.retryAfter
  {
    if attempt >= 5 { Pow2Grows(attempt); } else { assert Pow2(2) == 4; }
  }

  function Elements(subs: seq<string>): set<string> {
    set u | u in subs
  }

  ghost predicate Distinct(subs: seq<string>) {
    forall i, j | 0 <= i < j < |subs| :: subs[i] != subs[j]
  }

  datatype Result = Result(outcomes: map<string, Outcome>, progress: seq<nat>, timers: seq<nat>, stateWritten: bool)

  /** All planned units are still waiting, decided, or part of neither. */
  ghost predicate Accounted(service: Service, units: seq<string>, pending: set<string>, outcomes: map<string, Outcome>)
  {
    && outcomes.Keys !! pending
    && (forall u :: u in units <==> u in outcomes || u in pending)
    && (forall u | u in outcomes :: outcomes[u] == Verdict(service, u, 0))
  }

  ghost predicate CountsUp(progress: seq<nat>, completed: nat) {
    |progress| == completed + 1 && forall i | 0 <= i <= completed :: progress[i] == i
  }

  method Refresh(units: seq<string>, concurrency: nat, service: Service) returns (result: Result)
    requires Distinct(units) && concurrency > 0
    ensures result.outcomes.Keys == Elements(units)
    ensures forall u | u in units :: result.outcomes[u] == Verdict(service, u, 0)
    ensures CountsUp(result.progress, |units|)
    ensures |result.timers| <= 60
    ensures LongEnough(service, units, result.timers) && NoLonger(service, units, result.timers)
    ensures result.stateWritten <==> forall u | u in units :: Verdict(service, u, 0).Stored?
  {
    var outcomes: map<string, Outcome> := map[];
    var completed: nat, attempt: nat := 0, 0;
    var progress: seq<nat>, timers: seq<nat> := [0], [];
    var pending := units;
    while pending != []
      invariant attempt <= MAX_PAGE_THROTTLES && |timers| == attempt
      invariant Distinct(pending) && completed + |pending| == |units| && CountsUp(progress, completed)
      invariant Accounted(service, units, Elements(pending), outcomes)
      invariant pending != [] ==> StillPending(service, units, pending, attempt)
      invariant LongEnough(service, units, timers) && NoLonger(service, units, timers)
      decreases MAX_PAGE_THROTTLES - attempt, |pending|
    {
      pending, outcomes, completed, progress, timers :=
        RoundAndTimer(units, concurrency, service, pending, outcomes, completed, progress, timers);
      if pending == [] { break; }
      attempt := attempt + 1;
    }
    var stateWritten := forall u | u in outcomes :: outcomes[u].Stored?;
    result := Result(outcomes, progress, timers, stateWritten);
  }

  /** One fan-out, and the timer behind it if any subscription is to be asked again. */
  method RoundAndTimer(units: seq<string>, concurrency: nat, service: Service, pending: seq<string>,
                       before: map<string, Outcome>, completedBefore: nat, progressBefore: seq<nat>,
                       timersBefore: seq<nat>)
    returns (retry: seq<string>, outcomes: map<string, Outcome>, completed: nat, progress: seq<nat>, timers: seq<nat>)
    requires concurrency > 0 && |timersBefore| <= MAX_PAGE_THROTTLES
    requires Distinct(pending) && StillPending(service, units, pending, |timersBefore|)
    requires completedBefore + |pending| == |units| && CountsUp(progressBefore, completedBefore)
    requires Accounted(service, units, Elements(pending), before)
    requires LongEnough(service, units, timersBefore) && NoLonger(service, units, timersBefore)
    ensures Distinct(retry) && completed + |retry| == |units| && CountsUp(progress, completed)
    ensures Accounted(service, units, Elements(retry), outcomes)
    ensures LongEnough(service, units, timers) && NoLonger(service, units, timers)
    ensures |timers| <= MAX_PAGE_THROTTLES && |timers| == |timersBefore| + (if retry == [] then 0 else 1)
    ensures retry != [] ==> StillPending(service, units, retry, |timers|)
  {
    var maxWait;
    retry, outcomes, completed, progress, maxWait :=
      Round(units, concurrency, service, |timersBefore|, pending, before, completedBefore, progressBefore);
    timers := timersBefore;
    if retry != [] {
      assert retry[0] in retry;
      NextRound(service, units, pending, retry, timersBefore, maxWait);
      timers := timers + [if maxWait == 0 then 5 else maxWait];
    }
  }

  /** One fan-out over the pending subscriptions, in batches. */
  method Round(units: seq<string>, concurrency: nat, service: Service, attempt: nat, pending: seq<string>,
               before: map<string, Outcome>, completedBefore: nat, progressBefore: seq<nat>)
    returns (retry: seq<string>, outcomes: map<string, Outcome>, completed: nat, progress: seq<nat>, maxWait: nat)
    requires concurrency > 0 && attempt <= MAX_PAGE_THROTTLES
    requires Distinct(pending) && StillPending(service, units, pending, attempt)
    requires completedBefore + |pending| == |units| && CountsUp(progressBefore, completedBefore)
    requires Accounted(service, units, Elements(pending), before)
    ensures Distinct(retry) && completed + |retry| == |units| && CountsUp(progress, completed)
    ensures Accounted(service, units, Elements(retry), outcomes)
    ensures forall u | u in pending :: u in retry <==> service(attempt, u).Retryable() && attempt < MAX_PAGE_THROTTLES
    ensures forall u | u in retry :: u in pending && maxWait >= Wait(service(attempt, u), attempt)
    ensures IsAsked(service, retry, attempt, maxWait)
  {
    assert pending[..0] == [] && pending[0..] == pending;
    retry, maxWait := [], 0;
    outcomes, completed, progress := before, completedBefore, progressBefore;
    assert Elements(retry) + Elements(pending[0..]) == Elements(pending);
    var start := 0;
    while start < |pending|
      invariant start <= |pending|
      invariant RoundSoFar(service, units, pending, start, retry, outcomes, attempt, maxWait)
      invariant completed + |retry| + |pending| - start == |units| && CountsUp(progress, completed)
      decreases |pending| - start
    {
      var end := if start + concurrency < |pending| then start + concurrency else |pending|;
      for i := start to end
        invariant RoundSoFar(service, units, pending, i, retry, outcomes, attempt, maxWait)
        invariant completed + |retry| + |pending| - i == |units| && CountsUp(progress, completed)
      {
        var unit := pending[i];
        var response := service(attempt, unit);
        Answered(service, units, pending, i, retry, outcomes, attempt, maxWait);
        if response.Retryable() && attempt < MAX_PAGE_THROTTLES {
          retry := retry + [unit];
          maxWait := Max(maxWait, Wait(response, attempt));
        } else {
          var outcome := match response
            case Ok => Stored
            case Error(detail) => Failed(detail)
            case _ => Failed("exceeded max transient retries");
          outcomes := outcomes[unit := outcome];
          completed := completed + 1;
          progress := progress + [completed];
        }
      }
      start := end;
    }
    assert pending[|pending|..] == [] && pending[..|pending|] == pending;
    assert Elements(retry) + Elements(pending[|pending|..]) == Elements(retry);
  }

  /** Each backoff is as long as every subscription it holds back asked for. */
  ghost predicate LongEnough(service: Service, units: seq<string>, timers: seq<nat>) {
    forall k, u | 0 <= k < |timers| && u in units && Stuck(service, u, k + 1) ::
      timers[k] >= Wait(service(k, u), k) && timers[k] > 0
  }

  /** The wait is one some unit of the round asks for. */
  ghost predicate IsAsked(service: Service, retry: seq<string>, attempt: nat, wait: nat) {
    retry == [] || exists u :: u in retry && wait == Wait(service(attempt, u), attempt)
  }

  /** Each timer is one a subscription it holds back asked for, or five seconds where none asked for any. */
  ghost predicate NoLonger(service: Service, units: seq<string>, timers: seq<nat>) {
    forall k | 0 <= k < |timers| :: SomeHeldBack(service, units, timers[k], k)
  }

  ghost predicate SomeHeldBack(service: Service, units: seq<string>, timer: nat, k: nat) {
    exists u :: HeldBack(service, units, timer, k, u)
  }

  ghost predicate HeldBack(service: Service, units: seq<string>, timer: nat, k: nat, u: string) {
    && u in units && Stuck(service, u, k + 1)
    && timer == if Wait(service(k, u), k) == 0 then 5 else Wait(service(k, u), k)
  }

  lemma TimerIsAsked(service: Service, units: seq<string>, retry: seq<string>, timers: seq<nat>, maxWait: nat)
    requires NoLonger(service, units, timers) && retry != []
    requires IsAsked(service, retry, |timers|, maxWait)
    requires forall u | u in retry :: u in units && Stuck(service, u, |timers| + 1)
    ensures NoLonger(service, units, timers + [if maxWait == 0 then 5 else maxWait])
  {
    var k := |timers|;
    var timer := if maxWait == 0 then 5 else maxWait;
    var u :| u in retry && maxWait == Wait(service(k, u), k);
    assert HeldBack(service, units, timer, k, u);
    assert SomeHeldBack(service, units, timer, k);
  }

  /** What a round leaves for the next one, behind its timer. */
  lemma NextRound(service: Service, units: seq<string>, pending: seq<string>, retry: seq<string>, timers: seq<nat>,
      maxWait: nat)
    requires |timers| < MAX_PAGE_THROTTLES && retry != [] && IsAsked(service, retry, |timers|, maxWait)
    requires StillPending(service, units, pending, |timers|) && forall u | u in pending :: u in units
    requires LongEnough(service, units, timers) && NoLonger(service, units, timers)
    requires forall u | u in pending :: u in retry <==> service(|timers|, u).Retryable()
    requires forall u | u in retry :: u in pending && maxWait >= Wait(service(|timers|, u), |timers|)
    ensures var after := timers + [if maxWait == 0 then 5 else maxWait];
      LongEnough(service, units, after) && NoLonger(service, units, after)
    ensures StillPending(service, units, retry, |timers| + 1)
  {
    StuckOneMore(service, units, |timers| + 1);
    TimerIsAsked(service, units, retry, timers, maxWait);
  }

  ghost predicate StillPending(service: Service, units: seq<string>, pending: seq<string>, attempt: nat)
    requires attempt <= MAX_PAGE_THROTTLES
  {
    && (forall u | u in pending :: Verdict(service, u, 0) == Verdict(service, u, attempt))
    && (forall u | u in units :: u in pending <==> Stuck(service, u, attempt))
  }

  /** The first n pending units are answered: sent back to retry, or decided. */
  ghost predicate RoundSoFar(service: Service, units: seq<string>, pending: seq<string>, n: nat, retry: seq<string>,
                             outcomes: map<string, Outcome>, attempt: nat, maxWait: nat)
  {
    && n <= |pending| && attempt <= MAX_PAGE_THROTTLES
    && Distinct(retry) && Distinct(pending) && StillPending(service, units, pending, attempt)
    && (forall u | u in retry :: u in pending[..n])
    && (forall u | u in pending[..n] :: u in retry <==> service(attempt, u).Retryable() && attempt < MAX_PAGE_THROTTLES)
    && Accounted(service, units, Elements(retry) + Elements(pending[n..]), outcomes)
    && (forall u | u in retry :: maxWait >= Wait(service(attempt, u), attempt))
    && IsAsked(service, retry, attempt, maxWait) && (retry == [] ==> maxWait == 0)
  }

  /** One more answer, whichever way it goes. */
  lemma Answered(service: Service, units: seq<string>, pending: seq<string>, n: nat, retry: seq<string>,
                 outcomes: map<string, Outcome>, attempt: nat, maxWait: nat)
    requires RoundSoFar(service, units, pending, n, retry, outcomes, attempt, maxWait) && n < |pending|
    ensures var u, r := pending[n], service(attempt, pending[n]);
      if r.Retryable() && attempt < MAX_PAGE_THROTTLES
      then RoundSoFar(service, units, pending, n + 1, retry + [u], outcomes, attempt, Max(maxWait, Wait(r, attempt)))
      else RoundSoFar(service, units, pending, n + 1, retry, outcomes[u := Verdict(service, u, attempt)], attempt,
          maxWait)
  {
    var u := pending[n];
    NextPending(pending, n);
    assert u !in retry;
    assert Elements(retry + [u]) == Elements(retry) + {u};
    assert Elements(retry + [u]) + Elements(pending[n + 1..]) == Elements(retry) + Elements(pending[n..]);
    assert Elements(retry) + Elements(pending[n + 1..]) == Elements(retry) + Elements(pending[n..]) - {u};
    DecideOne(service, units, Elements(retry) + Elements(pending[n..]), outcomes, u);
    AskedByOneMore(service, retry, attempt, maxWait, u);
  }

  lemma AskedByOneMore(service: Service, retry: seq<string>, attempt: nat, maxWait: nat, u: string)
    requires IsAsked(service, retry, attempt, maxWait) && (retry == [] ==> maxWait == 0)
    ensures IsAsked(service, retry + [u], attempt, Max(maxWait, Wait(service(attempt, u), attempt)))
  {
    assert u in retry + [u];
    if retry != [] {
      var v :| v in retry && maxWait == Wait(service(attempt, v), attempt);
      assert v in retry + [u];
    }
  }

  lemma NextPending(pending: seq<string>, n: nat)
    requires Distinct(pending) && n < |pending|
    ensures pending[n] !in pending[..n] && pending[n] !in pending[n + 1..]
    ensures pending[..n + 1] == pending[..n] + [pending[n]]
    ensures Elements(pending[n..]) == Elements(pending[n + 1..]) + {pending[n]}
  {
    assert pending[n..] == [pending[n]] + pending[n + 1..];
  }

  lemma DecideOne(service: Service, units: seq<string>, pending: set<string>, outcomes: map<string, Outcome>, u: string)
    requires Accounted(service, units, pending, outcomes) && u in pending
    ensures Accounted(service, units, pending - {u}, outcomes[u := Verdict(service, u, 0)])
  {
  }

  lemma StuckOneMore(service: Service, units: seq<string>, k: nat)
    requires k > 0
    ensures forall u | u in units :: Stuck(service, u, k) <==> Stuck(service, u, k - 1) && service(k - 1, u).Retryable()
  {
  }
}
