/**
 * The broker connection at startup of the event relay
 * (startKafka, src/microservices/events/index.js, lines 14-41).
 *
 * Each attempt connects the producer, connects the consumer and subscribes the
 * consumer to the three topics from the beginning, in that order; the first
 * call that throws ends the attempt. A successful attempt starts the consumer
 * and returns. A failed attempt waits 2000 ms and starts over from the
 * producer, except the tenth, after which the process exits with status 1.
 *
 * The broker client is not modelled: whether a call succeeds is given by an
 * oracle `ok(attempt, call)`. An attempt is only reached when all earlier ones
 * failed, so this covers every behaviour the broker can show.
 */
module KafkaStartup {
  import opened EventTopics

  const MaxRetries: nat := 10
  const RetryDelayMs: nat := 2000

  /** The awaited broker-client calls, any of which can throw. */
  datatype Call = ProducerConnect | ConsumerConnect | Subscribe(topic: Topic, fromBeginning: bool)

  /** What startKafka does, in order: a call made during an attempt, starting the consumer, or a wait. */
  datatype Action = Invoke(attempt: nat, call: Call) | RunConsumer | Wait(ms: nat)

  /** How startKafka ends: connected on some attempt, or process.exit(status). */
  datatype StartResult = Connected(attempt: nat) | Exited(status: int)

  /** One subscription per topic, from the beginning of the topic, in order. */
  function Subscriptions(topics: seq<Topic>): seq<Call>
  {
    if topics == [] then [] else [Subscribe(topics[0], true)] + Subscriptions(topics[1..])
  }

  /** The calls of one attempt, in the order the source makes them. */
  const AttemptCalls: seq<Call> := [ProducerConnect, ConsumerConnect] + Subscriptions(Topics)

  /**
   * Making `calls` in order during attempt `a`: each call is recorded; the
   * first one that fails ends the attempt; when none fails, the consumer is
   * started.
   */
  function Perform(ok: (nat, Call) -> bool, a: nat, calls: seq<Call>): seq<Action>
  {
    if calls == [] then [RunConsumer]
    else if ok(a, calls[0]) then [Invoke(a, calls[0])] + Perform(ok, a, calls[1..])
    else [Invoke(a, calls[0])]
  }

  /** Every one of `calls` succeeds in attempt `a`. */
  predicate AllSucceed(ok: (nat, Call) -> bool, a: nat, calls: seq<Call>)
  {
    calls == [] || (ok(a, calls[0]) && AllSucceed(ok, a, calls[1..]))
  }

  /** Attempt `a` gets through all of its calls. */
  predicate AttemptSucceeds(ok: (nat, Call) -> bool, a: nat) {
    AllSucceed(ok, a, AttemptCalls)
  }

  /** Everything attempt `a` does. */
  function AttemptActions(ok: (nat, Call) -> bool, a: nat): seq<Action> {
    Perform(ok, a, AttemptCalls)
  }

  /** How the retry loop ends once it reaches attempt `a`: the reference definition of its result. */
  function Outcome(ok: (nat, Call) -> bool, a: nat): StartResult
    requires 1 <= a <= MaxRetries
    decreases MaxRetries - a
  {
    if AttemptSucceeds(ok, a) then Connected(a)
    else if a == MaxRetries then Exited(1)
    else Outcome(ok, a + 1)
  }

  /** Everything the retry loop does from attempt `a` on: the reference definition of its trace. */
  function Trace(ok: (nat, Call) -> bool, a: nat): seq<Action>
    requires 1 <= a <= MaxRetries
    decreases MaxRetries - a
  {
    if AttemptSucceeds(ok, a) || a == MaxRetries then AttemptActions(ok, a)
    else AttemptActions(ok, a) + [Wait(RetryDelayMs)] + Trace(ok, a + 1)
  }

  /**
   * The try block of one attempt: connect the producer, connect the consumer,
   * subscribe to each topic from the beginning, and on success start the consumer.
   */
  method TryAttempt(ok: (nat, Call) -> bool, attempt: nat) returns (succeeded: bool, actions: seq<Action>)
    ensures succeeded == AttemptSucceeds(ok, attempt)
    ensures actions == AttemptActions(ok, attempt)
  {
    ghost var afterProducer := AttemptCalls[1..];
    assert AttemptCalls == [ProducerConnect] + afterProducer;
    assert afterProducer == [ConsumerConnect] + Subscriptions(Topics);
    actions := [Invoke(attempt, ProducerConnect)];
    if !ok(attempt, ProducerConnect) {
      return false, actions;
    }
    assert AttemptActions(ok, attempt) == actions + Perform(ok, attempt, afterProducer);
    assert AttemptSucceeds(ok, attempt) == AllSucceed(ok, attempt, afterProducer);
    actions := actions + [Invoke(attempt, ConsumerConnect)];
    if !ok(attempt, ConsumerConnect) {
      return false, actions;
    }
    var pending := Topics;
    for i := 0 to |Topics|
      invariant pending == Topics[i..]
      invariant AttemptActions(ok, attempt) == actions + Perform(ok, attempt, Subscriptions(pending))
      invariant AttemptSucceeds(ok, attempt) == AllSucceed(ok, attempt, Subscriptions(pending))
    {
      var call := Subscribe(Topics[i], true);
      assert Subscriptions(pending) == [call] + Subscriptions(pending[1..]);
      actions := actions + [Invoke(attempt, call)];
      if !ok(attempt, call) {
        return false, actions;
      }
      pending := pending[1..];
    }
    actions := actions + [RunConsumer];
    return true, actions;
  }

  /** The trace after a failed attempt that is not the last: the attempt, a wait, then the rest. */
  lemma TraceStep(ok: (nat, Call) -> bool, a: nat)
    requires 1 <= a < MaxRetries && !AttemptSucceeds(ok, a)
    ensures var t := Trace(ok, a); var acts := AttemptActions(ok, a); var rest := Trace(ok, a + 1);
      && |t| == |acts| + 1 + |rest|
      && t[|acts|] == Wait(RetryDelayMs)
      && (forall i :: 0 <= i < |acts| ==> t[i] == acts[i])
      && (forall i :: |acts| < i < |t| ==> t[i] == rest[i - |acts| - 1])
  {
    var acts := AttemptActions(ok, a);
    var rest := Trace(ok, a + 1);
    assert Trace(ok, a) == acts + [Wait(RetryDelayMs)] + rest;
  }

  /**
   * After a failed attempt that is not the last, the loop waits and goes on
   * with the next one: the trace so far grows by the attempt and the wait.
   */
  lemma RetryStep(ok: (nat, Call) -> bool, a: nat, done: seq<Action>)
    requires 1 <= a < MaxRetries && !AttemptSucceeds(ok, a)
    ensures Outcome(ok, a) == Outcome(ok, a + 1)
    ensures done + Trace(ok, a) == (done + AttemptActions(ok, a) + [Wait(RetryDelayMs)]) + Trace(ok, a + 1)
  {
    var w := [Wait(RetryDelayMs)];
    var acts := AttemptActions(ok, a);
    var rest := Trace(ok, a + 1);
    assert Trace(ok, a) == acts + w + rest;
    assert done + (acts + w + rest) == (done + acts + w) + rest;
  }

  /**
   * startKafka: up to MaxRetries attempts; after a failed one, wait RetryDelayMs
   * and try again, except after the last, which exits with status 1.
   */
  method StartKafka(ok: (nat, Call) -> bool) returns (result: StartResult, trace: seq<Action>)
    ensures result == Outcome(ok, 1)
    ensures trace == Trace(ok, 1)
  {
    trace := [];
    var attempt := 1;
    while attempt <= MaxRetries
      invariant 1 <= attempt <= MaxRetries
      invariant Outcome(ok, 1) == Outcome(ok, attempt)
      invariant Trace(ok, 1) == trace + Trace(ok, attempt)
      decreases MaxRetries - attempt
    {
      var succeeded, actions := TryAttempt(ok, attempt);
      if succeeded {
        assert Trace(ok, attempt) == actions;
        return Connected(attempt), trace + actions;
      }
      if attempt == MaxRetries {
        assert Trace(ok, attempt) == actions;
        return Exited(1), trace + actions;
      }
      RetryStep(ok, attempt, trace);
      trace := trace + actions + [Wait(RetryDelayMs)];
      attempt := attempt + 1;
    }
  }

  // ---------------------------------------------------------------------------
  // Properties of the retry loop, stated over its reference definition.
  // ---------------------------------------------------------------------------

  predicate IsWait(x: Action) {
    x.Wait?
  }

  predicate IsProducerConnect(x: Action) {
    x.Invoke? && x.call == ProducerConnect
  }

  /** Number of actions of `t` that satisfy `p`. */
  function Count(t: seq<Action>, p: Action -> bool): nat
  {
    if t == [] then 0 else (if p(t[0]) then 1 else 0) + Count(t[1..], p)
  }

  lemma {:induction false} CountAppend(s: seq<Action>, t: seq<Action>, p: Action -> bool)
    ensures Count(s + t, p) == Count(s, p) + Count(t, p)
  {
    if s != [] {
      assert (s + t)[1..] == s[1..] + t;
      CountAppend(s[1..], t, p);
    } else {
      assert s + t == t;
    }
  }

  /**
   * Making a list of calls: every action is a call of this attempt, except
   * possibly the last, which starts the consumer exactly when all calls
   * succeed; otherwise the last is the call that failed. Nothing waits, and the
   * producer is connected only if it is among the calls.
   */
  lemma {:induction false} PerformShape(ok: (nat, Call) -> bool, a: nat, calls: seq<Call>)
    ensures var p := Perform(ok, a, calls);
      && |p| >= 1
      && (forall i :: 0 <= i < |p| - 1 ==> p[i].Invoke? && p[i].attempt == a)
      && (p[|p| - 1] == RunConsumer <==> AllSucceed(ok, a, calls))
      && (!AllSucceed(ok, a, calls) ==> p[|p| - 1].Invoke? && p[|p| - 1].attempt == a && !ok(a, p[|p| - 1].call))
      && Count(p, IsWait) == 0
      && (ProducerConnect !in calls ==> Count(p, IsProducerConnect) == 0)
  {
    if calls != [] && ok(a, calls[0]) {
      var rest := Perform(ok, a, calls[1..]);
      PerformShape(ok, a, calls[1..]);
      assert Perform(ok, a, calls)[1..] == rest;
      assert ProducerConnect !in calls ==> ProducerConnect !in calls[1..];
    }
  }

  /** A list of calls gets through exactly when every one of them succeeds. */
  lemma {:induction false} AllSucceedIff(ok: (nat, Call) -> bool, a: nat, calls: seq<Call>)
    ensures AllSucceed(ok, a, calls) <==> forall i :: 0 <= i < |calls| ==> ok(a, calls[i])
  {
    if calls != [] {
      AllSucceedIff(ok, a, calls[1..]);
      assert forall i :: 1 <= i < |calls| ==> calls[i] == calls[1..][i - 1];
    }
  }

  /**
   * An attempt succeeds exactly when connecting the producer, connecting the
   * consumer and each of the three subscriptions succeed; any one failure
   * fails the whole attempt.
   */
  lemma AttemptSucceedsIff(ok: (nat, Call) -> bool, a: nat)
    ensures AttemptSucceeds(ok, a) <==>
              && ok(a, ProducerConnect) && ok(a, ConsumerConnect)
              && ok(a, Subscribe(MovieEvents, true))
              && ok(a, Subscribe(UserEvents, true))
              && ok(a, Subscribe(PaymentEvents, true))
  {
    var calls := AttemptCalls;
    assert calls == [ProducerConnect, ConsumerConnect, Subscribe(MovieEvents, true),
                     Subscribe(UserEvents, true), Subscribe(PaymentEvents, true)];
    AllSucceedIff(ok, a, calls);
    if AttemptSucceeds(ok, a) {
      assert ok(a, calls[0]) && ok(a, calls[1]) && ok(a, calls[2]) && ok(a, calls[3]) && ok(a, calls[4]);
    }
  }

  /** A failed attempt consists of calls of that attempt only, the last of which failed. */
  lemma FailedAttemptCalls(ok: (nat, Call) -> bool, a: nat)
    requires !AttemptSucceeds(ok, a)
    ensures var acts := AttemptActions(ok, a);
      && |acts| >= 1
      && (forall i :: 0 <= i < |acts| ==> acts[i].Invoke? && acts[i].attempt == a)
      && !ok(a, acts[|acts| - 1].call)
  {
    PerformShape(ok, a, AttemptCalls);
  }

  /** A successful attempt ends by starting the consumer, and every earlier action is a call of it. */
  lemma SucceededAttemptCalls(ok: (nat, Call) -> bool, a: nat)
    requires AttemptSucceeds(ok, a)
    ensures var acts := AttemptActions(ok, a);
      && |acts| >= 1 && acts[|acts| - 1] == RunConsumer
      && (forall i :: 0 <= i < |acts| - 1 ==> acts[i].Invoke? && acts[i].attempt == a)
  {
    PerformShape(ok, a, AttemptCalls);
  }

  /** Every attempt starts by connecting the producer. */
  lemma AttemptStartsWithProducer(ok: (nat, Call) -> bool, a: nat)
    ensures var acts := AttemptActions(ok, a); |acts| >= 1 && acts[0] == Invoke(a, ProducerConnect)
  {
    assert AttemptCalls[0] == ProducerConnect;
  }

  /** Connecting the producer is the first call of an attempt and is not repeated within it. */
  lemma AttemptShape(ok: (nat, Call) -> bool, a: nat)
    ensures var acts := AttemptActions(ok, a);
      && |acts| >= 1 && acts[0] == Invoke(a, ProducerConnect)
      && Count(acts, IsProducerConnect) == 1
      && Count(acts, IsWait) == 0
  {
    var acts := AttemptActions(ok, a);
    assert AttemptCalls[1..] == [ConsumerConnect] + Subscriptions(Topics);
    assert ProducerConnect !in AttemptCalls[1..];
    PerformShape(ok, a, AttemptCalls);
    if ok(a, ProducerConnect) {
      PerformShape(ok, a, AttemptCalls[1..]);
      assert acts == [Invoke(a, ProducerConnect)] + Perform(ok, a, AttemptCalls[1..]);
      CountAppend([Invoke(a, ProducerConnect)], Perform(ok, a, AttemptCalls[1..]), IsProducerConnect);
    }
  }

  /** Number of attempts a run made before it ended. */
  function AttemptsMade(r: StartResult): nat
  {
    match r
    case Connected(k) => k
    case Exited(_) => MaxRetries
  }

  /** A run that reaches attempt `a` ends at that attempt or a later one, and at the tenth at the latest. */
  lemma {:induction false} AttemptsMadeBounds(ok: (nat, Call) -> bool, a: nat)
    requires 1 <= a <= MaxRetries
    ensures a <= AttemptsMade(Outcome(ok, a)) <= MaxRetries
    decreases MaxRetries - a
  {
    if !AttemptSucceeds(ok, a) && a < MaxRetries {
      AttemptsMadeBounds(ok, a + 1);
    }
  }

  /**
   * The outcome of the loop from attempt `a` on: connected on the first attempt
   * that succeeds, or exited with status 1 when every attempt up to the tenth
   * fails.
   */
  lemma {:induction false} ConnectOutcome(ok: (nat, Call) -> bool, a: nat)
    requires 1 <= a <= MaxRetries
    ensures Outcome(ok, a).Connected? ==>
              && a <= Outcome(ok, a).attempt <= MaxRetries
              && AttemptSucceeds(ok, Outcome(ok, a).attempt)
              && forall j :: a <= j < Outcome(ok, a).attempt ==> !AttemptSucceeds(ok, j)
    ensures Outcome(ok, a).Exited? ==>
              && Outcome(ok, a) == Exited(1)
              && forall j :: a <= j <= MaxRetries ==> !AttemptSucceeds(ok, j)
    decreases MaxRetries - a
  {
    if !AttemptSucceeds(ok, a) && a < MaxRetries {
      ConnectOutcome(ok, a + 1);
      if Outcome(ok, a).Exited? {
        forall j | a <= j <= MaxRetries
          ensures !AttemptSucceeds(ok, j)
        {
          if j > a {
            assert a + 1 <= j <= MaxRetries;
          }
        }
      }
    }
  }

  /**
   * Counting: a run that ends after attempt n (n = k when connected on attempt
   * k, n = 10 when it exits) connected the producer once per attempt and waited
   * once between consecutive attempts.
   */
  lemma {:induction false} ConnectCounts(ok: (nat, Call) -> bool, a: nat)
    requires 1 <= a <= MaxRetries
    ensures var n := AttemptsMade(Outcome(ok, a));
      && a <= n <= MaxRetries
      && Count(Trace(ok, a), IsProducerConnect) == n - a + 1
      && Count(Trace(ok, a), IsWait) == n - a
    decreases MaxRetries - a
  {
    AttemptShape(ok, a);
    var acts := AttemptActions(ok, a);
    if !AttemptSucceeds(ok, a) && a < MaxRetries {
      var rest := Trace(ok, a + 1);
      ConnectCounts(ok, a + 1);
      var tail := [Wait(RetryDelayMs)] + rest;
      assert Trace(ok, a) == acts + tail;
      CountAppend(acts, tail, IsProducerConnect);
      CountAppend([Wait(RetryDelayMs)], rest, IsProducerConnect);
      CountAppend(acts, tail, IsWait);
      CountAppend([Wait(RetryDelayMs)], rest, IsWait);
    }
  }

  /**
   * Every wait lasts 2000 ms and is followed by connecting the producer again:
   * a failed attempt restarts from the beginning of the sequence.
   */
  lemma {:induction false} RetriesRestart(ok: (nat, Call) -> bool, a: nat)
    requires 1 <= a <= MaxRetries
    ensures var t := Trace(ok, a);
      && |t| >= 1 && t[0] == Invoke(a, ProducerConnect)
      && (forall i :: 0 <= i < |t| && t[i].Wait? ==> t[i].ms == RetryDelayMs)
      && (forall i :: 0 <= i < |t| && t[i].Wait? ==> i + 1 < |t| && t[i + 1].Invoke? && t[i + 1].call == ProducerConnect)
    decreases MaxRetries - a
  {
    AttemptStartsWithProducer(ok, a);
    if AttemptSucceeds(ok, a) {
      SucceededAttemptCalls(ok, a);
    } else {
      FailedAttemptCalls(ok, a);
    }
    var acts := AttemptActions(ok, a);
    if !AttemptSucceeds(ok, a) && a < MaxRetries {
      var rest := Trace(ok, a + 1);
      RetriesRestart(ok, a + 1);
      var t := Trace(ok, a);
      TraceStep(ok, a);
      forall i | 0 <= i < |t| && t[i].Wait?
        ensures t[i].ms == RetryDelayMs
        ensures i + 1 < |t| && t[i + 1].Invoke? && t[i + 1].call == ProducerConnect
      {
        if i > |acts| {
          assert t[i] == rest[i - |acts| - 1];
          assert t[i + 1] == rest[i - |acts|];
        } else if i == |acts| {
          assert t[i + 1] == rest[0];
        }
      }
    }
  }

  /** Every call belongs to an attempt numbered from the first to the last one made. */
  lemma {:induction false} AttemptNumbering(ok: (nat, Call) -> bool, a: nat)
    requires 1 <= a <= MaxRetries
    ensures var t := Trace(ok, a);
      forall i :: 0 <= i < |t| && t[i].Invoke? ==> a <= t[i].attempt <= AttemptsMade(Outcome(ok, a))
    decreases MaxRetries - a
  {
    if AttemptSucceeds(ok, a) {
      SucceededAttemptCalls(ok, a);
    } else {
      FailedAttemptCalls(ok, a);
    }
    AttemptsMadeBounds(ok, a);
    var acts := AttemptActions(ok, a);
    if !AttemptSucceeds(ok, a) && a < MaxRetries {
      var rest := Trace(ok, a + 1);
      AttemptNumbering(ok, a + 1);
      RetryStep(ok, a, []);
      var t := Trace(ok, a);
      TraceStep(ok, a);
      forall i | 0 <= i < |t| && t[i].Invoke?
        ensures a <= t[i].attempt <= AttemptsMade(Outcome(ok, a))
      {
        if i > |acts| {
          assert t[i] == rest[i - |acts| - 1];
        }
      }
    }
  }

  /** The actions of an attempt in which every call succeeds. */
  lemma SuccessfulAttempt(ok: (nat, Call) -> bool, a: nat)
    requires AttemptSucceeds(ok, a)
    ensures AttemptActions(ok, a) ==
              [Invoke(a, ProducerConnect), Invoke(a, ConsumerConnect),
               Invoke(a, Subscribe(MovieEvents, true)), Invoke(a, Subscribe(UserEvents, true)),
               Invoke(a, Subscribe(PaymentEvents, true)), RunConsumer]
  {
    var c0 := AttemptCalls;
    assert c0 == [ProducerConnect, ConsumerConnect, Subscribe(MovieEvents, true),
                  Subscribe(UserEvents, true), Subscribe(PaymentEvents, true)];
    var c1 := c0[1..];
    var c2 := c1[1..];
    var c3 := c2[1..];
    var c4 := c3[1..];
    var c5 := c4[1..];
    assert c5 == [];
    assert AllSucceed(ok, a, c1) && ok(a, c0[0]);
    assert AllSucceed(ok, a, c2) && ok(a, c1[0]);
    assert AllSucceed(ok, a, c3) && ok(a, c2[0]);
    assert AllSucceed(ok, a, c4) && ok(a, c3[0]);
    assert ok(a, c4[0]);
    assert Perform(ok, a, c5) == [RunConsumer];
    assert Perform(ok, a, c4) == [Invoke(a, Subscribe(PaymentEvents, true))] + Perform(ok, a, c5);
    assert Perform(ok, a, c3) == [Invoke(a, Subscribe(UserEvents, true))] + Perform(ok, a, c4);
    assert Perform(ok, a, c2) == [Invoke(a, Subscribe(MovieEvents, true))] + Perform(ok, a, c3);
    assert Perform(ok, a, c1) == [Invoke(a, ConsumerConnect)] + Perform(ok, a, c2);
    assert Perform(ok, a, c0) == [Invoke(a, ProducerConnect)] + Perform(ok, a, c1);
  }

  /**
   * A run that connects ends with the successful attempt: the producer and the
   * consumer connected, the three subscriptions from the beginning in the order
   * movie, user, payment, and then the consumer started.
   */
  lemma {:induction false} ConnectedEnding(ok: (nat, Call) -> bool, a: nat)
    requires 1 <= a <= MaxRetries
    requires Outcome(ok, a).Connected?
    ensures var t := Trace(ok, a); var k := Outcome(ok, a).attempt;
      && |t| >= 6
      && t[|t| - 6..] ==
           [Invoke(k, ProducerConnect), Invoke(k, ConsumerConnect),
            Invoke(k, Subscribe(MovieEvents, true)), Invoke(k, Subscribe(UserEvents, true)),
            Invoke(k, Subscribe(PaymentEvents, true)), RunConsumer]
    decreases MaxRetries - a
  {
    if AttemptSucceeds(ok, a) {
      SuccessfulAttempt(ok, a);
    } else {
      var rest := Trace(ok, a + 1);
      ConnectedEnding(ok, a + 1);
      var t := Trace(ok, a);
      TraceStep(ok, a);
      var tail, restTail := t[|t| - 6..], rest[|rest| - 6..];
      forall j | 0 <= j < 6
        ensures tail[j] == restTail[j]
      {
        assert tail[j] == t[|t| - 6 + j] == rest[|rest| - 6 + j];
      }
      assert tail == restTail;
    }
  }

  /** A run that connects starts the consumer once, as its very last action. */
  lemma {:induction false} ConsumerStartsLast(ok: (nat, Call) -> bool, a: nat)
    requires 1 <= a <= MaxRetries
    requires Outcome(ok, a).Connected?
    ensures var t := Trace(ok, a);
      && |t| >= 1 && t[|t| - 1] == RunConsumer
      && forall i :: 0 <= i < |t| - 1 ==> t[i] != RunConsumer
    decreases MaxRetries - a
  {
    if AttemptSucceeds(ok, a) {
      SucceededAttemptCalls(ok, a);
    } else {
      FailedAttemptCalls(ok, a);
    }
    var acts := AttemptActions(ok, a);
    if !AttemptSucceeds(ok, a) {
      var rest := Trace(ok, a + 1);
      ConsumerStartsLast(ok, a + 1);
      var t := Trace(ok, a);
      TraceStep(ok, a);
      assert t[|t| - 1] == rest[|rest| - 1];
      forall i | 0 <= i < |t| - 1
        ensures t[i] != RunConsumer
      {
        if i > |acts| {
          assert t[i] == rest[i - |acts| - 1];
        }
      }
    }
  }

  /** A run that exits never started the consumer. */
  lemma {:induction false} ExitedNeverStartsConsumer(ok: (nat, Call) -> bool, a: nat)
    requires 1 <= a <= MaxRetries
    requires Outcome(ok, a).Exited?
    ensures var t := Trace(ok, a); forall i :: 0 <= i < |t| ==> t[i] != RunConsumer
    decreases MaxRetries - a
  {
    FailedAttemptCalls(ok, a);
    var acts := AttemptActions(ok, a);
    if a < MaxRetries {
      var rest := Trace(ok, a + 1);
      ExitedNeverStartsConsumer(ok, a + 1);
      var t := Trace(ok, a);
      TraceStep(ok, a);
      forall i | 0 <= i < |t|
        ensures t[i] != RunConsumer
      {
        if i > |acts| {
          assert t[i] == rest[i - |acts| - 1];
        }
      }
    }
  }

  /**
   * The last action of a run that exits is the call that failed in the tenth
   * attempt: no wait follows the last failure.
   */
  lemma {:induction false} ExitedEndsWithFailure(ok: (nat, Call) -> bool, a: nat)
    requires 1 <= a <= MaxRetries
    requires Outcome(ok, a).Exited?
    ensures var t := Trace(ok, a);
      && |t| >= 1
      && t[|t| - 1].Invoke? && t[|t| - 1].attempt == MaxRetries && !ok(MaxRetries, t[|t| - 1].call)
    decreases MaxRetries - a
  {
    if a < MaxRetries {
      var rest := Trace(ok, a + 1);
      ExitedEndsWithFailure(ok, a + 1);
      TraceStep(ok, a);
      assert Trace(ok, a)[|Trace(ok, a)| - 1] == rest[|rest| - 1];
    } else {
      PerformShape(ok, a, AttemptCalls);
      assert Trace(ok, a) == AttemptActions(ok, a);
    }
  }
}
