/** Test chunks run by interleaved workers, with retries and a width budget. */
module WorkerPool {
  import opened Basics

  /** How one spawn of a chunk ended. */
  datatype Result = Result(exitCode: int, timedOut: bool)

  datatype Outcome = Outcome(cmd: nat, exitCode: int, retries: int)

  const MAX_CHUNK_ATTEMPTS := 3

  /** The process died to a runtime fault: 128 plus a fatal signal other than SIGKILL. */
  predicate IsCrash(exitCode: int) {
    132 <= exitCode <= 136 || exitCode == 138 || exitCode == 139
  }

  predicate Retryable(result: Result) {
    !result.timedOut && IsCrash(result.exitCode)
  }

  predicate Bad(result: Result) {
    result.exitCode != 0 || result.timedOut
  }

  // ---- what a history of attempts amounts to ----

  /** A finished attempt; commands are numbered as they stand in the queue at the start. */
  datatype Attempt = Attempt(cmd: nat, result: Result)

  function Count(log: seq<Attempt>, c: nat): nat {
    if log == [] then 0
    else Count(log[..|log| - 1], c) + if log[|log| - 1].cmd == c then 1 else 0
  }

  /** Attempt `i` settles its command: it is no crash, or it is the last one allowed. */
  predicate Settles(log: seq<Attempt>, i: nat)
    requires i < |log|
  {
    !Retryable(log[i].result) || Count(log[..i], log[i].cmd) + 1 == MAX_CHUNK_ATTEMPTS
  }

  predicate Settled(log: seq<Attempt>, c: nat) {
    exists i :: 0 <= i < |log| && log[i].cmd == c && Settles(log, i)
  }

  /** The outcomes of the settling attempts, in order. */
  function Outcomes(log: seq<Attempt>): seq<(Attempt, nat)> {
    if log == [] then []
    else
      var n := |log| - 1;
      Outcomes(log[..n]) + if Settles(log, n) then [(log[n], Count(log[..n], log[n].cmd))] else []
  }

  function Failing(outcomes: seq<(Attempt, nat)>): seq<Outcome> {
    if outcomes == [] then []
    else
      var (a, retries) := outcomes[|outcomes| - 1];
      Failing(outcomes[..|outcomes| - 1]) + if Bad(a.result) then [Outcome(a.cmd, a.result.exitCode, retries)] else []
  }

  // ---- the pool ----

  /** A worker between its turns: waiting for an attempt of `cmd`, or gone because the queue was empty. */
  datatype Slot = Running(cmd: nat, attempt: int) | Gone

  /** `log` records every attempt that has ended. */
  datatype Pool = Pool(queue: seq<nat>, slots: seq<Slot>, completed: nat, failures: seq<Outcome>, log: seq<Attempt>)

  /** A worker takes the next command, or leaves. */
  function Take(queue: seq<nat>): (Slot, seq<nat>) {
    if queue == [] then (Gone, []) else (Running(queue[0], 1), queue[1..])
  }

  /** What worker `w` does, without interruption, when its attempt ends with `result`. */
  function Turn(s: Pool, w: nat, result: Result): Pool
    requires w < |s.slots| && s.slots[w].Running?
  {
    var (cmd, attempt) := (s.slots[w].cmd, s.slots[w].attempt);
    var log := s.log + [Attempt(cmd, result)];
    if Retryable(result) && attempt < MAX_CHUNK_ATTEMPTS then
      s.(slots := s.slots[w := Running(cmd, attempt + 1)], log := log)
    else
      var (slot, rest) := Take(s.queue);
      var failed := if Bad(result) then [Outcome(cmd, result.exitCode, attempt - 1)] else [];
      Pool(rest, s.slots[w := slot], s.completed + 1, s.failures + failed, log)
  }

  function Start(queue: seq<nat>, workers: nat): (seq<Slot>, seq<nat>) {
    if workers == 0 then ([], queue)
    else
      var (slots, rest) := Start(queue, workers - 1);
      var (slot, rest') := Take(rest);
      (slots + [slot], rest')
  }

  function Numbers(n: nat): seq<nat> { seq(n, i => i) }

  function Initial(n: nat, workers: nat): Pool {
    var (slots, rest) := Start(Numbers(n), workers);
    Pool(rest, slots, 0, [], [])
  }

  datatype Event = Event(worker: nat, result: Result)

  /** Any interleaving: at each step some running attempt ends. */
  predicate IsRun(s: Pool, events: seq<Event>)
    decreases |events|
  {
    events == [] || (events[0].worker < |s.slots| && s.slots[events[0].worker].Running?
                     && IsRun(Turn(s, events[0].worker, events[0].result), events[1..]))
  }

  function Run(s: Pool, events: seq<Event>): Pool
    requires IsRun(s, events)
    decreases |events|
  {
    if events == [] then s else Run(Turn(s, events[0].worker, events[0].result), events[1..])
  }

  /** The state the workers share, updated in place by their turns. */
  class TestRun {
    var queue: seq<nat>
    var slots: seq<Slot>
    var completed: nat
    var failures: seq<Outcome>
    ghost var log: seq<Attempt>

    ghost function State(): Pool
      reads this
    {
      Pool(queue, slots, completed, failures, log)
    }

    constructor (n: nat, concurrency: nat)
      ensures State() == Initial(n, concurrency)
    {
      var q, running := seq(n, i => i), [];
      for w := 0 to concurrency
        invariant (running, q) == Start(Numbers(n), w)
      {
        if q != [] {
          running, q := running + [Running(q[0], 1)], q[1..];
        } else {
          running := running + [Gone];
        }
      }
      queue, slots, completed, failures, log := q, running, 0, [], [];
    }

    method AttemptEnded(w: nat, result: Result)
      requires w < |slots| && slots[w].Running?
      modifies this
      ensures State() == Turn(old(State()), w, result)
    {
      var cmd, attempt := slots[w].cmd, slots[w].attempt;
      log := log + [Attempt(cmd, result)];
      if !result.timedOut && IsCrash(result.exitCode) && attempt < MAX_CHUNK_ATTEMPTS {
        slots := slots[w := Running(cmd, attempt + 1)];
        return;
      }
      completed := completed + 1;
      if result.exitCode != 0 || result.timedOut {
        failures := failures + [Outcome(cmd, result.exitCode, attempt - 1)];
      }
      if queue == [] {
        slots := slots[w := Gone];
      } else {
        slots, queue := slots[w := Running(queue[0], 1)], queue[1..];
      }
    }
  }

  // ---- what every turn keeps ----

  /** Worker `w` runs a started, unsettled command on the attempt its history calls for. */
  predicate RunsRightly(n: nat, s: Pool, w: nat)
    requires w < |s.slots|
  {
    match s.slots[w]
    case Gone => s.queue == []
    case Running(c, a) => c + |s.queue| < n && a == Count(s.log, c) + 1 && !Settled(s.log, c)
  }

  predicate RunBy(s: Pool, c: nat) {
    exists w :: 0 <= w < |s.slots| && s.slots[w].Running? && s.slots[w].cmd == c
  }

  /** Command `c` waits untried, or is being run, or is settled. */
  predicate Accounted(n: nat, s: Pool, c: nat) {
    if c + |s.queue| >= n then Count(s.log, c) == 0 else RunBy(s, c) || Settled(s.log, c)
  }

  predicate Alone(s: Pool, v: nat, w: nat)
    requires v < |s.slots| && w < |s.slots|
  {
    s.slots[v].Running? && s.slots[w].Running? ==> s.slots[v].cmd != s.slots[w].cmd
  }

  predicate Orderly(log: seq<Attempt>, i: nat)
    requires i < |log|
  {
    !Settled(log[..i], log[i].cmd)
  }

  ghost predicate Inv(n: nat, s: Pool) {
    && |s.queue| <= n && (forall i :: 0 <= i < |s.queue| ==> s.queue[i] == n - |s.queue| + i)
    && (forall w :: 0 <= w < |s.slots| ==> RunsRightly(n, s, w))
    && (forall v, w :: 0 <= v < w < |s.slots| ==> Alone(s, v, w))
    && (forall c :: 0 <= c < n ==> Accounted(n, s, c))
    && (forall i :: 0 <= i < |s.log| ==> s.log[i].cmd < n && Orderly(s.log, i))
    && Tallied(s)
  }

  predicate Tallied(s: Pool) {
    s.completed == |Outcomes(s.log)| && s.failures == Failing(Outcomes(s.log))
  }

  lemma CountSnoc(log: seq<Attempt>, a: Attempt, c: nat)
    ensures Count(log + [a], c) == Count(log, c) + if a.cmd == c then 1 else 0
  {
    assert (log + [a])[..|log|] == log;
  }

  lemma SettledSnoc(log: seq<Attempt>, a: Attempt, c: nat)
    ensures Settled(log + [a], c) <==>
            Settled(log, c) || (a.cmd == c && (!Retryable(a.result) || Count(log, c) + 1 == MAX_CHUNK_ATTEMPTS))
  {
    var more := log + [a];
    assert more[..|log|] == log && more[|log|] == a;
    forall i | 0 <= i < |log| ensures Settles(more, i) == Settles(log, i) && more[i] == log[i] {
      assert more[..i] == log[..i];
    }
    if Settled(log, c) {
      var i :| 0 <= i < |log| && log[i].cmd == c && Settles(log, i);
      assert more[i].cmd == c && Settles(more, i);
    }
    if Settled(more, c) {
      var i :| 0 <= i < |more| && more[i].cmd == c && Settles(more, i);
      if i < |log| { assert log[i].cmd == c && Settles(log, i); }
    }
    if a.cmd == c { assert more[|log|].cmd == c; }
  }

  lemma OrderlySnoc(log: seq<Attempt>, a: Attempt)
    requires forall i :: 0 <= i < |log| ==> Orderly(log, i)
    requires !Settled(log, a.cmd)
    ensures forall i :: 0 <= i < |log| + 1 ==> Orderly(log + [a], i)
  {
    var more := log + [a];
    forall i | 0 <= i < |more| ensures Orderly(more, i) {
      if i < |log| {
        assert more[..i] == log[..i] && Orderly(log, i);
      } else {
        assert more[..i] == log;
      }
    }
  }

  lemma OutcomesSnoc(log: seq<Attempt>, a: Attempt)
    ensures Outcomes(log + [a]) == Outcomes(log)
              + if !Retryable(a.result) || Count(log, a.cmd) + 1 == MAX_CHUNK_ATTEMPTS
                then [(a, Count(log, a.cmd))] else []
  {
    assert (log + [a])[..|log|] == log;
  }

  lemma FailingSnoc(outcomes: seq<(Attempt, nat)>, a: Attempt, retries: nat)
    ensures Failing(outcomes + [(a, retries)])
              == Failing(outcomes) + if Bad(a.result) then [Outcome(a.cmd, a.result.exitCode, retries)] else []
  {
    assert (outcomes + [(a, retries)])[..|outcomes|] == outcomes;
  }

  /** An unsettled command still has an attempt left. */
  lemma {:induction false} UnsettledCount(log: seq<Attempt>, c: nat)
    requires !Settled(log, c)
    ensures Count(log, c) < MAX_CHUNK_ATTEMPTS
  {
    if log != [] {
      var before, a := log[..|log| - 1], log[|log| - 1];
      assert log == before + [a];
      SettledSnoc(before, a, c);
      UnsettledCount(before, c);
    }
  }

  /** A retry changes only the attempt number of one worker. */
  lemma RetryKeepsInv(n: nat, s: Pool, w: nat, result: Result)
    requires Inv(n, s) && w < |s.slots| && s.slots[w].Running? && Retryable(result)
             && s.slots[w].attempt < MAX_CHUNK_ATTEMPTS
    ensures Inv(n, Turn(s, w, result))
  {
    var t, cmd, a := Turn(s, w, result), s.slots[w].cmd, Attempt(s.slots[w].cmd, result);
    assert RunsRightly(n, s, w);
    OrderlySnoc(s.log, a);
    OutcomesSnoc(s.log, a);
    assert Outcomes(s.log) + [] == Outcomes(s.log);
    forall v | 0 <= v < |t.slots| ensures RunsRightly(n, t, v) {
      assert RunsRightly(n, s, v);
      if t.slots[v].Running? {
        CountSnoc(s.log, a, t.slots[v].cmd);
        SettledSnoc(s.log, a, t.slots[v].cmd);
        if v != w { SlotsApart(n, s, v, w); }
      }
    }
    forall v, u | 0 <= v < u < |t.slots| ensures Alone(t, v, u) {
      assert Alone(s, v, u);
    }
    forall c | 0 <= c < n ensures Accounted(n, t, c) {
      assert Accounted(n, s, c);
      CountSnoc(s.log, a, c);
      SettledSnoc(s.log, a, c);
      if RunBy(s, c) {
        var v :| 0 <= v < |s.slots| && s.slots[v].Running? && s.slots[v].cmd == c;
        assert t.slots[v].Running? && t.slots[v].cmd == c;
      }
    }
  }

  lemma SlotsApart(n: nat, s: Pool, v: nat, w: nat)
    requires Inv(n, s) && v < |s.slots| && w < |s.slots| && v != w && s.slots[v].Running? && s.slots[w].Running?
    ensures s.slots[v].cmd != s.slots[w].cmd
  {
    if v < w { assert Alone(s, v, w); } else { assert Alone(s, w, v); }
  }

  predicate SettlesNow(s: Pool, w: nat, result: Result) {
    w < |s.slots| && s.slots[w].Running? && !(Retryable(result) && s.slots[w].attempt < MAX_CHUNK_ATTEMPTS)
  }

  lemma SettleTallies(n: nat, s: Pool, w: nat, result: Result)
    requires Inv(n, s) && SettlesNow(s, w, result)
    ensures Tallied(Turn(s, w, result))
  {
    var a := Attempt(s.slots[w].cmd, result);
    assert RunsRightly(n, s, w);
    UnsettledCount(s.log, a.cmd);
    OutcomesSnoc(s.log, a);
    FailingSnoc(Outcomes(s.log), a, Count(s.log, a.cmd));
    assert s.failures + [] == s.failures;
  }

  lemma SettleFreesWorker(n: nat, s: Pool, w: nat, result: Result, v: nat)
    requires Inv(n, s) && SettlesNow(s, w, result) && v < |s.slots|
    ensures RunsRightly(n, Turn(s, w, result), v)
  {
    var a := Attempt(s.slots[w].cmd, result);
    assert RunsRightly(n, s, v);
    if v != w && s.slots[v].Running? {
      SlotsApart(n, s, v, w);
      CountSnoc(s.log, a, s.slots[v].cmd);
      SettledSnoc(s.log, a, s.slots[v].cmd);
    } else if v == w && s.queue != [] {
      var next := s.queue[0];
      assert next == n - |s.queue| && Accounted(n, s, next) && RunsRightly(n, s, w);
      CountSnoc(s.log, a, next);
      UntriedUnsettled(s.log + [a], next);
    }
  }

  lemma SettleAccounts(n: nat, s: Pool, w: nat, result: Result, c: nat)
    requires Inv(n, s) && SettlesNow(s, w, result) && c < n
    ensures Accounted(n, Turn(s, w, result), c)
  {
    var t, a := Turn(s, w, result), Attempt(s.slots[w].cmd, result);
    assert RunsRightly(n, s, w) && Accounted(n, s, c);
    UnsettledCount(s.log, a.cmd);
    CountSnoc(s.log, a, c);
    SettledSnoc(s.log, a, c);
    if c + |s.queue| >= n {
      if c + |t.queue| < n {
        assert c == s.queue[0] && t.slots[w].Running? && t.slots[w].cmd == c;
      }
    } else if c != a.cmd && RunBy(s, c) {
      var v :| 0 <= v < |s.slots| && s.slots[v].Running? && s.slots[v].cmd == c;
      assert t.slots[v].Running? && t.slots[v].cmd == c;
    }
  }

  /** Settling a command frees its worker for the next one. */
  lemma SettleKeepsInv(n: nat, s: Pool, w: nat, result: Result)
    requires Inv(n, s) && SettlesNow(s, w, result)
    ensures Inv(n, Turn(s, w, result))
  {
    var t, a := Turn(s, w, result), Attempt(s.slots[w].cmd, result);
    assert RunsRightly(n, s, w);
    OrderlySnoc(s.log, a);
    SettleTallies(n, s, w, result);
    forall v | 0 <= v < |t.slots| ensures RunsRightly(n, t, v) { SettleFreesWorker(n, s, w, result, v); }
    forall c | 0 <= c < n ensures Accounted(n, t, c) { SettleAccounts(n, s, w, result, c); }
    forall v, u | 0 <= v < u < |t.slots| ensures Alone(t, v, u) {
      assert Alone(s, v, u) && RunsRightly(n, s, v) && RunsRightly(n, s, u);
    }
  }

  lemma {:induction false} UntriedUnsettled(log: seq<Attempt>, c: nat)
    requires Count(log, c) == 0
    ensures !Settled(log, c)
  {
    if log != [] {
      assert log == log[..|log| - 1] + [log[|log| - 1]];
      SettledSnoc(log[..|log| - 1], log[|log| - 1], c);
      UntriedUnsettled(log[..|log| - 1], c);
    }
  }

  // ---- over every interleaving ----

  lemma {:induction false} StartFacts(n: nat, workers: nat)
    ensures var (slots, rest) := Start(Numbers(n), workers);
      && |slots| == workers && |rest| == (if workers <= n then n - workers else 0)
      && (forall i :: 0 <= i < |rest| ==> rest[i] == n - |rest| + i)
      && (forall w :: 0 <= w < workers ==> slots[w] == if w < n then Running(w, 1) else Gone)
  {
    if workers > 0 {
      StartFacts(n, workers - 1);
    }
  }

  lemma InitialInv(n: nat, workers: nat)
    ensures Inv(n, Initial(n, workers))
  {
    StartFacts(n, workers);
    var s := Initial(n, workers);
    forall c | 0 <= c < n ensures Accounted(n, s, c) {
      if c < workers { assert s.slots[c].Running? && s.slots[c].cmd == c; }
    }
  }

  lemma TurnKeepsInv(n: nat, s: Pool, w: nat, result: Result)
    requires Inv(n, s) && w < |s.slots| && s.slots[w].Running?
    ensures Inv(n, Turn(s, w, result)) && |Turn(s, w, result).slots| == |s.slots|
    ensures |Turn(s, w, result).log| == |s.log| + 1
  {
    if Retryable(result) && s.slots[w].attempt < MAX_CHUNK_ATTEMPTS {
      RetryKeepsInv(n, s, w, result);
    } else {
      SettleKeepsInv(n, s, w, result);
    }
  }

  lemma {:induction false} RunKeepsInv(n: nat, s: Pool, events: seq<Event>)
    requires Inv(n, s) && IsRun(s, events)
    ensures Inv(n, Run(s, events)) && |Run(s, events).slots| == |s.slots|
    ensures |Run(s, events).log| == |s.log| + |events|
    decreases |events|
  {
    if events != [] {
      TurnKeepsInv(n, s, events[0].worker, events[0].result);
      RunKeepsInv(n, Turn(s, events[0].worker, events[0].result), events[1..]);
    }
  }

  function Left(slot: Slot): int {
    match slot
    case Gone => 0
    case Running(_, a) => MAX_CHUNK_ATTEMPTS + 1 - a
  }

  function AllLeft(slots: seq<Slot>): int {
    if slots == [] then 0 else AllLeft(slots[..|slots| - 1]) + Left(slots[|slots| - 1])
  }

  /** Attempts still allowed. */
  function Measure(s: Pool): int {
    MAX_CHUNK_ATTEMPTS * |s.queue| + AllLeft(s.slots)
  }

  lemma {:induction false} AllLeftUpdate(slots: seq<Slot>, w: nat, slot: Slot)
    requires w < |slots|
    ensures AllLeft(slots[w := slot]) == AllLeft(slots) - Left(slots[w]) + Left(slot)
  {
    var last := |slots| - 1;
    if w < last {
      AllLeftUpdate(slots[..last], w, slot);
      assert slots[w := slot][..last] == slots[..last][w := slot];
    } else {
      assert slots[w := slot][..last] == slots[..last];
    }
  }

  lemma {:induction false} AllLeftNonNegative(n: nat, s: Pool, k: nat)
    requires Inv(n, s) && k <= |s.slots|
    ensures AllLeft(s.slots[..k]) >= 0
  {
    if k > 0 {
      assert s.slots[..k][..k - 1] == s.slots[..k - 1];
      AllLeftNonNegative(n, s, k - 1);
      assert RunsRightly(n, s, k - 1);
      if s.slots[k - 1].Running? { UnsettledCount(s.log, s.slots[k - 1].cmd); }
    }
  }

  lemma TurnUsesUp(n: nat, s: Pool, w: nat, result: Result)
    requires Inv(n, s) && w < |s.slots| && s.slots[w].Running?
    ensures Measure(Turn(s, w, result)) < Measure(s)
  {
    assert RunsRightly(n, s, w);
    UnsettledCount(s.log, s.slots[w].cmd);
    AllLeftUpdate(s.slots, w, Turn(s, w, result).slots[w]);
  }

  lemma {:induction false} RunUsesUp(n: nat, s: Pool, events: seq<Event>)
    requires Inv(n, s) && IsRun(s, events)
    ensures |events| <= Measure(s)
    decreases |events|
  {
    if events == [] {
      AllLeftNonNegative(n, s, |s.slots|);
      assert s.slots[..|s.slots|] == s.slots;
    } else {
      TurnKeepsInv(n, s, events[0].worker, events[0].result);
      TurnUsesUp(n, s, events[0].worker, events[0].result);
      RunUsesUp(n, Turn(s, events[0].worker, events[0].result), events[1..]);
    }
  }

  lemma {:induction false} StartMeasure(n: nat, workers: nat)
    ensures var (slots, rest) := Start(Numbers(n), workers);
      MAX_CHUNK_ATTEMPTS * |rest| + AllLeft(slots) == MAX_CHUNK_ATTEMPTS * n
  {
    if workers > 0 {
      StartMeasure(n, workers - 1);
      var (slots, rest) := Start(Numbers(n), workers - 1);
      var (slot, rest') := Take(rest);
      assert (slots + [slot])[..|slots|] == slots;
    }
  }

  /** Every attempt that ends is recorded, with its result, for the command that its worker was running. */
  lemma {:induction false} LogIsTheRun(s: Pool, events: seq<Event>, k: nat)
    requires IsRun(s, events) && k < |events|
    ensures IsRun(s, events[..k]) && |Run(s, events).log| == |s.log| + |events|
    ensures var before, log := Run(s, events[..k]), Run(s, events).log;
      && events[k].worker < |before.slots| && before.slots[events[k].worker].Running?
      && log[|s.log| + k] == Attempt(before.slots[events[k].worker].cmd, events[k].result)
    decreases |events|
  {
    var next := Turn(s, events[0].worker, events[0].result);
    LogGrows(next, events[1..]);
    if k > 0 {
      LogIsTheRun(next, events[1..], k - 1);
      assert events[..k][1..] == events[1..][..k - 1];
    }
  }

  lemma {:induction false} LogGrows(s: Pool, events: seq<Event>)
    requires IsRun(s, events)
    ensures |Run(s, events).log| == |s.log| + |events| && s.log <= Run(s, events).log
    decreases |events|
  {
    if events != [] { LogGrows(Turn(s, events[0].worker, events[0].result), events[1..]); }
  }

  /** No interleaving makes more than three attempts of any command, so every run ends. */
  lemma RunsAreBounded(n: nat, workers: nat, events: seq<Event>)
    requires IsRun(Initial(n, workers), events)
    ensures |events| <= 3 * n
    ensures forall c :: Count(Run(Initial(n, workers), events).log, c) <= 3
  {
    InitialInv(n, workers);
    StartMeasure(n, workers);
    RunUsesUp(n, Initial(n, workers), events);
    RunKeepsInv(n, Initial(n, workers), events);
    forall c { CountBound(Run(Initial(n, workers), events).log, c); }
  }

  // ---- the verdict on every command ----

  predicate Verdict(log: seq<Attempt>, c: nat, i: int) {
    0 <= i < |log| && log[i].cmd == c && Settles(log, i)
  }

  /** The process ended by itself, on one of the signals ILL, TRAP, ABRT, BUS, FPE, USR1 and SEGV. */
  predicate Crashed(r: Result) { !r.timedOut && r.exitCode - 128 in {4, 5, 6, 7, 8, 10, 11} }

  /** Attempt `i` is the verdict on `c`: every other attempt of `c` was an earlier crash, there were at most two, and
      it is a crash itself only if there were two. */
  ghost predicate OnlyVerdict(log: seq<Attempt>, c: nat, i: int) {
    && 0 <= i < |log| && log[i].cmd == c && Count(log[..i], c) <= 2
    && (Crashed(log[i].result) ==> Count(log[..i], c) == 2)
    && forall j :: 0 <= j < |log| && log[j].cmd == c && j != i ==> j < i && Crashed(log[j].result)
  }

  lemma CrashedIsRetryable(r: Result)
    ensures Crashed(r) <==> Retryable(r)
  {
  }

  lemma OnlyVerdictSettles(log: seq<Attempt>, c: nat, i: int)
    requires OnlyVerdict(log, c, i)
    ensures Verdict(log, c, i)
  {
    CrashedIsRetryable(log[i].result);
  }

  lemma VerdictIsOnly(n: nat, s: Pool, c: nat, i: int)
    requires Inv(n, s) && Verdict(s.log, c, i)
    ensures OnlyVerdict(s.log, c, i)
  {
    forall j | i < j < |s.log| ensures s.log[j].cmd != c || Settled(s.log[..j], c) {
      assert s.log[..j][i] == s.log[i] && s.log[..j][..i] == s.log[..i];
    }
    forall j | 0 <= j < i && s.log[j].cmd == c ensures Settles(s.log, j) ==> Settled(s.log[..i], c) {
      assert s.log[..i][j] == s.log[j] && s.log[..i][..j] == s.log[..j];
    }
    assert Orderly(s.log, i);
    UnsettledCount(s.log[..i], c);
  }

  lemma {:induction false} CountBound(log: seq<Attempt>, c: nat)
    requires forall i :: 0 <= i < |log| ==> Orderly(log, i)
    ensures Count(log, c) <= MAX_CHUNK_ATTEMPTS
  {
    if log != [] {
      var before, a := log[..|log| - 1], log[|log| - 1];
      if a.cmd == c {
        assert Orderly(log, |log| - 1);
        UnsettledCount(before, c);
      } else {
        forall i | 0 <= i < |before| ensures Orderly(before, i) {
          assert before[..i] == log[..i] && Orderly(log, i);
        }
        CountBound(before, c);
      }
    }
  }

  /** Attempt `i` is the verdict that outcome `o` records. */
  predicate Recorded(log: seq<Attempt>, o: (Attempt, nat), i: int) {
    Verdict(log, o.0.cmd, i) && log[i] == o.0 && Count(log[..i], o.0.cmd) == o.1
  }

  lemma RecordedBefore(log: seq<Attempt>, o: (Attempt, nat), i: int)
    requires 0 <= i < |log| - 1
    ensures Recorded(log, o, i) <==> Recorded(log[..|log| - 1], o, i)
  {
    var before := log[..|log| - 1];
    assert before[..i] == log[..i] && before[i] == log[i];
  }

  lemma {:induction false} OutcomeIsRecorded(log: seq<Attempt>, o: (Attempt, nat)) returns (i: int)
    requires o in Outcomes(log)
    ensures Recorded(log, o, i)
  {
    var n := |log| - 1;
    if o in Outcomes(log[..n]) {
      i := OutcomeIsRecorded(log[..n], o);
      RecordedBefore(log, o, i);
    } else {
      i := n;
    }
  }

  lemma {:induction false} RecordedIsOutcome(log: seq<Attempt>, o: (Attempt, nat), i: int)
    requires Recorded(log, o, i)
    ensures o in Outcomes(log)
  {
    var n := |log| - 1;
    if i < n {
      RecordedBefore(log, o, i);
      RecordedIsOutcome(log[..n], o, i);
    }
  }

  predicate DifferentCommands(outcomes: seq<(Attempt, nat)>) {
    forall i, j :: 0 <= i < j < |outcomes| ==> outcomes[i].0.cmd != outcomes[j].0.cmd
  }

  ghost predicate AllOrderly(log: seq<Attempt>) {
    forall i :: 0 <= i < |log| ==> Orderly(log, i)
  }

  lemma OrderlyBefore(log: seq<Attempt>)
    requires log != [] && AllOrderly(log)
    ensures AllOrderly(log[..|log| - 1])
  {
    var before := log[..|log| - 1];
    forall i | 0 <= i < |before| ensures Orderly(before, i) {
      assert before[..i] == log[..i] && Orderly(log, i);
    }
  }

  /** No command has two outcomes. */
  lemma {:induction false} OutcomesDiffer(log: seq<Attempt>)
    requires AllOrderly(log)
    ensures DifferentCommands(Outcomes(log))
  {
    if log != [] {
      var n := |log| - 1;
      var before := Outcomes(log[..n]);
      OrderlyBefore(log);
      OutcomesDiffer(log[..n]);
      assert Orderly(log, n);
      forall j | 0 <= j < |before| ensures before[j].0.cmd != log[n].cmd {
        var i := OutcomeIsRecorded(log[..n], before[j]);
        assert log[..n][i].cmd == before[j].0.cmd && Settles(log[..n], i);
      }
    }
  }

  /** The commands, as a set. */
  function Below(n: nat): set<nat> { if n == 0 then {} else Below(n - 1) + {n - 1} }

  lemma {:induction false} BelowFacts(n: nat)
    ensures |Below(n)| == n && forall c: nat :: c in Below(n) <==> c < n
  {
    if n > 0 { BelowFacts(n - 1); }
  }

  function Commands(outcomes: seq<(Attempt, nat)>): set<nat> {
    if outcomes == [] then {} else Commands(outcomes[..|outcomes| - 1]) + {outcomes[|outcomes| - 1].0.cmd}
  }

  lemma {:induction false} CommandsMembers(outcomes: seq<(Attempt, nat)>, c: nat)
    ensures c in Commands(outcomes) <==> exists i :: 0 <= i < |outcomes| && outcomes[i].0.cmd == c
  {
    if outcomes != [] {
      var init := outcomes[..|outcomes| - 1];
      CommandsMembers(init, c);
      if i :| 0 <= i < |init| && init[i].0.cmd == c { assert outcomes[i].0.cmd == c; }
      if i :| 0 <= i < |outcomes| && outcomes[i].0.cmd == c { assert i < |init| ==> init[i].0.cmd == c; }
    }
  }

  lemma {:induction false} CountCommands(outcomes: seq<(Attempt, nat)>)
    requires DifferentCommands(outcomes)
    ensures |Commands(outcomes)| == |outcomes|
  {
    if outcomes != [] {
      var init, last := outcomes[..|outcomes| - 1], outcomes[|outcomes| - 1];
      CountCommands(init);
      CommandsMembers(init, last.0.cmd);
    }
  }

  /** Nothing waits and nothing runs. */
  ghost predicate Quiet(s: Pool) { forall slot :: slot in s.slots ==> slot == Gone }

  lemma QuietIsSettled(n: nat, s: Pool, c: nat)
    requires Inv(n, s) && Quiet(s) && s.slots != [] && c < n
    ensures s.queue == [] && Settled(s.log, c)
  {
    assert s.slots[0] in s.slots && RunsRightly(n, s, 0);
    assert Accounted(n, s, c);
    assert !RunBy(s, c) by {
      forall w | 0 <= w < |s.slots| ensures !s.slots[w].Running? { assert s.slots[w] in s.slots; }
    }
  }

  lemma OutcomeCommands(n: nat, s: Pool, c: nat)
    requires Inv(n, s)
    ensures c in Commands(Outcomes(s.log)) <==> Settled(s.log, c)
    ensures Settled(s.log, c) ==> c < n
  {
    var outcomes := Outcomes(s.log);
    CommandsMembers(outcomes, c);
    if Settled(s.log, c) {
      var i :| 0 <= i < |s.log| && s.log[i].cmd == c && Settles(s.log, i);
      var o := (s.log[i], Count(s.log[..i], c));
      RecordedIsOutcome(s.log, o, i);
      var j :| 0 <= j < |outcomes| && outcomes[j] == o;
    }
    if j :| 0 <= j < |outcomes| && outcomes[j].0.cmd == c {
      var i := OutcomeIsRecorded(s.log, outcomes[j]);
      assert s.log[i].cmd == c && Settles(s.log, i);
    }
  }

  /** When every command is settled there are as many outcomes as commands. */
  lemma AllCounted(n: nat, s: Pool)
    requires Inv(n, s) && forall c: nat :: c < n ==> Settled(s.log, c)
    ensures s.completed == n
  {
    var outcomes := Outcomes(s.log);
    assert AllOrderly(s.log);
    OutcomesDiffer(s.log);
    CountCommands(outcomes);
    BelowFacts(n);
    forall c: nat ensures c in Commands(outcomes) <==> c in Below(n) { OutcomeCommands(n, s, c); }
    assert Commands(outcomes) == Below(n);
  }

  /** When no attempt is under way, the queue is empty, every command has exactly one verdict, and all are
      counted as completed. */
  lemma QuietMeansSettled(n: nat, workers: nat, events: seq<Event>, c: nat)
    requires workers >= 1 && IsRun(Initial(n, workers), events) && c < n
    requires Quiet(Run(Initial(n, workers), events))
    ensures var s := Run(Initial(n, workers), events);
      s.queue == [] && s.completed == n && exists i :: OnlyVerdict(s.log, c, i)
  {
    InitialInv(n, workers);
    StartFacts(n, workers);
    RunKeepsInv(n, Initial(n, workers), events);
    var s := Run(Initial(n, workers), events);
    forall d: nat | d < n ensures Settled(s.log, d) { QuietIsSettled(n, s, d); }
    AllCounted(n, s);
    QuietIsSettled(n, s, c);
    var i :| 0 <= i < |s.log| && s.log[i].cmd == c && Settles(s.log, i);
    VerdictIsOnly(n, s, c, i);
  }

  // ---- the failures reported ----

  lemma {:induction false} FailureIsOutcome(outcomes: seq<(Attempt, nat)>, f: Outcome) returns (o: (Attempt, nat))
    requires f in Failing(outcomes)
    ensures o in outcomes && Bad(o.0.result) && f == Outcome(o.0.cmd, o.0.result.exitCode, o.1)
  {
    var init, last := outcomes[..|outcomes| - 1], outcomes[|outcomes| - 1];
    if f in Failing(init) { o := FailureIsOutcome(init, f); } else { o := last; }
  }

  lemma {:induction false} BadOutcomeFails(outcomes: seq<(Attempt, nat)>, o: (Attempt, nat))
    requires o in outcomes && Bad(o.0.result)
    ensures Outcome(o.0.cmd, o.0.result.exitCode, o.1) in Failing(outcomes)
  {
    var init, last := outcomes[..|outcomes| - 1], outcomes[|outcomes| - 1];
    assert outcomes == init + [last];
    if o in init { BadOutcomeFails(init, o); }
  }

  predicate FailOnce(failures: seq<Outcome>) {
    forall i, j :: 0 <= i < j < |failures| ==> failures[i].cmd != failures[j].cmd
  }

  lemma {:induction false} FailuresDiffer(outcomes: seq<(Attempt, nat)>)
    requires DifferentCommands(outcomes)
    ensures FailOnce(Failing(outcomes))
  {
    if outcomes != [] {
      var init, last := outcomes[..|outcomes| - 1], outcomes[|outcomes| - 1];
      FailuresDiffer(init);
      forall i | 0 <= i < |Failing(init)| ensures Failing(init)[i].cmd != last.0.cmd {
        var o := FailureIsOutcome(init, Failing(init)[i]);
        var j :| 0 <= j < |init| && init[j] == o;
        assert outcomes[j] == o;
      }
    }
  }

  /** Attempt `i` is the verdict on the command of `f`, and it exited with another code than 0 or timed out. */
  ghost predicate BadVerdict(log: seq<Attempt>, f: Outcome, i: int) {
    && OnlyVerdict(log, f.cmd, i) && (log[i].result.exitCode != 0 || log[i].result.timedOut)
    && f.exitCode == log[i].result.exitCode && f.retries == Count(log[..i], f.cmd)
  }

  lemma FailureHasVerdict(n: nat, s: Pool, f: Outcome) returns (i: int)
    requires Inv(n, s) && f in s.failures
    ensures BadVerdict(s.log, f, i)
  {
    var o := FailureIsOutcome(Outcomes(s.log), f);
    i := OutcomeIsRecorded(s.log, o);
    VerdictIsOnly(n, s, f.cmd, i);
  }

  lemma VerdictIsFailure(n: nat, s: Pool, f: Outcome, i: int)
    requires Inv(n, s) && BadVerdict(s.log, f, i)
    ensures f in s.failures
  {
    var o := (s.log[i], Count(s.log[..i], f.cmd));
    OnlyVerdictSettles(s.log, f.cmd, i);
    RecordedIsOutcome(s.log, o, i);
    BadOutcomeFails(Outcomes(s.log), o);
  }

  /** After any run, the failures are exactly the commands whose verdict was a nonzero exit or a timeout, each of
      them once. */
  lemma FailuresAreBadVerdicts(n: nat, workers: nat, events: seq<Event>)
    requires IsRun(Initial(n, workers), events)
    ensures var s := Run(Initial(n, workers), events);
      && (forall f :: f in s.failures <==> exists i :: BadVerdict(s.log, f, i))
      && FailOnce(s.failures)
  {
    InitialInv(n, workers);
    RunKeepsInv(n, Initial(n, workers), events);
    var s := Run(Initial(n, workers), events);
    forall f ensures f in s.failures <==> exists i :: BadVerdict(s.log, f, i) {
      if f in s.failures { var i := FailureHasVerdict(n, s, f); }
      if i :| BadVerdict(s.log, f, i) { VerdictIsFailure(n, s, f, i); }
    }
    assert AllOrderly(s.log);
    OutcomesDiffer(s.log);
    FailuresDiffer(Outcomes(s.log));
  }

  // ---- the width budget ----

  const FILE_OVERSUBSCRIBE := 2

  function Budget(cores: int): int { Max(1, cores) * FILE_OVERSUBSCRIBE }

  /** The largest width, up to the one asked for, of which `poolWidth` fit the budget; but never below one. */
  function BudgetedParallel(requested: int, cores: int, poolWidth: int): (granted: int)
    requires poolWidth >= 1
    ensures granted >= 1 && (granted > 1 ==> granted <= requested && granted * poolWidth <= Budget(cores))
    ensures granted >= requested || (granted + 1) * poolWidth > Budget(cores)
  {
    var share := Budget(cores) / poolWidth;
    ShareFits(Budget(cores), poolWidth, Max(1, Min(requested, share)));
    Max(1, Min(requested, share))
  }

  lemma ShareFits(budget: int, width: int, granted: int)
    requires budget >= 1 && width >= 1
    ensures granted <= budget / width ==> granted * width <= budget
    ensures granted >= budget / width ==> (granted + 1) * width > budget
  {
    var share := budget / width;
    assert share * width <= budget < share * width + width;
    if granted <= share { Scaled(granted, share, width); }
    if granted >= share { Scaled(share, granted, width); }
  }

  lemma Scaled(a: int, b: int, k: int)
    requires a <= b && k >= 0
    ensures a * k <= b * k
  {
    assert b * k - a * k == (b - a) * k;
    if b > a { assert (b - a) * k >= 0; }
  }

  datatype Arg = Text(text: string) | Parallel(width: int) | Timeout(ms: int)

  datatype TestCommand = TestCommand(command: seq<Arg>, parallel: Option<int>)

  function Budgeted(command: TestCommand, cores: int, poolWidth: int, timeout: int): TestCommand
    requires poolWidth >= 1
  {
    if command.parallel.None? then command
    else
      var width := BudgetedParallel(command.parallel.value, cores, poolWidth);
      TestCommand(command.command + [Parallel(width), Timeout(timeout)], Some(width))
  }

  /** `g` is the largest width up to `w` of which `poolWidth` make at most two files a core; or it is 1. */
  ghost predicate IsShare(g: int, w: int, cores: int, poolWidth: int) {
    && g >= 1 && (g > 1 ==> g <= w && g * poolWidth <= 2 * Max(1, cores))
    && forall k :: g < k <= w ==> k * poolWidth > 2 * Max(1, cores)
  }

  /** A command that asks for a width keeps its arguments, and gets its share and the timeout after them; any
      other is passed through. */
  ghost predicate IsBudgeted(c: TestCommand, b: TestCommand, cores: int, poolWidth: int, timeout: int) {
    match c.parallel
    case None => b == c
    case Some(w) =>
      exists g :: IsShare(g, w, cores, poolWidth)
        && b.command == c.command + [Parallel(g), Timeout(timeout)] && b.parallel == Some(g)
  }

  lemma BudgetedIsShare(requested: int, cores: int, poolWidth: int)
    requires poolWidth >= 1
    ensures IsShare(BudgetedParallel(requested, cores, poolWidth), requested, cores, poolWidth)
  {
    var g := BudgetedParallel(requested, cores, poolWidth);
    forall k | g < k <= requested ensures k * poolWidth > 2 * Max(1, cores) { Scaled(g + 1, k, poolWidth); }
  }

  function ApplyChunkBudget(commands: seq<TestCommand>, cores: int, poolWidth: int, timeout: int): (r: seq<TestCommand>)
    requires poolWidth >= 1
    ensures |r| == |commands|
    ensures forall i :: 0 <= i < |r| ==> IsBudgeted(commands[i], r[i], cores, poolWidth, timeout)
  {
    var r := seq(|commands|, i requires 0 <= i < |commands| => Budgeted(commands[i], cores, poolWidth, timeout));
    assert forall i :: 0 <= i < |r| ==> IsBudgeted(commands[i], r[i], cores, poolWidth, timeout) by {
      forall i | 0 <= i < |r| ensures IsBudgeted(commands[i], r[i], cores, poolWidth, timeout) {
        if commands[i].parallel.Some? { BudgetedIsShare(commands[i].parallel.value, cores, poolWidth); }
      }
    }
    r
  }

  /** The width that the arguments ask for: the last one counts. */
  function PassedWidth(args: seq<Arg>): int {
    if args == [] then 0
    else if args[|args| - 1].Parallel? then args[|args| - 1].width
    else PassedWidth(args[..|args| - 1])
  }

  predicate NoWidth(args: seq<Arg>) { forall arg :: arg in args ==> !arg.Parallel? }

  lemma {:induction false} NothingPassed(args: seq<Arg>)
    requires NoWidth(args)
    ensures PassedWidth(args) == 0
  {
    if args != [] { NothingPassed(args[..|args| - 1]); }
  }

  /** The process is told the width that was granted. */
  lemma BudgetedPasses(c: TestCommand, b: TestCommand, cores: int, poolWidth: int, timeout: int)
    requires NoWidth(c.command) && IsBudgeted(c, b, cores, poolWidth, timeout)
    ensures PassedWidth(b.command) == if c.parallel.Some? then b.parallel.value else 0
    ensures c.parallel.Some? ==> b.parallel.Some? && IsShare(PassedWidth(b.command), c.parallel.value, cores, poolWidth)
  {
    if c.parallel.Some? {
      var g :| IsShare(g, c.parallel.value, cores, poolWidth)
        && b.command == c.command + [Parallel(g), Timeout(timeout)] && b.parallel == Some(g);
      assert b.command[..|b.command| - 1] == c.command + [Parallel(g)];
    } else {
      NothingPassed(c.command);
    }
  }

  /** Test files that a worker keeps in flight: as many as its process is told to. */
  function Width(commands: seq<TestCommand>, slot: Slot): int {
    if slot.Running? && slot.cmd < |commands| then PassedWidth(commands[slot.cmd].command) else 0
  }

  function LiveWidth(commands: seq<TestCommand>, slots: seq<Slot>): int {
    if slots == [] then 0 else LiveWidth(commands, slots[..|slots| - 1]) + Width(commands, slots[|slots| - 1])
  }

  lemma {:induction false} LiveWidthAtMost(commands: seq<TestCommand>, slots: seq<Slot>, share: int)
    requires share >= 0 && forall i :: 0 <= i < |commands| ==> PassedWidth(commands[i].command) <= share
    ensures LiveWidth(commands, slots) <= |slots| * share
  {
    if slots != [] {
      LiveWidthAtMost(commands, slots[..|slots| - 1], share);
      assert |slots| * share == (|slots| - 1) * share + share;
    }
  }

  /** In every state of every run, the widths that the live processes were told stay within the budget, or one file
      a worker. The arguments given hold none of their own. */
  lemma LiveWidthIsBudgeted(requested: seq<TestCommand>, cores: int, poolWidth: nat, timeout: int, events: seq<Event>)
    requires poolWidth >= 1 && IsRun(Initial(|requested|, poolWidth), events)
    requires forall i :: 0 <= i < |requested| ==> NoWidth(requested[i].command)
    ensures LiveWidth(ApplyChunkBudget(requested, cores, poolWidth, timeout),
                      Run(Initial(|requested|, poolWidth), events).slots) <= Max(poolWidth, 2 * Max(1, cores))
  {
    var commands := ApplyChunkBudget(requested, cores, poolWidth, timeout);
    var n := |requested|;
    InitialInv(n, poolWidth);
    StartFacts(n, poolWidth);
    RunKeepsInv(n, Initial(n, poolWidth), events);
    var share := Max(1, Budget(cores) / poolWidth);
    SharesFit(cores, poolWidth, share);
    forall i | 0 <= i < n ensures PassedWidth(commands[i].command) <= share {
      BudgetedPasses(requested[i], commands[i], cores, poolWidth, timeout);
      if requested[i].parallel.Some? {
        ShareAtMost(commands[i].parallel.value, requested[i].parallel.value, cores, poolWidth);
      }
    }
    LiveWidthAtMost(commands, Run(Initial(n, poolWidth), events).slots, share);
  }

  lemma ShareAtMost(g: int, w: int, cores: int, poolWidth: int)
    requires poolWidth >= 1 && IsShare(g, w, cores, poolWidth)
    ensures g <= Max(1, Budget(cores) / poolWidth)
  {
    var fits := Budget(cores) / poolWidth;
    ShareFits(Budget(cores), poolWidth, fits);
    if g > 1 && g > fits { Scaled(fits + 1, g, poolWidth); }
  }

  lemma SharesFit(cores: int, poolWidth: nat, share: int)
    requires poolWidth >= 1 && share == Max(1, Budget(cores) / poolWidth)
    ensures poolWidth * share <= Max(poolWidth, Budget(cores))
  {
    ShareFits(Budget(cores), poolWidth, Budget(cores) / poolWidth);
  }
}
