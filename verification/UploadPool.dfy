/** uploadAll (internal/deploysource/deploysource.go, internal/preview/upload.go): eight
    workers, a feeder, a closer and a collector, linked by an unbuffered job channel, an error
    channel of capacity eight and a done channel.  One step is one channel operation or one
    outcome of a read or a PUT. */
module UploadPool {
  import opened Text

  const WORKERS: nat := 8

  datatype Failure = ReadFailed(job: nat) | PutFailed(job: nat)

  datatype Worker = Idle | Reading(job: nat) | Putting(job: nat) | Failing(failure: Failure) | Exited

  /** jobsClosed: the feeder has returned and closed the job channel; buffer: the error
      channel; done: closed by the collector; puts: jobs PUT successfully, in order. */
  datatype Pool = Pool(workers: seq<Worker>, next: nat, jobsClosed: bool, buffer: seq<Failure>, errsClosed: bool,
                       done: bool, firstErr: Option<Failure>, returned: bool, puts: seq<nat>, failures: seq<Failure>)

  function Start(): Pool {
    Pool(seq(WORKERS, _ => Idle), 0, false, [], false, false, None, false, [], [])
  }

  datatype Step =
    | Hand(w: nat) | FeedStopped | FeedFinished
    | ReadOk(w: nat) | ReadFail(w: nat) | PutOk(w: nat) | PutFail(w: nat)
    | Report(w: nat) | LeaveLoop(w: nat)
    | CloseErrs | Receive | Return

  predicate AllExited(workers: seq<Worker>) {
    forall w | 0 <= w < |workers| :: workers[w] == Exited
  }

  predicate Enabled(total: nat, s: Pool, step: Step) {
    match step
    case Hand(w) => !s.jobsClosed && s.next < total && w < |s.workers| && s.workers[w] == Idle
    case FeedStopped => !s.jobsClosed && s.next < total && s.done
    case FeedFinished => !s.jobsClosed && s.next >= total
    case ReadOk(w) => w < |s.workers| && s.workers[w].Reading?
    case ReadFail(w) => w < |s.workers| && s.workers[w].Reading?
    case PutOk(w) => w < |s.workers| && s.workers[w].Putting?
    case PutFail(w) => w < |s.workers| && s.workers[w].Putting?
    case Report(w) => w < |s.workers| && s.workers[w].Failing? && |s.buffer| < WORKERS
    case LeaveLoop(w) => s.jobsClosed && w < |s.workers| && s.workers[w] == Idle
    case CloseErrs => !s.errsClosed && AllExited(s.workers)
    case Receive => !s.returned && s.buffer != []
    case Return => !s.returned && s.buffer == [] && s.errsClosed
  }

  function After(total: nat, s: Pool, step: Step): Pool
    requires Enabled(total, s, step)
  {
    match step
    case Hand(w) => s.(workers := s.workers[w := Reading(s.next)], next := s.next + 1)
    case FeedStopped => s.(jobsClosed := true)
    case FeedFinished => s.(jobsClosed := true)
    case ReadOk(w) => s.(workers := s.workers[w := Putting(s.workers[w].job)])
    case ReadFail(w) => Failed(s, w, ReadFailed(s.workers[w].job))
    case PutOk(w) => s.(workers := s.workers[w := Idle], puts := s.puts + [s.workers[w].job])
    case PutFail(w) => Failed(s, w, PutFailed(s.workers[w].job))
    case Report(w) => s.(workers := s.workers[w := Exited], buffer := s.buffer + [s.workers[w].failure])
    case LeaveLoop(w) => s.(workers := s.workers[w := Exited])
    case CloseErrs => s.(errsClosed := true)
    case Receive =>
      var e := s.buffer[0];
      var s1 := s.(buffer := s.buffer[1..]);
      if s.firstErr == None then s1.(firstErr := Some(e), done := true) else s1
    case Return => s.(returned := true)
  }

  function Failed(s: Pool, w: nat, f: Failure): Pool
    requires w < |s.workers|
  {
    s.(workers := s.workers[w := Failing(f)], failures := s.failures + [f])
  }

  // ----- counting ------------------------------------------------------------------------------

  /** What is counted over the workers: the live ones, those busy with a job, their work left. */
  datatype Measure = Live | Busy(job: nat) | Weight

  function Value(m: Measure, x: Worker): nat {
    match m
    case Live => if x == Exited then 0 else 1
    case Busy(job) => if (x.Reading? && x.job == job) || (x.Putting? && x.job == job) then 1 else 0
    case Weight =>
      match x
      case Reading(_) => 5
      case Putting(_) => 4
      case Failing(_) => 3
      case Idle => 1
      case Exited => 0
  }

  function SumBy(workers: seq<Worker>, m: Measure): nat {
    if workers == [] then 0 else Value(m, workers[0]) + SumBy(workers[1..], m)
  }

  lemma {:induction false} SumByUpdate(workers: seq<Worker>, m: Measure, w: nat, x: Worker)
    requires w < |workers|
    ensures SumBy(workers[w := x], m) + Value(m, workers[w]) == SumBy(workers, m) + Value(m, x)
    ensures SumBy(workers, m) >= Value(m, workers[w])
  {
    if w > 0 {
      SumByUpdate(workers[1..], m, w - 1, x);
      assert workers[w := x][1..] == workers[1..][w - 1 := x];
    } else {
      assert workers[w := x][1..] == workers[1..];
    }
  }

  lemma {:induction false} SumByAll(workers: seq<Worker>, m: Measure, c: nat)
    requires forall w | 0 <= w < |workers| :: Value(m, workers[w]) == c
    ensures SumBy(workers, m) == c * |workers|
  {
    if workers != [] {
      assert forall w | 0 <= w < |workers[1..]| :: workers[1..][w] == workers[w + 1];
      SumByAll(workers[1..], m, c);
    }
  }

  function FailedJobs(failures: seq<Failure>, job: nat): nat {
    if failures == [] then 0
    else FailedJobs(failures[..|failures| - 1], job) + (if failures[|failures| - 1].job == job then 1 else 0)
  }

  function Times(puts: seq<nat>, job: nat): nat {
    if puts == [] then 0
    else Times(puts[..|puts| - 1], job) + (if puts[|puts| - 1] == job then 1 else 0)
  }

  // ----- the invariant -----------------------------------------------------------------------------

  predicate JobAccounted(s: Pool, job: nat) {
    Times(s.puts, job) + SumBy(s.workers, Busy(job)) + FailedJobs(s.failures, job) == if job < s.next then 1 else 0
  }

  predicate FailurePending(s: Pool) {
    s.firstErr.Some? || s.buffer != [] || exists w | 0 <= w < |s.workers| :: s.workers[w].Failing?
  }

  /** Every error on its way to the caller is a failure that happened. */
  predicate TrueFailures(s: Pool) {
    && (s.firstErr.Some? ==> s.firstErr.value in s.failures)
    && (forall e | e in s.buffer :: e in s.failures)
    && (forall w | 0 <= w < |s.workers| && s.workers[w].Failing? :: s.workers[w].failure in s.failures)
  }

  ghost predicate Inv(total: nat, s: Pool) {
    && |s.workers| == WORKERS && s.next <= total
    && |s.buffer| + SumBy(s.workers, Live) <= WORKERS
    && s.done == s.firstErr.Some?
    && (forall job: nat :: JobAccounted(s, job))
    && (s.failures != [] <==> FailurePending(s))
    && TrueFailures(s)
    && (s.jobsClosed ==> s.next == total || s.done)
    && (forall w | 0 <= w < |s.workers| && s.workers[w] == Exited :: s.jobsClosed || s.failures != [])
    && (s.errsClosed ==> AllExited(s.workers))
    && (s.returned ==> s.errsClosed && s.buffer == [])
  }

  /** No step of a worker or of the feeder loses or doubles a job. */
  lemma JobsKeep(total: nat, s: Pool, step: Step, job: nat)
    requires JobAccounted(s, job) && Enabled(total, s, step)
    ensures JobAccounted(After(total, s, step), job)
  {
    match step
    case Hand(w) => HandKeepsJobs(s, w, job);
    case ReadOk(w) => MoveKeepsJobs(s, w, Putting(s.workers[w].job), job);
    case ReadFail(w) => FailKeepsJobs(s, w, ReadFailed(s.workers[w].job), job);
    case PutFail(w) => FailKeepsJobs(s, w, PutFailed(s.workers[w].job), job);
    case PutOk(w) => PutKeepsJobs(s, w, job);
    case Report(w) => MoveKeepsJobs(s, w, Exited, job);
    case LeaveLoop(w) => MoveKeepsJobs(s, w, Exited, job);
    case _ => OthersKeepJobs(total, s, step, job);
  }

  lemma HandKeepsJobs(s: Pool, w: nat, job: nat)
    requires w < |s.workers| && s.workers[w] == Idle && JobAccounted(s, job)
    ensures JobAccounted(s.(workers := s.workers[w := Reading(s.next)], next := s.next + 1), job)
  {
    SumByUpdate(s.workers, Busy(job), w, Reading(s.next));
  }

  lemma MoveKeepsJobs(s: Pool, w: nat, x: Worker, job: nat)
    requires w < |s.workers| && Value(Busy(job), s.workers[w]) == Value(Busy(job), x) && JobAccounted(s, job)
    ensures JobAccounted(s.(workers := s.workers[w := x]), job)
  {
    SumByUpdate(s.workers, Busy(job), w, x);
  }

  lemma PutKeepsJobs(s: Pool, w: nat, job: nat)
    requires w < |s.workers| && s.workers[w].Putting? && JobAccounted(s, job)
    ensures JobAccounted(s.(workers := s.workers[w := Idle], puts := s.puts + [s.workers[w].job]), job)
  {
    SumByUpdate(s.workers, Busy(job), w, Idle);
    assert (s.puts + [s.workers[w].job])[..|s.puts|] == s.puts;
  }

  lemma FailKeepsJobs(s: Pool, w: nat, f: Failure, job: nat)
    requires w < |s.workers| && (s.workers[w].Reading? || s.workers[w].Putting?) && f.job == s.workers[w].job
    requires JobAccounted(s, job)
    ensures JobAccounted(Failed(s, w, f), job)
  {
    SumByUpdate(s.workers, Busy(job), w, Failing(f));
    assert (s.failures + [f])[..|s.failures|] == s.failures;
  }

  lemma OthersKeepJobs(total: nat, s: Pool, step: Step, job: nat)
    requires JobAccounted(s, job) && Enabled(total, s, step)
    requires step.FeedStopped? || step.FeedFinished? || step.CloseErrs? || step.Receive? || step.Return?
    ensures JobAccounted(After(total, s, step), job)
  {
  }

  lemma LiveKeeps(total: nat, s: Pool, step: Step)
    requires Inv(total, s) && Enabled(total, s, step)
    ensures var s' := After(total, s, step);
            |s'.workers| == WORKERS && |s'.buffer| + SumBy(s'.workers, Live) <= WORKERS
  {
    var s' := After(total, s, step);
    match step
    case Hand(w) => SumByUpdate(s.workers, Live, w, s'.workers[w]);
    case ReadOk(w) => SumByUpdate(s.workers, Live, w, s'.workers[w]);
    case ReadFail(w) => SumByUpdate(s.workers, Live, w, s'.workers[w]);
    case PutOk(w) => SumByUpdate(s.workers, Live, w, s'.workers[w]);
    case PutFail(w) => SumByUpdate(s.workers, Live, w, s'.workers[w]);
    case Report(w) => SumByUpdate(s.workers, Live, w, s'.workers[w]);
    case LeaveLoop(w) => SumByUpdate(s.workers, Live, w, s'.workers[w]);
    case _ =>
  }

  lemma FailuresKeep(total: nat, s: Pool, step: Step)
    requires Inv(total, s) && Enabled(total, s, step)
    ensures var s' := After(total, s, step); s'.failures != [] <==> FailurePending(s')
  {
    var s' := After(total, s, step);
    match step
    case ReadFail(w) => assert s'.workers[w].Failing?;
    case PutFail(w) => assert s'.workers[w].Failing?;
    case Report(w) => assert s.workers[w].Failing?;
    case Hand(w) => OtherWorkersKeep(s, s', w);
    case ReadOk(w) => OtherWorkersKeep(s, s', w);
    case PutOk(w) => OtherWorkersKeep(s, s', w);
    case LeaveLoop(w) => OtherWorkersKeep(s, s', w);
    case _ =>
  }

  lemma OtherWorkersKeep(s: Pool, s': Pool, w: nat)
    requires w < |s.workers| == |s'.workers| && s'.workers == s.workers[w := s'.workers[w]]
    requires !s.workers[w].Failing? && !s'.workers[w].Failing?
    ensures (exists v | 0 <= v < |s.workers| :: s.workers[v].Failing?) <==>
            (exists v | 0 <= v < |s'.workers| :: s'.workers[v].Failing?)
  {
    if v :| 0 <= v < |s.workers| && s.workers[v].Failing? { assert s'.workers[v].Failing?; }
    if v :| 0 <= v < |s'.workers| && s'.workers[v].Failing? { assert s.workers[v].Failing?; }
  }

  lemma StepKeeps(total: nat, s: Pool, step: Step)
    requires Inv(total, s) && Enabled(total, s, step)
    ensures Inv(total, After(total, s, step))
  {
    forall job: nat ensures JobAccounted(After(total, s, step), job) {
      assert JobAccounted(s, job);
      JobsKeep(total, s, step, job);
    }
    LiveKeeps(total, s, step);
    FailuresKeep(total, s, step);
    TrueFailuresKeep(total, s, step);
  }

  lemma TrueFailuresKeep(total: nat, s: Pool, step: Step)
    requires TrueFailures(s) && Enabled(total, s, step)
    ensures TrueFailures(After(total, s, step))
  {
    match step
    case Hand(w) => MovedIsTrue(s, w, Reading(s.next), After(total, s, step));
    case FeedStopped =>
    case FeedFinished =>
    case ReadOk(w) => MovedIsTrue(s, w, Putting(s.workers[w].job), After(total, s, step));
    case ReadFail(w) => FailedIsTrue(s, w, ReadFailed(s.workers[w].job));
    case PutOk(w) => MovedIsTrue(s, w, Idle, After(total, s, step));
    case PutFail(w) => FailedIsTrue(s, w, PutFailed(s.workers[w].job));
    case Report(w) => ReportedIsTrue(total, s, w);
    case LeaveLoop(w) => MovedIsTrue(s, w, Exited, After(total, s, step));
    case CloseErrs =>
    case Receive => ReceivedIsTrue(total, s);
    case Return =>
  }

  lemma ReceivedIsTrue(total: nat, s: Pool)
    requires TrueFailures(s) && Enabled(total, s, Receive)
    ensures TrueFailures(After(total, s, Receive))
  {
    assert s.buffer[0] in s.buffer;
    assert forall e | e in s.buffer[1..] :: e in s.buffer;
  }

  lemma ReportedIsTrue(total: nat, s: Pool, w: nat)
    requires TrueFailures(s) && Enabled(total, s, Report(w))
    ensures TrueFailures(After(total, s, Report(w)))
  {
  }

  lemma MovedIsTrue(s: Pool, w: nat, x: Worker, s': Pool)
    requires TrueFailures(s) && w < |s.workers| && !x.Failing? && s'.workers == s.workers[w := x]
    requires s'.firstErr == s.firstErr && s'.buffer == s.buffer && s'.failures == s.failures
    ensures TrueFailures(s')
  {
  }

  lemma FailedIsTrue(s: Pool, w: nat, f: Failure)
    requires TrueFailures(s) && w < |s.workers|
    ensures TrueFailures(Failed(s, w, f))
  {
    assert forall e | e in s.failures :: e in s.failures + [f];
  }

  lemma StartHolds(total: nat)
    ensures Inv(total, Start())
  {
    forall job: nat ensures JobAccounted(Start(), job) { SumByAll(Start().workers, Busy(job), 0); }
    SumByAll(Start().workers, Live, 1);
  }

  // ----- runs ------------------------------------------------------------------------------------------

  ghost predicate Run(total: nat, states: seq<Pool>, steps: seq<Step>) {
    && |states| == |steps| + 1 && states[0] == Start()
    && forall i | 0 <= i < |steps| ::
         Enabled(total, states[i], steps[i]) && states[i + 1] == After(total, states[i], steps[i])
  }

  lemma {:induction false} RunKeeps(total: nat, states: seq<Pool>, steps: seq<Step>, i: nat)
    requires Run(total, states, steps) && i < |states|
    ensures Inv(total, states[i])
  {
    if i == 0 {
      StartHolds(total);
    } else {
      RunKeeps(total, states, steps, i - 1);
      StepKeeps(total, states[i - 1], steps[i - 1]);
    }
  }

  /** No worker ever blocks on reporting its error: the channel has room. */
  lemma ReportNeverBlocks(total: nat, states: seq<Pool>, steps: seq<Step>, i: nat, w: nat)
    requires Run(total, states, steps) && i < |states|
    requires w < |states[i].workers| && states[i].workers[w].Failing?
    ensures Enabled(total, states[i], Report(w))
  {
    RunKeeps(total, states, steps, i);
    SumByUpdate(states[i].workers, Live, w, Exited);
  }

  /** Eight workers, and never more than eight of them live or errors waiting. */
  lemma EightAtMost(total: nat, states: seq<Pool>, steps: seq<Step>, i: nat)
    requires Run(total, states, steps) && i < |states|
    ensures |states[i].workers| == 8 && |states[i].buffer| + SumBy(states[i].workers, Live) <= 8
  {
    RunKeeps(total, states, steps, i);
  }

  /** Everything has ended: uploadAll returned, the feeder and every worker are gone. */
  predicate AllEnded(s: Pool) {
    s.returned && s.jobsClosed && s.errsClosed && AllExited(s.workers)
  }

  /** No deadlock and no leaked goroutine: until everything has ended some step is possible. */
  lemma NoDeadlock(total: nat, states: seq<Pool>, steps: seq<Step>, i: nat) returns (step: Step)
    requires Run(total, states, steps) && i < |states| && !AllEnded(states[i])
    ensures Enabled(total, states[i], step)
  {
    var s := states[i];
    RunKeeps(total, states, steps, i);
    if AllExited(s.workers) {
      if !s.errsClosed {
        step := CloseErrs;
      } else if s.buffer != [] {
        step := Receive;
      } else if !s.returned {
        step := Return;
      } else {
        assert s.workers[0] == Exited;
        assert !exists w | 0 <= w < |s.workers| :: s.workers[w].Failing?;
        step := if s.next < total then FeedStopped else FeedFinished;
      }
    } else {
      var w :| 0 <= w < |s.workers| && s.workers[w] != Exited;
      match s.workers[w]
      case Idle =>
        step := if s.jobsClosed then LeaveLoop(w) else if s.next < total then Hand(w) else FeedFinished;
      case Reading(_) => step := ReadOk(w);
      case Putting(_) => step := PutOk(w);
      case Failing(_) =>
        ReportNeverBlocks(total, states, steps, i, w);
        step := Report(w);
    }
  }

  /** Work left; every step makes it smaller, so every run ends. */
  function Work(total: nat, s: Pool): int {
    6 * (total - s.next) + SumBy(s.workers, Weight) + |s.buffer|
    + (if s.jobsClosed then 0 else 1) + (if s.errsClosed then 0 else 1) + (if s.returned then 0 else 1)
  }

  lemma StepsShrinkWork(total: nat, s: Pool, step: Step)
    requires s.next <= total && Enabled(total, s, step)
    ensures 0 <= Work(total, After(total, s, step)) < Work(total, s)
  {
    var s' := After(total, s, step);
    match step
    case Hand(w) => MoveShrinks(total, s, w, Reading(s.next), s');
    case ReadOk(w) => MoveShrinks(total, s, w, Putting(s.workers[w].job), s');
    case ReadFail(w) => MoveShrinks(total, s, w, Failing(ReadFailed(s.workers[w].job)), s');
    case PutOk(w) => MoveShrinks(total, s, w, Idle, s');
    case PutFail(w) => MoveShrinks(total, s, w, Failing(PutFailed(s.workers[w].job)), s');
    case Report(w) => MoveShrinks(total, s, w, Exited, s');
    case LeaveLoop(w) => MoveShrinks(total, s, w, Exited, s');
    case _ => OthersShrink(total, s, step);
  }

  lemma MoveShrinks(total: nat, s: Pool, w: nat, x: Worker, s': Pool)
    requires w < |s.workers| && s'.workers == s.workers[w := x] && s.next <= s'.next <= total
    requires s'.jobsClosed == s.jobsClosed && s'.errsClosed == s.errsClosed && s'.returned == s.returned
    requires Value(Weight, x) + |s'.buffer| - 6 * s'.next < Value(Weight, s.workers[w]) + |s.buffer| - 6 * s.next
    ensures 0 <= Work(total, s') < Work(total, s)
  {
    SumByUpdate(s.workers, Weight, w, x);
  }

  lemma OthersShrink(total: nat, s: Pool, step: Step)
    requires s.next <= total && Enabled(total, s, step)
    requires step.FeedStopped? || step.FeedFinished? || step.CloseErrs? || step.Receive? || step.Return?
    ensures 0 <= Work(total, After(total, s, step)) < Work(total, s)
  {
  }

  /** On every schedule: when uploadAll has returned it returned an error exactly when some
      read or PUT failed, and without an error every upload was PUT exactly once. */
  lemma ReturnMeaning(total: nat, states: seq<Pool>, steps: seq<Step>, i: nat)
    requires Run(total, states, steps) && i < |states| && states[i].returned
    ensures states[i].firstErr == None <==> states[i].failures == []
    ensures states[i].firstErr.Some? ==> states[i].firstErr.value in states[i].failures
    ensures states[i].firstErr == None ==> forall job: nat | job < total :: Times(states[i].puts, job) == 1
    ensures forall job: nat :: Times(states[i].puts, job) <= 1 && (job >= total ==> Times(states[i].puts, job) == 0)
  {
    var s := states[i];
    RunKeeps(total, states, steps, i);
    assert s.workers[0] == Exited;
    assert !exists w | 0 <= w < |s.workers| :: s.workers[w].Failing?;
    forall job: nat
      ensures Times(s.puts, job) <= 1 && (job >= total ==> Times(s.puts, job) == 0)
      ensures s.firstErr == None && job < total ==> Times(s.puts, job) == 1
    {
      assert JobAccounted(s, job);
      SumByAll(s.workers, Busy(job), 0);
    }
  }
}
