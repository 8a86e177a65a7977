/**
 * Complete, unlike finalize, does not ask which attempt a result was made for: it closes the running attempt with
 * any stored run of the job's scan and asset.
 */
module OcrCompletion {
  import opened Prelude
  import opened IdCodec
  import opened OcrJobs
  import opened OcrSystem
  import opened OcrSafety
  import opened OcrSteps
  import opened OcrTheorems

  // ---- what complete accepts -----------------------------------------------------------------

  /** A stored run of the job's scan and asset, and a clock that was not set back before the job was made, are
      all that complete needs to close a running job. No attempt is among the conditions. */
  lemma CompletesExactly(run: seq<State>, n: nat, id: Id, r: Id, retryable: bool, now: int)
    requires IsRun(run) && n < |run|
    ensures var s := run[n];
            Allowed(s, Complete(id, r, retryable, now)) <==>
              && id in s.jobs && s.jobs[id].status == Running && s.jobs[id].createdAt <= now
              && r in s.runs && RunFits(s.runs[r], s.jobs[id].input)
  {
    RunIsSafe(run, n);
    var s := run[n];
    if id in s.jobs && s.jobs[id].status == Running && r in s.runs && RunFits(s.runs[r], s.jobs[id].input) {
      SoundJob(s, id);
      CompletedRowAccepted(s.jobs[id], r, s.runs[r], retryable, now);
    }
  }

  lemma CompletedRowAccepted(job: Job, r: Id, run: Run, retryable: bool, now: int)
    requires JobConsistent(job) && job.status == Running
    requires RunAccepted(run.status, run.text, run.reason, run.message)
    ensures RowAccepted(Completed(job, r, run, retryable, now)) <==> job.createdAt <= now
  {}

  // ---- a run closes any later attempt --------------------------------------------------------

  lemma OthersKeepRuns(s: State, a: Action)
    requires Allowed(s, a) && !a.RecordRun? && !a.Commit?
    ensures Next(s, a).runs == s.runs
  {}

  lemma StepKeepsRun(s: State, s': State, r: Id)
    requires Step(s, s') && r in s.runs
    ensures r in s'.runs && s'.runs[r] == s.runs[r]
  {
    var a :| StepBy(s, a, s');
    if !a.RecordRun? && !a.Commit? {
      OthersKeepRuns(s, a);
    }
  }

  lemma {:induction false} StoredRunStays(run: seq<State>, m: nat, n: nat, r: Id)
    requires IsRun(run) && m <= n < |run| && r in run[m].runs
    ensures r in run[n].runs && run[n].runs[r] == run[m].runs[r]
    decreases n - m
  {
    if m < n {
      StoredRunStays(run, m, n - 1, r);
      assert StepAt(run, n - 1);
      StepKeepsRun(run[n - 1], run[n], r);
    }
  }

  /** A run stored once, in whichever attempt, can close every attempt of its job from then on; a text run of a job
      that nobody cancelled leaves it Recognized. */
  lemma AnyStoredRunCloses(run: seq<State>, m: nat, n: nat, id: Id, r: Id, retryable: bool, now: int)
    requires IsRun(run) && m <= n < |run| && id in run[m].jobs
    requires r in run[m].runs && RunFits(run[m].runs[r], run[m].jobs[id].input)
    requires id in run[n].jobs && run[n].jobs[id].status == Running && run[n].jobs[id].createdAt <= now
    ensures Allowed(run[n], Complete(id, r, retryable, now))
    ensures var job := Next(run[n], Complete(id, r, retryable, now)).jobs[id];
            && Spent(job, run[n].jobs[id].attempts) && job.lastRun == Some(r)
            && (run[m].runs[r].status != RunUnavailable && !run[n].jobs[id].cancel ==> job.status == Recognized)
  {
    StoredRunStays(run, m, n, r);
    InputNeverChanges(run, m, n, id);
    CompletesExactly(run, n, id, r, retryable, now);
    RunIsSafe(run, n);
    EndingSpends(run[n], Complete(id, r, retryable, now), id);
    CompletedNames(run[n].jobs[id], r, run[n].runs[r], retryable, now);
  }

  lemma CompletedNames(job: Job, r: Id, run: Run, retryable: bool, now: int)
    requires RunAccepted(run.status, run.text, run.reason, run.message)
    ensures Completed(job, r, run, retryable, now).lastRun == Some(r)
    ensures run.status != RunUnavailable && !job.cancel ==> Completed(job, r, run, retryable, now).status == Recognized
  {}

  // ---- such a run ----------------------------------------------------------------------------

  lemma Extended(run: seq<State>, a: Action, s: State) returns (longer: seq<State>)
    requires IsRun(run) && StepBy(run[|run| - 1], a, s)
    ensures longer == run + [s] && IsRun(longer)
  {
    longer := run + [s];
    assert Step(run[|run| - 1], s);
    forall i | 0 <= i < |longer| - 1
      ensures StepAt(longer, i)
    {
      if i < |run| - 1 {
        assert StepAt(run, i);
      }
    }
  }

  const INPUT := Input(1, 2, OriginalInput, 100, 100)
  const PROVIDER := Provider("ocr", "1", None)
  const TEXT_RUN := Run(1, Some(2), PROVIDER, Detected, "text", None, None)

  function Library(jobs: Jobs, runs: Runs, log: seq<Event>): State {
    State(map[1 := Slots(2, None, None)], map[2 := Source(OriginalInput, true, 100, 100)], jobs, runs, map[], map[],
          {}, log)
  }

  const QUEUED := NewJob(INPUT, 1)
  const FIRST := Claimed(QUEUED, 2)
  const AGAIN := Interrupted(FIRST, 4)
  const SECOND := Claimed(AGAIN, 5)

  const QUEUING := Event(3, Queuing, 0)
  const CLAIMING := Event(3, Claiming, 1)
  const INTERRUPTING := Event(3, Interrupting, 1)
  const RECLAIMING := Event(3, Claiming, 2)

  lemma NoOneActive()
    ensures ActiveIds(map[]) == {}
  {}

  lemma HeaderIsAccepted()
    ensures HeaderAccepted(PROVIDER, None, [], None)
  {
    assert |PROVIDER.name| == 3 && |PROVIDER.version| == 1;
  }

  lemma JobQueued() returns (run: seq<State>)
    ensures IsRun(run) && |run| == 2 && run[1] == Library(map[3 := QUEUED], map[], [QUEUING])
  {
    run := [Library(map[], map[], [])];
    NoOneActive();
    run := Extended(run, Enqueue(3, INPUT, 1), Library(map[3 := QUEUED], map[], [QUEUING]));
  }

  lemma FirstAttempt(run: seq<State>) returns (longer: seq<State>)
    requires IsRun(run) && |run| == 2 && run[1] == Library(map[3 := QUEUED], map[], [QUEUING])
    ensures IsRun(longer) && |longer| == 3
    ensures longer[2] == Library(map[3 := FIRST], map[], [QUEUING, CLAIMING])
  {
    longer := Extended(run, Claim(3, 2), Library(map[3 := FIRST], map[], [QUEUING, CLAIMING]));
  }

  lemma RunRecorded(run: seq<State>) returns (longer: seq<State>)
    requires IsRun(run) && |run| == 3 && run[2] == Library(map[3 := FIRST], map[], [QUEUING, CLAIMING])
    ensures IsRun(longer) && |longer| == 4 && longer[..3] == run
    ensures longer[3] == Library(map[3 := FIRST], map[4 := TEXT_RUN], [QUEUING, CLAIMING])
  {
    HeaderIsAccepted();
    longer := Extended(run, RecordRun(4, TEXT_RUN, [], None),
                       Library(map[3 := FIRST], map[4 := TEXT_RUN], [QUEUING, CLAIMING]));
  }

  lemma FirstInterrupted(run: seq<State>) returns (longer: seq<State>)
    requires IsRun(run) && |run| == 4
    requires run[3] == Library(map[3 := FIRST], map[4 := TEXT_RUN], [QUEUING, CLAIMING])
    ensures IsRun(longer) && |longer| == 5 && longer[..4] == run
    ensures longer[4] == Library(map[3 := AGAIN], map[4 := TEXT_RUN], [QUEUING, CLAIMING, INTERRUPTING])
  {
    longer := Extended(run, Interrupt(3, 4),
                       Library(map[3 := AGAIN], map[4 := TEXT_RUN], [QUEUING, CLAIMING, INTERRUPTING]));
  }

  lemma SecondAttempt(run: seq<State>) returns (longer: seq<State>)
    requires IsRun(run) && |run| == 5
    requires run[4] == Library(map[3 := AGAIN], map[4 := TEXT_RUN], [QUEUING, CLAIMING, INTERRUPTING])
    ensures IsRun(longer) && |longer| == 6 && longer[..5] == run
    ensures longer[5].jobs == map[3 := SECOND] && longer[5].runs == map[4 := TEXT_RUN]
  {
    longer := Extended(run, Claim(3, 5),
                       Library(map[3 := SECOND], map[4 := TEXT_RUN], [QUEUING, CLAIMING, INTERRUPTING, RECLAIMING]));
  }

  /** A run recorded while attempt 1 was running ends attempt 2 Recognized, although nothing was recorded since. */
  lemma SomeRunClosesALaterAttempt() returns (run: seq<State>, id: Id, r: Id)
    ensures IsRun(run) && |run| == 7
    ensures id in run[2].jobs && run[2].jobs[id].status == Running && run[2].jobs[id].attempts == 1
    ensures r !in run[2].runs && r in run[3].runs && run[3].jobs == run[2].jobs
    ensures id in run[5].jobs && run[5].jobs[id].status == Running && run[5].jobs[id].attempts == 2
    ensures id in run[6].jobs && run[6].jobs[id].status == Recognized && run[6].jobs[id].attempts == 2
    ensures run[6].jobs[id].lastRun == Some(r) && run[6].runs == run[3].runs
  {
    id, r := 3, 4;
    run := JobQueued();
    run := FirstAttempt(run);
    run := RunRecorded(run);
    var recorded := run;
    run := FirstInterrupted(run);
    assert run[3] == recorded[3] && run[2] == recorded[2];
    run := SecondAttempt(run);
    AnyStoredRunCloses(run, 5, 5, id, r, false, 6);
    var closed := Next(run[5], Complete(id, r, false, 6));
    run := Extended(run, Complete(id, r, false, 6), closed);
  }
}
