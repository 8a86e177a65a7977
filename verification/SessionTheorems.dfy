/**
 * Batch session files and the clock. Registration never looks at the clock, but a session file does: a
 * reader refuses one that was completed before it was started. With a clock that never runs backwards no
 * session file is ever refused.
 */
module SessionTheorems {
  import opened Prelude
  import opened IdCodec
  import opened ScanRecords
  import opened BatchSession
  import opened Registration
  import opened RegistrationSafety
  import opened RegistrationSteps
  import opened RegistrationLimits
  import opened RecordCodec

  /** The clock readings a session file keeps. */
  predicate ReadsClock(a: Action, now: int) {
    && (a.ReserveSession? ==> a.session.startedAt == now)
    && (a.CompleteSession? ==> a.now == now)
  }

  ghost predicate ClockedStep(s: System, s': System, now: int) {
    exists a :: Enabled(s, a) && ReadsClock(a, now) && s' == Apply(s, a)
  }

  ghost predicate ClockedAt(run: seq<System>, clock: seq<int>, i: nat)
    requires i + 1 < |run| <= |clock|
  {
    ClockedStep(run[i], run[i + 1], clock[i])
  }

  /** A run whose clock never runs backwards. */
  ghost predicate ClockedRun(run: seq<System>, clock: seq<int>) {
    && IsRun(run) && |clock| == |run|
    && (forall i, j :: 0 <= i <= j < |clock| ==> clock[i] <= clock[j])
    && forall i :: 0 <= i < |run| - 1 ==> ClockedAt(run, clock, i)
  }

  ghost predicate OnTime(session: Session, now: int) {
    && session.startedAt <= now
    && (session.completedAt.Some? ==> session.startedAt <= session.completedAt.value)
  }

  ghost predicate SessionsOnTime(s: System, now: int) {
    && (forall id :: id in s.disk.sessions && s.disk.sessions[id].SessionStored? ==>
          OnTime(s.disk.sessions[id].session, now))
    && (s.flow.OpeningSession? ==> OnTime(s.flow.session, now))
  }

  lemma BatchOnTime(s: System, a: Action, now: int)
    requires EnabledBatch(s, a) && ReadsClock(a, now) && SessionsOnTime(s, now) && FlowOwnsSession(s.flow)
    ensures SessionsOnTime(ApplyBatch(s, a), now)
  {}

  lemma ActionOnTime(s: System, a: Action, now: int)
    requires Safe(s) && Enabled(s, a) && ReadsClock(a, now) && SessionsOnTime(s, now)
    ensures SessionsOnTime(Apply(s, a), now)
  {
    if !EnabledRecovery(s, a) && !EnabledRegistration(s, a) {
      BatchOnTime(s, a, now);
    }
  }

  lemma ClockedStepOnTime(s: System, s': System, now: int, later: int)
    requires Safe(s) && ClockedStep(s, s', now) && SessionsOnTime(s, now) && now <= later
    ensures SessionsOnTime(s', later)
  {
    var a :| Enabled(s, a) && ReadsClock(a, now) && s' == Apply(s, a);
    ActionOnTime(s, a, now);
  }

  lemma {:induction false} RunOnTime(run: seq<System>, clock: seq<int>, n: nat)
    requires ClockedRun(run, clock) && n < |run|
    ensures SessionsOnTime(run[n], clock[n])
  {
    if n > 0 {
      RunOnTime(run, clock, n - 1);
      RunIsSafe(run, n - 1);
      assert ClockedAt(run, clock, n - 1);
      ClockedStepOnTime(run[n - 1], run[n], clock[n - 1], clock[n]);
    }
  }

  /** With a clock that never runs backwards every session file ever written, open or completed, is
      read back as it was written. */
  lemma SessionsStayReadable(run: seq<System>, clock: seq<int>, n: nat, id: string)
    requires ClockedRun(run, clock) && n < |run|
    requires id in run[n].disk.sessions && run[n].disk.sessions[id].SessionStored?
    ensures var session := run[n].disk.sessions[id].session;
            && ReadSession(run[n].disk, id) == Some(session)
            && (SessionFits(session) ==> ParsedSession(EncodeSession(session)) == Some(session))
  {
    RunIsSafe(run, n);
    RunOnTime(run, clock, n);
    var session := run[n].disk.sessions[id].session;
    assert SessionIsTrue(id, session, run[n].disk.scans, run[n].disk.recoveries);
    TrueIsReadable(session, id, run[n].disk);
    if SessionFits(session) {
      SessionRoundTrip(session);
    }
  }

  lemma TrueIsReadable(session: Session, id: string, d: Disk)
    requires SessionIsTrue(id, session, d.scans, d.recoveries)
    requires session.completedAt.Some? ==> session.startedAt <= session.completedAt.value
    ensures SessionReadable(session)
  {
    forall i | 0 <= i < |session.entries|
      ensures ValidToken(session.entries[i].token)
    {
      assert EntryIsTrue(session.entries[i], d.scans, d.recoveries);
    }
  }

  /** With such a clock the sessions can be listed exactly when no session name is left reserved. */
  lemma SessionsListableExactly(run: seq<System>, clock: seq<int>, n: nat)
    requires ClockedRun(run, clock) && n < |run|
    ensures SessionsListable(run[n].disk) <==>
            forall id :: id in run[n].disk.sessions ==> run[n].disk.sessions[id].SessionStored?
  {
    LimitsHold(run, n);
    forall id | id in run[n].disk.sessions && run[n].disk.sessions[id].SessionStored?
      ensures ReadSession(run[n].disk, id).Some?
    {
      SessionsStayReadable(run, clock, n, id);
    }
    if id :| id in run[n].disk.sessions && run[n].disk.sessions[id].SessionReserved? {
      assert ReadSession(run[n].disk, id).None?;
    }
  }
}
