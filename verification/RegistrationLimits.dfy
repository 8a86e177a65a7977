/**
 * The limits on record and session files hold in every reachable state, and at most one batch session is
 * open: begin checks the limits only before it reserves a name, and nothing else adds a file.
 */
module RegistrationLimits {
  import opened Prelude
  import opened IdCodec
  import opened ScanRecords
  import opened BatchSession
  import opened Registration
  import opened RegistrationSafety
  import opened RegistrationSteps

  ghost predicate OneOpen(sessions: Sessions) {
    forall i, j :: i in sessions && j in sessions && StillOpen(sessions[i]) && StillOpen(sessions[j]) ==> i == j
  }

  /** A session being opened has its name reserved, and no other session is open. */
  ghost predicate OpeningAlone(flow: Flow, d: Disk) {
    flow.OpeningSession? ==>
      && flow.session.id in d.sessions && d.sessions[flow.session.id].SessionReserved?
      && NoActiveSession(d)
  }

  ghost predicate Limited(s: System) {
    && |s.disk.recoveries| <= MAX_RECORDS && |s.disk.sessions| <= MAX_SESSIONS
    && OneOpen(s.disk.sessions) && OpeningAlone(s.flow, s.disk)
  }

  lemma KeysDecideSize<K, V>(m: map<K, V>, n: map<K, V>)
    ensures m.Keys <= n.Keys ==> |m| <= |n|
  {
    assert |m.Keys| == |m| && |n.Keys| == |n|;
    if m.Keys <= n.Keys {
      SubsetIsSmaller(m.Keys, n.Keys);
    }
  }

  lemma {:induction false} SubsetIsSmaller<T>(a: set<T>, b: set<T>)
    requires a <= b
    ensures |a| <= |b|
  {
    if x :| x in a {
      SubsetIsSmaller(a - {x}, b - {x});
    }
  }

  lemma OneMoreKey<K, V>(m: map<K, V>, k: K, v: V)
    ensures |m[k := v]| <= |m| + 1
  {
    assert m[k := v].Keys == m.Keys + {k};
    assert |m[k := v].Keys| == |m[k := v]| && |m.Keys| == |m|;
  }

  lemma RecoveryLimits(s: System, a: Action)
    requires Safe(s) && Limited(s) && EnabledRecovery(s, a)
    ensures Limited(ApplyRecovery(s, a))
  {
    var s' := ApplyRecovery(s, a);
    if a.ReserveRecord? {
      OneMoreKey(s.disk.recoveries, a.record.token, Reserved);
    } else {
      assert s'.disk.recoveries.Keys <= s.disk.recoveries.Keys;
      KeysDecideSize(s'.disk.recoveries, s.disk.recoveries);
    }
  }

  lemma RegistrationLimits(s: System, a: Action)
    requires Safe(s) && Limited(s) && EnabledRegistration(s, a)
    ensures Limited(ApplyRegistration(s, a))
  {
    var s' := ApplyRegistration(s, a);
    RegistrationKeepsTokens(s, a);
    KeysDecideSize(s'.disk.recoveries, s.disk.recoveries);
  }

  lemma RegistrationKeepsTokens(s: System, a: Action)
    requires EnabledRegistration(s, a)
    ensures ApplyRegistration(s, a).disk.recoveries.Keys == s.disk.recoveries.Keys
    ensures ApplyRegistration(s, a).flow.OpeningSession? ==> ApplyRegistration(s, a).flow == s.flow
  {
    if !a.StartRegistration? && !a.MarkCommitted? {
      assert ApplyRegistration(s, a).disk.recoveries == s.disk.recoveries;
    }
  }

  /** An edit of a stored session that does not open it again. */
  lemma EditKeepsOpen(d: Disk, id: string, session: Session)
    requires OneOpen(d.sessions) && ReadSession(d, id).Some? && session.id == id
    requires session.completedAt.None? ==> ReadSession(d, id).value.completedAt.None?
    ensures OneOpen(WithSession(d, session).sessions) && |WithSession(d, session).sessions| == |d.sessions|
  {
    var sessions := WithSession(d, session).sessions;
    assert sessions.Keys == d.sessions.Keys;
    KeysDecideSize(sessions, d.sessions);
    KeysDecideSize(d.sessions, sessions);
    assert StillOpen(sessions[id]) ==> StillOpen(d.sessions[id]);
  }

  lemma OpeningLimits(s: System, a: Action)
    requires Limited(s) && EnabledBatch(s, a) && (a.ReserveSession? || a == FinalizeSession || a.RemoveSession?)
    ensures Limited(ApplyBatch(s, a))
  {
    var s' := ApplyBatch(s, a);
    if a.ReserveSession? {
      OneMoreKey(s.disk.sessions, a.session.id, SessionReserved);
    } else {
      assert s'.disk.sessions.Keys <= s.disk.sessions.Keys;
      KeysDecideSize(s'.disk.sessions, s.disk.sessions);
    }
  }

  /** What every other batch action does to the session files and the records. */
  ghost predicate EditsOneSession(s: System, s': System, id: string, session: Session) {
    && s'.flow == s.flow == Idle && s'.disk == WithSession(s.disk, session)
    && ReadSession(s.disk, id).Some? && session.id == id
    && (session.completedAt.None? ==> ReadSession(s.disk, id).value.completedAt.None?)
  }

  lemma EditLimits(s: System, s': System, id: string, session: Session)
    requires Limited(s) && EditsOneSession(s, s', id, session)
    ensures Limited(s')
  {
    EditKeepsOpen(s.disk, id, session);
  }

  lemma BatchLimits(s: System, a: Action)
    requires Limited(s) && EnabledBatch(s, a)
    ensures Limited(ApplyBatch(s, a))
  {
    if a.ReserveSession? || a == FinalizeSession || a.RemoveSession? {
      OpeningLimits(s, a);
    } else if a.AcknowledgeSaved? {
      KeysDecideSize(ApplyBatch(s, a).disk.recoveries, s.disk.recoveries);
    } else {
      var session := EditedSession(s, a);
      EditLimits(s, ApplyBatch(s, a), a.id, session);
    }
  }

  lemma EditedSession(s: System, a: Action) returns (session: Session)
    requires EnabledBatch(s, a) && !a.ReserveSession? && a != FinalizeSession && !a.RemoveSession?
    requires !a.AcknowledgeSaved?
    ensures a.QueueCapture? || a.RecordSaved? || a.ReportReview? || a.ReconcileSession? || a.CompleteSession?
    ensures EditsOneSession(s, ApplyBatch(s, a), a.id, session)
  {
    session := ApplyBatch(s, a).disk.sessions[a.id].session;
  }

  lemma StepKeepsLimits(s: System, s': System)
    requires Safe(s) && Limited(s) && Step(s, s')
    ensures Limited(s')
  {
    var a :| Enabled(s, a) && s' == Apply(s, a);
    if EnabledRecovery(s, a) {
      RecoveryLimits(s, a);
    } else if EnabledRegistration(s, a) {
      RegistrationLimits(s, a);
    } else {
      BatchLimits(s, a);
    }
  }

  /** There are never too many record or session files, and never two open batch sessions; while one is being
      opened there is none. */
  lemma {:induction false} LimitsHold(run: seq<System>, n: nat)
    requires IsRun(run) && n < |run|
    ensures Limited(run[n])
  {
    if n > 0 {
      LimitsHold(run, n - 1);
      RunIsSafe(run, n - 1);
      assert StepAt(run, n - 1);
      StepKeepsLimits(run[n - 1], run[n]);
    }
  }
}
