/**
 * Names left reserved. A record or session file is created empty and then replaced by the complete one; a
 * crash in between, or for a session any failed rename, leaves the empty file. It cannot be read, nothing
 * removes it, and while it is there nothing that lists the files works. With the stranded records this is
 * all that can go wrong: the last lemma says exactly when the records can be listed.
 */
module RegistrationOrphans {
  import opened Prelude
  import opened IdCodec
  import opened ScanRecords
  import opened BatchSession
  import opened Registration
  import opened RegistrationSafety
  import opened RegistrationSteps
  import opened RegistrationReadable
  import opened RegistrationLimits
  import opened RegistrationWitness

  // ---- recovery records --------------------------------------------------------------------------

  /** An empty record file no begin in progress owns. */
  ghost predicate Orphaned(s: System, t: Token) {
    && t in s.disk.recoveries && s.disk.recoveries[t].Reserved?
    && (s.flow.Beginning? ==> s.flow.record.token != t)
  }

  /** A reservation is an orphan unless a begin in progress owns it. */
  lemma CrashOrphans(s: System, r: Record)
    requires EnabledRecovery(s, ReserveRecord(r))
    ensures var s' := ApplyRecovery(s, ReserveRecord(r));
            EnabledRecovery(s', Halt) && Orphaned(ApplyRecovery(s', Halt), r.token)
  {}

  /** Nothing can be listed, so nothing can be begun and no batch session reconciled. */
  lemma OrphanBlocks(s: System, t: Token)
    requires Orphaned(s, t)
    ensures ReadRecord(s.disk, t).None? && !Listable(s.disk)
    ensures forall r :: !Enabled(s, ReserveRecord(r))
    ensures forall id :: !Enabled(s, ReconcileSession(id))
  {}

  lemma OrphanByRecovery(s: System, a: Action, t: Token)
    requires Safe(s) && Orphaned(s, t) && EnabledRecovery(s, a)
    ensures Orphaned(ApplyRecovery(s, a), t)
  {
    assert ReadRecord(s.disk, t).None?;
    if a == DiscardRecord {
      assert s.disk.recoveries[s.flow.token].Stored?;
    }
  }

  lemma OrphanByRegistration(s: System, a: Action, t: Token)
    requires Safe(s) && Orphaned(s, t) && EnabledRegistration(s, a)
    ensures Orphaned(ApplyRegistration(s, a), t)
  {
    assert ReadRecord(s.disk, t).None?;
  }

  lemma OrphanByBatch(s: System, a: Action, t: Token)
    requires Orphaned(s, t) && EnabledBatch(s, a)
    ensures Orphaned(ApplyBatch(s, a), t)
  {
    assert ReadRecord(s.disk, t).None?;
  }

  lemma OrphanStep(s: System, s': System, t: Token)
    requires Safe(s) && Orphaned(s, t) && Step(s, s')
    ensures Orphaned(s', t)
  {
    var a :| Enabled(s, a) && s' == Apply(s, a);
    if EnabledRecovery(s, a) {
      OrphanByRecovery(s, a, t);
    } else if EnabledRegistration(s, a) {
      OrphanByRegistration(s, a, t);
    } else {
      OrphanByBatch(s, a, t);
    }
  }

  /** Whatever the library does, the orphan stays: from then on no capture can be begun. */
  lemma {:induction false} OrphanStays(run: seq<System>, m: nat, n: nat, t: Token)
    requires IsRun(run) && m <= n < |run| && Orphaned(run[m], t)
    ensures Orphaned(run[n], t) && !Listable(run[n].disk)
    ensures forall r :: !Enabled(run[n], ReserveRecord(r))
    decreases n - m
  {
    if m < n {
      OrphanStays(run, m, n - 1, t);
      RunIsSafe(run, n - 1);
      assert StepAt(run, n - 1);
      OrphanStep(run[n - 1], run[n], t);
    }
    OrphanBlocks(run[n], t);
  }

  lemma SomeRunOrphans() returns (s: System)
    ensures Reachable(s) && Orphaned(s, "scan-1")
  {
    s := CaptureReserved();
    s := ReachRecovery(s, Halt);
  }

  // ---- session files -------------------------------------------------------------------------------

  /** A session file that cannot be read, empty or completed before its start, and that no begin in progress
      owns. */
  ghost predicate SessionLost(s: System, id: string) {
    && id in s.disk.sessions && ReadSession(s.disk, id).None?
    && (s.flow.OpeningSession? ==> s.flow.session.id != id)
  }

  lemma CrashLosesSession(s: System, session: Session)
    requires EnabledBatch(s, ReserveSession(session))
    ensures var s' := ApplyBatch(s, ReserveSession(session));
            EnabledRecovery(s', Halt) && SessionLost(ApplyRecovery(s', Halt), session.id)
  {}

  lemma BackwardClockLosesSession(s: System, id: string, now: int)
    requires Safe(s) && EnabledBatch(s, CompleteSession(id, now))
    ensures SessionLost(ApplyBatch(s, CompleteSession(id, now)), id) <==> now < ReadSession(s.disk, id).value.startedAt
  {
    CompletedSessionReadable(s, id, now);
  }

  /** The sessions cannot be listed, so no batch session can be begun. */
  lemma LostSessionBlocks(s: System, id: string)
    requires SessionLost(s, id)
    ensures !SessionsListable(s.disk)
    ensures forall session :: !Enabled(s, ReserveSession(session))
  {}

  lemma LostSessionStep(s: System, s': System, id: string)
    requires SessionLost(s, id) && Step(s, s')
    ensures SessionLost(s', id)
  {
    var a :| Enabled(s, a) && s' == Apply(s, a);
    if EnabledRecovery(s, a) {
      assert ApplyRecovery(s, a).disk.sessions == s.disk.sessions;
    } else if EnabledRegistration(s, a) {
      assert ApplyRegistration(s, a).disk.sessions == s.disk.sessions;
    } else {
      LostSessionByBatch(s, a, id);
    }
  }

  lemma LostSessionByBatch(s: System, a: Action, id: string)
    requires SessionLost(s, id) && EnabledBatch(s, a)
    ensures SessionLost(ApplyBatch(s, a), id)
  {
    if a == FinalizeSession {
      assert WithSession(s.disk, s.flow.session).sessions[id] == s.disk.sessions[id];
    }
  }

  /** Whatever the library does, the file stays: from then on no batch session can be begun. */
  lemma {:induction false} LostSessionStays(run: seq<System>, m: nat, n: nat, id: string)
    requires IsRun(run) && m <= n < |run| && SessionLost(run[m], id)
    ensures SessionLost(run[n], id) && !SessionsListable(run[n].disk)
    ensures forall session :: !Enabled(run[n], ReserveSession(session))
    decreases n - m
  {
    if m < n {
      LostSessionStays(run, m, n - 1, id);
      assert StepAt(run, n - 1);
      LostSessionStep(run[n - 1], run[n], id);
    }
    LostSessionBlocks(run[n], id);
  }

  // ---- exactly when the records can be listed ------------------------------------------------------

  /** A discard of the record was cut short: its file is gone and the record still needs it. */
  ghost predicate CutShort(s: System, t: Token) {
    && t in s.disk.recoveries && s.disk.recoveries[t].Stored?
    && s.disk.recoveries[t].record.phase != Committed
    && DiscardStarted(s.dropped, t, s.disk.recoveries[t].record.stagingPath)
    && s.disk.recoveries[t].record.stagingPath !in s.disk.staging
  }

  /** The platform deleted the file of a record that needs it, and no photo has come since. */
  ghost predicate Released(s: System, t: Token) {
    && t in s.disk.recoveries && s.disk.recoveries[t].Stored?
    && s.disk.recoveries[t].record.phase != Committed
    && PlatformDeleted(s.released, s.disk.recoveries[t].record.stagingPath)
    && s.disk.recoveries[t].record.stagingPath !in s.disk.staging
  }

  /** Nothing stands in the way of reading the record. */
  ghost predicate Unharmed(s: System, t: Token) {
    !Orphaned(s, t) && !CutShort(s, t) && !Released(s, t)
  }

  /** Between operations of a careful run the records can be listed exactly when no name is left reserved, no
      discard was cut short, and no file the platform deleted still waits for its photo. */
  lemma ListableExactly(run: seq<System>, n: nat)
    requires CarefulRun(run) && n < |run| && run[n].flow == Idle
    ensures Listable(run[n].disk) <==>
            forall t :: t in run[n].disk.recoveries ==> Unharmed(run[n], t)
  {
    RunIsSafe(run, n);
    LimitsHold(run, n);
    CarefulRunIsMet(run, n);
    var s := run[n];
    if forall t :: t in s.disk.recoveries ==> Unharmed(s, t) {
      forall t | t in s.disk.recoveries
        ensures ReadRecord(s.disk, t).Some?
      {
        assert Unharmed(s, t);
        ReadUnlessHarmed(s, t);
      }
    } else {
      var t :| t in s.disk.recoveries && !Unharmed(s, t);
      assert ReadRecord(s.disk, t).None?;
    }
  }

  lemma ReadUnlessHarmed(s: System, t: Token)
    requires Safe(s) && Met(s) && t in s.disk.recoveries && s.disk.recoveries[t].Stored? && Unharmed(s, t)
    ensures ReadRecord(s.disk, t).Some?
  {
    var r := s.disk.recoveries[t].record;
    if r.phase != Committed {
      assert Claims(s.disk.recoveries, t, r.stagingPath);
    }
  }
}
