/** The two write functions over one record's files, with every input/output failure they handle. */
module RecordWriter {
  import opened Prelude
  import opened RecordFiles

  datatype WriteError = TempFailed | WriteFailed | AlreadyExists | FinalizeFailed | NotFound

  class RecordDirectory {
    var final: Option<Bytes>
    var temps: map<nat, Bytes>
    ghost var works: map<Writer, Work>
    ghost var offered: set<Bytes>
    ghost var trace: seq<State>
    const reliable: bool   // no write ever fails

    ghost function Now(): State
      reads this
    {
      State(Files(final, temps), works, offered)
    }

    ghost predicate Valid()
      reads this
    {
      IsRun(trace) && trace[|trace| - 1] == Now()
    }

    constructor (reliable: bool)
      ensures Valid() && final == None && temps == map[] && this.reliable == reliable
    {
      this.reliable := reliable;
      final, temps, works, offered := None, map[], map[], {};
      trace := [State(Files(None, map[]), map[], {})];
    }

    /** Whether a write works out: any may fail, but in a reliable directory none does. */
    method Attempt() returns (ok: bool)
      ensures reliable ==> ok
    {
      ok := *;
      if reliable {
        ok := true;
      }
    }

    /** The step just taken is one the protocol allows, and is added to the history. */
    ghost method Took(before: State, a: Action)
      requires IsRun(trace) && trace[|trace| - 1] == before && StepBy(before, a, Now())
      modifies this`trace
      ensures Valid() && trace == old(trace) + [Now()]
    {
      assert Step(before, Now());
      trace := trace + [Now()];
      forall i | 0 <= i < |trace| - 1
        ensures StepAt(trace, i)
      {
        if i < |trace| - 2 {
          assert StepAt(old(trace), i);
        }
      }
    }

    /** Writes the record into its temporary file, in pieces of any size; fails anywhere. */
    method FillTemp(ghost w: Writer, temp: nat, record: Bytes) returns (ok: bool)
      requires Valid() && w in works && temp in temps && works[w].temp == temp && works[w].record == record
      requires record != []
      requires InStage(Now(), w, BeginWriting) || InStage(Now(), w, UpdateWriting)
      modifies this`temps, this`works, this`trace
      ensures Valid() && old(trace) <= trace && temps.Keys == old(temps).Keys
      ensures forall k :: k in temps && k != temp ==> temps[k] == old(temps)[k]
      ensures ok ==> temps[temp] == record
      ensures ok ==> works == old(works)[w := Work(if old(works)[w].stage == BeginWriting then BeginSynced
                                                   else UpdateSynced, temp, record)]
      ensures !ok ==> works == old(works) && !reliable
    {
      var written := 0;
      while written < |record|
        invariant 0 <= written <= |record|
        invariant Valid() && old(trace) <= trace && works == old(works) && final == old(final)
        invariant temps.Keys == old(temps).Keys && forall k :: k in temps && k != temp ==> temps[k] == old(temps)[k]
        invariant written == 0 || temps[temp] == record[..written]
      {
        var healthy := Attempt();
        if !healthy {
          return false;
        }
        ghost var before := Now();
        var more: nat :| written < more <= |record|;
        temps := temps[temp := record[..more]];
        Took(before, WriteMore(w, more));
        written := more;
      }
      assert record[..|record|] == record;
      var synced := Attempt();
      if !synced {
        return false;
      }
      ghost var before := Now();
      works := works[w := works[w].(stage := if works[w].stage == BeginWriting then BeginSynced else UpdateSynced)];
      Took(before, Sync(w));
      return true;
    }

    /** The temporary file, created under a name nobody has used. */
    method CreateTemp(ghost w: Writer, temp: nat, record: Bytes, ghost stage: Stage)
      requires Valid() && w !in works && temp !in temps && record != []
      requires stage == BeginWriting || (stage == UpdateWriting && Complete(final))
      modifies this`temps, this`works, this`offered, this`trace
      ensures Valid() && old(trace) <= trace
      ensures temps == old(temps)[temp := []] && works == old(works)[w := Work(stage, temp, record)]
    {
      ghost var before := Now();
      temps := temps[temp := []];
      works := works[w := Work(stage, temp, record)];
      offered := offered + {record};
      Took(before, if stage == BeginWriting then StartBegin(w, temp, record) else StartUpdate(w, temp, record));
    }

    /** Reserves the final name and renames over the reservation. */
    method Publish(ghost w: Writer, temp: nat, record: Bytes) returns (failure: Option<WriteError>)
      requires Valid() && w in works && works[w] == Work(BeginSynced, temp, record)
      requires temp in temps && temps[temp] == record
      modifies this`final, this`temps, this`works, this`trace
      ensures Valid() && old(trace) <= trace
      ensures works == old(works) - {w} && temps == old(temps) - {temp}
      ensures failure.None? ==> old(final) == None && final == Some(record)
      ensures failure.Some? ==> final == old(final)
      ensures failure == Some(AlreadyExists) <==> old(final).Some?
      ensures failure.None? || failure == Some(AlreadyExists) || (failure == Some(FinalizeFailed) && !reliable)
    {
      ghost var before := Now();
      if final.Some? {
        temps, works := temps - {temp}, works - {w};
        Took(before, Refuse(w));
        return Some(AlreadyExists);
      }
      final, works := Some([]), works[w := works[w].(stage := BeginReserved)];
      Took(before, Reserve(w));
      before := Now();
      var renamed := Attempt();
      if !renamed {
        final, temps, works := None, temps - {temp}, works - {w};
        Took(before, RenameFails(w));
        return Some(FinalizeFailed);
      }
      final, temps, works := Some(temps[temp]), temps - {temp}, works - {w};
      Took(before, Rename(w));
      return None;
    }

    /** A record under a new name. It becomes visible whole, or the name is as it was; a failure leaves
        no temporary file behind. */
    method WriteNew(ghost w: Writer, temp: nat, record: Bytes) returns (failure: Option<WriteError>)
      requires Valid() && w !in works && record != []
      modifies this
      ensures Valid() && old(trace) <= trace && works == old(works) && temps == old(temps)
      ensures failure.None? ==> old(final) == None && final == Some(record)
      ensures failure.Some? ==> final == old(final)
      ensures failure == Some(TempFailed) <==> temp in old(temps)
      ensures failure == Some(AlreadyExists) ==> temp !in old(temps) && old(final).Some?
      ensures failure.None? || failure == Some(TempFailed) || failure == Some(AlreadyExists)
              || ((failure == Some(WriteFailed) || failure == Some(FinalizeFailed)) && !reliable)
    {
      if temp in temps {
        return Some(TempFailed);
      }
      CreateTemp(w, temp, record, BeginWriting);
      var filled := FillTemp(w, temp, record);
      if !filled {
        ghost var before := Now();
        temps, works := temps - {temp}, works - {w};
        Took(before, GiveUp(w));
        failure := Some(WriteFailed);
      } else {
        failure := Publish(w, temp, record);
      }
      assert temps == old(temps);
      assert works == old(works);
    }

    /** A record in place of the file that is there. The file holds exactly the one or the other. The protocol
        has no such write over an empty file: every caller has read a whole record first. */
    method Replace(ghost w: Writer, temp: nat, record: Bytes) returns (failure: Option<WriteError>)
      requires Valid() && w !in works && record != []
      modifies this
      ensures old(final) != Some([]) ==> Valid() && old(trace) <= trace
      ensures works == old(works)
      ensures failure.None? ==> old(final).Some? && final == Some(record) && temps == old(temps)
      ensures failure.Some? ==> final == old(final)
      ensures failure.Some? ==> forall k :: k in old(temps) ==> k in temps && temps[k] == old(temps)[k]
      ensures old(final) == None <==> failure == Some(NotFound)
      ensures failure == Some(TempFailed) <==> old(final).Some? && temp in old(temps)
      ensures failure.None? || failure == Some(NotFound) || failure == Some(TempFailed)
              || ((failure == Some(WriteFailed) || failure == Some(FinalizeFailed)) && !reliable)
    {
      if final.None? {
        return Some(NotFound);
      }
      if temp in temps {
        return Some(TempFailed);
      }
      if final.value == [] {
        failure := Overwrite(temp, record);
        return;
      }
      CreateTemp(w, temp, record, UpdateWriting);
      var filled := FillTemp(w, temp, record);
      if !filled {
        ghost var before := Now();
        works := works - {w};
        Took(before, GiveUp(w));
        assert works == old(works);
        return Some(WriteFailed);
      }
      failure := Exchange(w, temp, record);
      assert works == old(works);
      assert failure.None? ==> temps == old(temps);
    }

    /** The same writes over an empty file. */
    method Overwrite(temp: nat, record: Bytes) returns (failure: Option<WriteError>)
      requires temp !in temps
      modifies this`final, this`temps
      ensures failure.None? ==> final == Some(record) && temps == old(temps)
      ensures failure.Some? ==> final == old(final) && temps.Keys == old(temps).Keys + {temp}
      ensures failure.Some? ==> forall k :: k in old(temps) ==> temps[k] == old(temps)[k]
      ensures failure.None? || ((failure == Some(WriteFailed) || failure == Some(FinalizeFailed)) && !reliable)
    {
      var healthy := Attempt();
      var written: nat :| written <= |record| && (healthy ==> written == |record|);
      temps := temps[temp := record[..written]];
      if written < |record| {
        return Some(WriteFailed);
      }
      var renamed := Attempt();
      if !renamed {
        return Some(FinalizeFailed);
      }
      final, temps := Some(record), temps - {temp};
      assert temps == old(temps);
      return None;
    }

    /** Renames a synchronized update over the record it replaces. */
    method Exchange(ghost w: Writer, temp: nat, record: Bytes) returns (failure: Option<WriteError>)
      requires Valid() && w in works && works[w] == Work(UpdateSynced, temp, record)
      requires temp in temps && temps[temp] == record
      modifies this`final, this`temps, this`works, this`trace
      ensures Valid() && old(trace) <= trace && works == old(works) - {w}
      ensures failure.None? ==> final == Some(record) && temps == old(temps) - {temp}
      ensures failure.Some? ==> final == old(final) && temps == old(temps)
      ensures failure.None? || (failure == Some(FinalizeFailed) && !reliable)
    {
      ghost var before := Now();
      var renamed := Attempt();
      if !renamed {
        works := works - {w};
        Took(before, RenameFails(w));
        return Some(FinalizeFailed);
      }
      final, temps, works := Some(temps[temp]), temps - {temp}, works - {w};
      Took(before, Rename(w));
      return None;
    }
  }
}
