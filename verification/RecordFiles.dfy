/**
 * How one recovery record file reaches the disk. Writers prepare a temporary file, then a begin
 * reserves the final name and renames over its reservation, and an update renames over the record it
 * replaces. Any number of writers of one token may be in flight, and a crash may come between any two
 * steps. A file's content is its bytes; the bytes written so far may be any prefix of the record.
 */
module RecordFiles {
  import opened Prelude

  type Writer = nat

  datatype Stage =
    | BeginWriting      // the temporary file exists, the record is being written into it
    | BeginSynced       // the temporary file holds the whole record
    | BeginReserved     // the final name is reserved with an empty file
    | UpdateWriting
    | UpdateSynced

  datatype Work = Work(stage: Stage, temp: nat, record: Bytes)

  datatype Files = Files(final: Option<Bytes>, temps: map<nat, Bytes>)

  /** `offered` remembers every record a writer was asked to write. */
  datatype State = State(files: Files, works: map<Writer, Work>, offered: set<Bytes>)

  datatype Action =
    | StartBegin(w: Writer, temp: nat, record: Bytes)
    | StartUpdate(w: Writer, temp: nat, record: Bytes)
    | WriteMore(w: Writer, length: nat)
    | Sync(w: Writer)
    | GiveUp(w: Writer)           // the write failed
    | Reserve(w: Writer)
    | Refuse(w: Writer)           // the final name is taken
    | Rename(w: Writer)
    | RenameFails(w: Writer)
    | Remove                      // acknowledge or discard
    | Crash

  predicate IsBegin(stage: Stage) {
    stage == BeginWriting || stage == BeginSynced || stage == BeginReserved
  }

  predicate Complete(final: Option<Bytes>) {
    final.Some? && final.value != []
  }

  predicate InStage(s: State, w: Writer, stage: Stage) {
    w in s.works && s.works[w].stage == stage
  }

  /** An update in flight, or a reservation not yet renamed over, which a removal must not meet. */
  predicate Busy(s: State, w: Writer) {
    w in s.works && (s.works[w].stage == BeginReserved || !IsBegin(s.works[w].stage))
  }

  ghost predicate Allowed(s: State, a: Action) {
    match a
    case StartBegin(w, temp, record) => w !in s.works && temp !in s.files.temps && record != []
    case StartUpdate(w, temp, record) =>
      w !in s.works && temp !in s.files.temps && record != [] && Complete(s.files.final)
    case WriteMore(w, length) =>
      && (InStage(s, w, BeginWriting) || InStage(s, w, UpdateWriting))
      && length <= |s.works[w].record|
    case Sync(w) =>
      && (InStage(s, w, BeginWriting) || InStage(s, w, UpdateWriting))
      && s.works[w].temp in s.files.temps && s.files.temps[s.works[w].temp] == s.works[w].record
    case GiveUp(w) => InStage(s, w, BeginWriting) || InStage(s, w, UpdateWriting)
    case Reserve(w) => InStage(s, w, BeginSynced) && s.files.final.None?
    case Refuse(w) => InStage(s, w, BeginSynced) && s.files.final.Some?
    case Rename(w) =>
      (InStage(s, w, BeginReserved) || InStage(s, w, UpdateSynced)) && s.works[w].temp in s.files.temps
    case RenameFails(w) => InStage(s, w, BeginReserved) || InStage(s, w, UpdateSynced)
    case Remove => Complete(s.files.final) && forall w :: !Busy(s, w)
    case Crash => true
  }

  function WithTemp(s: State, temp: nat, content: Bytes): State {
    s.(files := s.files.(temps := s.files.temps[temp := content]))
  }

  function Moved(s: State, w: Writer, stage: Stage): State
    requires w in s.works
  {
    s.(works := s.works[w := s.works[w].(stage := stage)])
  }

  function Ended(s: State, w: Writer, final: Option<Bytes>, keepTemp: bool): State
    requires w in s.works
  {
    s.(files := Files(final, if keepTemp then s.files.temps else s.files.temps - {s.works[w].temp}),
       works := s.works - {w})
  }

  ghost function Next(s: State, a: Action): State
    requires Allowed(s, a)
  {
    match a
    case StartBegin(w, temp, record) =>
      WithTemp(s, temp, []).(works := s.works[w := Work(BeginWriting, temp, record)], offered := s.offered + {record})
    case StartUpdate(w, temp, record) =>
      WithTemp(s, temp, []).(works := s.works[w := Work(UpdateWriting, temp, record)], offered := s.offered + {record})
    case WriteMore(w, length) => WithTemp(s, s.works[w].temp, s.works[w].record[..length])
    case Sync(w) => Moved(s, w, if s.works[w].stage == BeginWriting then BeginSynced else UpdateSynced)
    case GiveUp(w) => Ended(s, w, s.files.final, s.works[w].stage == UpdateWriting)
    case Reserve(w) => Moved(s, w, BeginReserved).(files := s.files.(final := Some([])))
    case Refuse(w) => Ended(s, w, s.files.final, false)
    case Rename(w) => Ended(s, w, Some(s.files.temps[s.works[w].temp]), false)
    case RenameFails(w) =>
      if s.works[w].stage == BeginReserved then Ended(s, w, None, false) else Ended(s, w, s.files.final, true)
    case Remove => s.(files := s.files.(final := None))
    case Crash => s.(works := map[])
  }

  ghost predicate StepBy(s: State, a: Action, s': State) {
    Allowed(s, a) && s' == Next(s, a)
  }

  ghost predicate Step(s: State, s': State) {
    exists a :: StepBy(s, a, s')
  }

  ghost predicate StepAt(run: seq<State>, i: nat)
    requires i + 1 < |run|
  {
    Step(run[i], run[i + 1])
  }

  ghost predicate IsRun(run: seq<State>) {
    && run != [] && run[0] == State(Files(None, map[]), map[], {})
    && forall i :: 0 <= i < |run| - 1 ==> StepAt(run, i)
  }

  // ---- what every reachable state keeps ----------------------------------------------------------

  ghost predicate WorkSound(s: State, w: Writer) {
    w in s.works ==>
      var work := s.works[w];
      && work.record in s.offered && work.record != [] && work.temp in s.files.temps
      && (work.stage != BeginWriting && work.stage != UpdateWriting ==> s.files.temps[work.temp] == work.record)
      && (work.stage == BeginReserved ==> s.files.final == Some([]))
      && (!IsBegin(work.stage) ==> Complete(s.files.final))
  }

  ghost predicate SameTemp(s: State, v: Writer, w: Writer) {
    v in s.works && w in s.works && s.works[v].temp == s.works[w].temp
  }

  ghost predicate Safe(s: State) {
    && (Complete(s.files.final) ==> s.files.final.value in s.offered)
    && (forall w :: WorkSound(s, w))
    && (forall v, w :: SameTemp(s, v, w) ==> v == w)
    && (forall v, w :: InStage(s, v, BeginReserved) && InStage(s, w, BeginReserved) ==> v == w)
  }

  /** Works keep sound when their own files stay, and the final name stays fit for them. */
  lemma OthersStaySound(s: State, s': State, w: Writer)
    requires Safe(s) && s.offered <= s'.offered
    requires forall v :: v in s'.works && v != w ==> v in s.works && s'.works[v] == s.works[v]
    requires forall v :: v in s'.works && v != w ==>
               && s.works[v].temp in s.files.temps && s.works[v].temp in s'.files.temps
               && s'.files.temps[s.works[v].temp] == s.files.temps[s.works[v].temp]
               && (s.works[v].stage == BeginReserved ==> s'.files.final == Some([]))
               && (!IsBegin(s.works[v].stage) ==> Complete(s'.files.final))
    ensures forall v :: v != w ==> WorkSound(s', v)
  {
    forall v | v != w
      ensures WorkSound(s', v)
    {
      assert WorkSound(s, v);
    }
  }

  lemma StartStep(s: State, a: Action)
    requires Safe(s) && Allowed(s, a) && (a.StartBegin? || a.StartUpdate?)
    ensures Safe(Next(s, a))
  {
    var s' := Next(s, a);
    forall v | v in s.works
      ensures s.works[v].temp in s.files.temps && s.works[v].temp != a.temp
    {
      assert WorkSound(s, v);
    }
    forall v, u | SameTemp(s', v, u)
      ensures v == u
    {
      if v != a.w && u != a.w {
        assert SameTemp(s, v, u);
      }
    }
    forall v, u | InStage(s', v, BeginReserved) && InStage(s', u, BeginReserved)
      ensures v == u
    {
      assert InStage(s, v, BeginReserved) && InStage(s, u, BeginReserved);
    }
    forall v | v != a.w && v in s'.works
      ensures WorkSound(s, v)
    {}
    OthersStaySound(s, s', a.w);
    assert WorkSound(s', a.w);
  }

  lemma WriteStep(s: State, a: Action)
    requires Safe(s) && Allowed(s, a) && (a.WriteMore? || a.Sync?)
    ensures Safe(Next(s, a))
  {
    var s' := Next(s, a);
    assert WorkSound(s, a.w);
    forall v | v in s.works && v != a.w
      ensures WorkSound(s, v) && s.works[v].temp != s.works[a.w].temp
    {
      assert !SameTemp(s, v, a.w);
    }
    OthersStaySound(s, s', a.w);
    assert WorkSound(s', a.w);
    forall v, u | SameTemp(s', v, u)
      ensures v == u
    {
      assert SameTemp(s, v, u);
    }
    forall v, u | InStage(s', v, BeginReserved) && InStage(s', u, BeginReserved)
      ensures v == u
    {
      assert InStage(s, v, BeginReserved) && InStage(s, u, BeginReserved);
    }
  }

  lemma ReserveStep(s: State, w: Writer)
    requires Safe(s) && Allowed(s, Reserve(w))
    ensures Safe(Next(s, Reserve(w)))
  {
    var s' := Next(s, Reserve(w));
    forall v | v in s.works
      ensures WorkSound(s, v) && s.works[v].stage != BeginReserved && IsBegin(s.works[v].stage)
    {
      assert WorkSound(s, v);
    }
    OthersStaySound(s, s', w);
    assert WorkSound(s', w);
    forall v, u | SameTemp(s', v, u)
      ensures v == u
    {
      assert SameTemp(s, v, u);
    }
  }

  /** A writer that leaves: its temporary file may go, and the final name is fit for the others. */
  lemma EndStep(s: State, w: Writer, final: Option<Bytes>, keepTemp: bool)
    requires Safe(s) && w in s.works
    requires Complete(final) ==> final.value in s.offered
    requires forall v :: v in s.works && v != w && s.works[v].stage == BeginReserved ==> final == Some([])
    requires forall v :: v in s.works && v != w && !IsBegin(s.works[v].stage) ==> Complete(final)
    ensures Safe(Ended(s, w, final, keepTemp))
  {
    var s' := Ended(s, w, final, keepTemp);
    forall v | v in s'.works
      ensures WorkSound(s, v) && s.works[v].temp in s'.files.temps
    {
      assert WorkSound(s, v);
      assert !SameTemp(s, v, w);
    }
    OthersStaySound(s, s', w);
    forall v, u | SameTemp(s', v, u)
      ensures v == u
    {
      assert SameTemp(s, v, u);
    }
    forall v, u | InStage(s', v, BeginReserved) && InStage(s', u, BeginReserved)
      ensures v == u
    {
      assert InStage(s, v, BeginReserved) && InStage(s, u, BeginReserved);
    }
  }

  /** While a begin holds its reservation, no other writer holds one and none is updating. */
  lemma ReservedIsAlone(s: State, w: Writer, v: Writer)
    requires Safe(s) && InStage(s, w, BeginReserved) && v in s.works && v != w
    ensures s.works[v].stage != BeginReserved && IsBegin(s.works[v].stage)
  {
    assert WorkSound(s, w) && WorkSound(s, v);
    assert InStage(s, v, BeginReserved) ==> v == w;
  }

  lemma RenameStep(s: State, w: Writer)
    requires Safe(s) && Allowed(s, Rename(w))
    ensures Safe(Next(s, Rename(w)))
  {
    assert WorkSound(s, w);
    forall v | v in s.works && v != w
      ensures s.works[v].stage != BeginReserved
    {
      assert WorkSound(s, v);
      if InStage(s, w, BeginReserved) {
        ReservedIsAlone(s, w, v);
      }
    }
    EndStep(s, w, Some(s.files.temps[s.works[w].temp]), false);
  }

  lemma FailureStep(s: State, a: Action)
    requires Safe(s) && Allowed(s, a) && (a.GiveUp? || a.Refuse? || a.RenameFails?)
    ensures Safe(Next(s, a))
  {
    forall v | v in s.works
      ensures WorkSound(s, v)
    {}
    if a.RenameFails? && s.works[a.w].stage == BeginReserved {
      forall v | v in s.works && v != a.w
        ensures s.works[v].stage != BeginReserved && IsBegin(s.works[v].stage)
      {
        ReservedIsAlone(s, a.w, v);
      }
      EndStep(s, a.w, None, false);
    } else {
      EndStep(s, a.w, s.files.final, (a.GiveUp? && s.works[a.w].stage == UpdateWriting) || a.RenameFails?);
    }
  }

  lemma RemoveStep(s: State)
    requires Safe(s) && Allowed(s, Remove)
    ensures Safe(Next(s, Remove))
  {
    var s' := Next(s, Remove);
    forall v
      ensures WorkSound(s', v)
    {
      assert WorkSound(s, v) && !Busy(s, v);
    }
    forall v, u | SameTemp(s', v, u)
      ensures v == u
    {
      assert SameTemp(s, v, u);
    }
    forall v, u | InStage(s', v, BeginReserved) && InStage(s', u, BeginReserved)
      ensures v == u
    {
      assert InStage(s, v, BeginReserved) && InStage(s, u, BeginReserved);
    }
  }

  lemma StepKeepsSafe(s: State, s': State)
    requires Safe(s) && Step(s, s')
    ensures Safe(s')
  {
    var a :| StepBy(s, a, s');
    match a
    case StartBegin(w, temp, record) => StartStep(s, a);
    case StartUpdate(w, temp, record) => StartStep(s, a);
    case WriteMore(w, length) => WriteStep(s, a);
    case Sync(w) => WriteStep(s, a);
    case GiveUp(w) => FailureStep(s, a);
    case Reserve(w) => ReserveStep(s, w);
    case Refuse(w) => FailureStep(s, a);
    case Rename(w) => RenameStep(s, w);
    case RenameFails(w) => FailureStep(s, a);
    case Remove => RemoveStep(s);
    case Crash =>
  }

  lemma {:induction false} RunIsSafe(run: seq<State>, n: nat)
    requires IsRun(run) && n < |run|
    ensures Safe(run[n])
  {
    if n > 0 {
      RunIsSafe(run, n - 1);
      assert StepAt(run, n - 1);
      StepKeepsSafe(run[n - 1], run[n]);
    }
  }

  // ---- the theorems ------------------------------------------------------------------------------

  /** The record file is absent, empty, or one whole record that some writer was asked to write: never
      a part of one, and never two mixed. */
  lemma NeverPartial(run: seq<State>, n: nat)
    requires IsRun(run) && n < |run|
    ensures var final := run[n].files.final;
            final == None || final == Some([]) || final.value in run[n].offered
  {
    RunIsSafe(run, n);
  }

  /** A begin only ever renames over its own empty reservation: it never overwrites a record, and when
      its rename fails it deletes no record either. */
  lemma BeginNeverClobbers(run: seq<State>, n: nat, w: Writer, a: Action)
    requires IsRun(run) && n < |run| && w in run[n].works && IsBegin(run[n].works[w].stage)
    requires (a == Rename(w) || a == RenameFails(w)) && Allowed(run[n], a)
    ensures run[n].files.final == Some([])
    ensures Next(run[n], a).files.final == if a == Rename(w) then Some(run[n].works[w].record) else None
  {
    RunIsSafe(run, n);
    assert WorkSound(run[n], w);
  }

  /** A record file changes only in these ways. In particular a whole record is replaced at once by the
      whole record of an update, or removed; nothing else ever changes it. */
  ghost predicate FinalStep(s: State, s': State) {
    || s'.files.final == s.files.final
    || (s.files.final == None && s'.files.final == Some([]))
    || (s.files.final == Some([]) && s'.files.final == None)
    || (s.files.final == Some([])
        && exists w :: InStage(s, w, BeginReserved) && s'.files.final == Some(s.works[w].record))
    || (Complete(s.files.final)
        && exists w :: InStage(s, w, UpdateSynced) && s'.files.final == Some(s.works[w].record))
    || (Complete(s.files.final) && s'.files.final == None)
  }

  lemma FinalChangesWhole(run: seq<State>, n: nat)
    requires IsRun(run) && n + 1 < |run|
    ensures FinalStep(run[n], run[n + 1])
  {
    RunIsSafe(run, n);
    assert StepAt(run, n);
    FinalChangesInStep(run[n], run[n + 1]);
  }

  lemma FinalChangesInStep(s: State, s': State)
    requires Safe(s) && Step(s, s')
    ensures FinalStep(s, s')
  {
    var a :| StepBy(s, a, s');
    if a.Rename? || a.RenameFails? {
      assert WorkSound(s, a.w);
    }
  }

  /** The final name is taken by an empty file that no writer will rename over. */
  ghost predicate Lost(s: State) {
    s.files.final == Some([]) && forall w :: !InStage(s, w, BeginReserved)
  }

  /** The name gets lost in exactly one way: a crash while a begin holds its reservation. */
  lemma LostExactlyByCrash(run: seq<State>, n: nat, a: Action)
    requires IsRun(run) && n < |run| && Allowed(run[n], a) && !Lost(run[n])
    ensures Lost(Next(run[n], a)) <==> a == Crash && exists w :: InStage(run[n], w, BeginReserved)
  {
    RunIsSafe(run, n);
    var s, s' := run[n], Next(run[n], a);
    if a == Crash {
      if w :| InStage(s, w, BeginReserved) {
        assert WorkSound(s, w);
      }
    } else if Lost(s') {
      NotLostOtherwise(s, a);
    }
  }

  lemma NotLostOtherwise(s: State, a: Action)
    requires Safe(s) && Allowed(s, a) && a != Crash && !Lost(s)
    ensures !Lost(Next(s, a))
  {
    var s' := Next(s, a);
    if a.Reserve? {
      assert InStage(s', a.w, BeginReserved);
    } else if a.Rename? || a.RenameFails? {
      RenamedIsNotLost(s, a);
    } else if s'.files.final == Some([]) {
      var w :| InStage(s, w, BeginReserved);
      assert InStage(s', w, BeginReserved);
    }
  }

  lemma RenamedIsNotLost(s: State, a: Action)
    requires Safe(s) && Allowed(s, a) && (a.Rename? || a.RenameFails?)
    ensures !Lost(Next(s, a))
  {
    assert WorkSound(s, a.w);
  }

  /** A crash between the reservation and the rename leaves an empty file, and the name is lost for
      good: no later begin gets it, and nothing removes it. */
  lemma {:induction false} LostReservationStays(run: seq<State>, m: nat, n: nat)
    requires IsRun(run) && m <= n < |run|
    requires Lost(run[m])
    ensures Lost(run[n])
    decreases n - m
  {
    if m < n {
      LostReservationStays(run, m, n - 1);
      RunIsSafe(run, n - 1);
      assert StepAt(run, n - 1);
      LostReservationStep(run[n - 1], run[n]);
    }
  }

  lemma LostReservationStep(s: State, s': State)
    requires Safe(s) && Step(s, s')
    requires Lost(s)
    ensures Lost(s')
  {
    var a :| StepBy(s, a, s');
    if a.Rename? || a.RenameFails? {
      assert WorkSound(s, a.w);
    }
    forall w
      ensures !InStage(s', w, BeginReserved)
    {
      assert !InStage(s, w, BeginReserved);
    }
  }

  // ---- a run that loses the name -------------------------------------------------------------------

  ghost predicate EndsAt(run: seq<State>, s: State) {
    IsRun(run) && run[|run| - 1] == s
  }

  lemma Extended(run: seq<State>, s: State, a: Action) returns (longer: seq<State>, s': State)
    requires EndsAt(run, s) && Allowed(s, a)
    ensures EndsAt(longer, s') && s' == Next(s, a)
  {
    s' := Next(s, a);
    longer := run + [s'];
    forall i | 0 <= i < |longer| - 1
      ensures StepAt(longer, i)
    {
      if i < |run| - 1 {
        assert StepAt(run, i);
      } else {
        assert StepBy(s, a, s');
      }
    }
  }

  /** Whenever the name is free, a begin can lose it: its record is written and synchronized, the name is
      reserved, and the crash comes before the rename. */
  lemma EveryBeginCanLoseTheName(run: seq<State>, s: State, w: Writer, temp: nat, record: Bytes)
    returns (longer: seq<State>, s': State)
    requires EndsAt(run, s) && s.files.final == None && Allowed(s, StartBegin(w, temp, record))
    ensures EndsAt(longer, s') && Lost(s') && record in s'.offered
  {
    longer, s' := Extended(run, s, StartBegin(w, temp, record));
    longer, s' := Extended(longer, s', WriteMore(w, |record|));
    assert record[..|record|] == record;
    longer, s' := Extended(longer, s', Sync(w));
    longer, s' := Extended(longer, s', Reserve(w));
    longer, s' := Extended(longer, s', Crash);
  }

  /** So it happens to the very first record. */
  lemma SomeRunLosesTheName(record: Bytes) returns (run: seq<State>, s: State)
    requires record != []
    ensures EndsAt(run, s) && Lost(s)
  {
    s := State(Files(None, map[]), map[], {});
    assert EndsAt([s], s);
    run, s := EveryBeginCanLoseTheName([s], s, 0, 0, record);
  }
}
