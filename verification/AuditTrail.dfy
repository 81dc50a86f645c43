/** What the audit table says about everything that ever ran. */
module AuditTrail {
  import opened Wrappers
  import opened Policy
  import opened Upstream
  import opened Rooms
  import opened Reconcile
  import opened Decisions
  import opened ReconcileResults
  import opened Lifecycle
  import opened OffboardResults
  import opened Delete
  import opened Bulk
  import opened BulkSoundness
  import opened AuditQuery

  /** The workflows an admin can start. */
  datatype Job =
    | ReconcileJob(member: Member, bindings: seq<PolicyBinding>)
    | OffboardJob(id: string, synapse: bool, bindings: seq<PolicyBinding>, domain: string)
    | DeleteJob(id: string, domain: string)
    | BulkJob(synapse: bool, bindings: seq<PolicyBinding>, domain: string, directory: seq<DirectoryUser>)

  function RunJob(s: Script, w: World, job: Job): World {
    match job
    case ReconcileJob(m, bs) => ReconcileAll(s, w, m, bs).w
    case OffboardJob(id, synapse, bs, domain) => Offboard(s, w, id, synapse, bs, domain).w
    case DeleteJob(id, domain) => DeleteAccount(s, w, id, domain).w
    case BulkJob(synapse, bs, domain, dir) => BulkReconcileAll(s, w, synapse, bs, domain, dir).World()
  }

  function RunJobs(s: Script, w: World, jobs: seq<Job>): World
    decreases |jobs|
  {
    if jobs == [] then w else RunJobs(s, RunJob(s, w, jobs[0]), jobs[1..])
  }

  lemma {:induction false} JobsKeepSync(s: Script, w: World, jobs: seq<Job>)
    requires InSync(w)
    ensures InSync(RunJobs(s, w, jobs))
    decreases |jobs|
  {
    if jobs == [] {
    } else {
      match jobs[0] {
        case ReconcileJob(m, bs) => ReconcileIsHonest(s, w, m, bs);
        case OffboardJob(id, synapse, bs, domain) => OffboardIsSound(s, w, id, synapse, bs, domain);
        case DeleteJob(id, domain) => DeleteIsSound(s, w, id, domain);
        case BulkJob(synapse, bs, domain, dir) => BulkIsSound(s, w, synapse, bs, domain, dir);
      }
      JobsKeepSync(s, RunJob(s, w, jobs[0]), jobs[1..]);
    }
  }

  function Claimed(log: seq<AuditEntry>): seq<Event> {
    seq(|log|, i requires 0 <= i < |log| => Claim(log[i]))
  }

  /**
   After any sequence of workflows, whatever failed: if no audit write was lost, the table read in
   order is exactly the sequence of attempted mutations of the audited kinds, with their true results.
   Power levels are not among those kinds; `TableIsTheChangesIff` says what that costs.
   */
  lemma TableIsTheMutations(s: Script, w: World, jobs: seq<Job>)
    requires w.trace == [] && w.log == []
    requires AuditFailures(RunJobs(s, w, jobs).trace) == 0
    ensures Claimed(RunJobs(s, w, jobs).log) == Mutations(RunJobs(s, w, jobs).trace)
  {
    JobsKeepSync(s, w, jobs);
    LogIsTheMutations(RunJobs(s, w, jobs).trace);
  }

  // ----- Every entry can be found -----

  lemma {:induction false} WrittenClaims(t: seq<Event>, e: AuditEntry)
    requires e in Written(t)
    ensures Claim(e) in Claims(t)
  {
    if t == [] {
    } else {
      var init, last := t[..|t| - 1], t[|t| - 1];
      if last.call.WriteAudit? && last.ok && last.call.entry == e {
        assert Claims(t) == Claims(init) + [Claim(e)];
      } else {
        WrittenClaims(init, e);
      }
    }
  }

  lemma {:induction false} MutationsAreAudited(t: seq<Event>, e: Event)
    requires e in Mutations(t)
    ensures Audited(e.call)
  {
    if t == [] {
    } else {
      var init, last := t[..|t| - 1], t[|t| - 1];
      if !(Audited(last.call) && last == e) {
        MutationsAreAudited(init, e);
      }
    }
  }

  lemma TrueEntriesHaveListedActions(e: AuditEntry)
    requires Audited(ClaimedCall(e))
    ensures e.action in ACTION_OPTIONS
  {
  }

  /** Whatever failed: the action of every entry in the table is one that the audit page can filter by. */
  lemma EveryActionCanBeFiltered(s: Script, w: World, jobs: seq<Job>, e: AuditEntry)
    requires w.trace == [] && w.log == [] && e in RunJobs(s, w, jobs).log
    ensures e.action in ACTION_OPTIONS
  {
    JobsKeepSync(s, w, jobs);
    EntriesAreTrue(RunJobs(s, w, jobs), e);
    TrueEntriesHaveListedActions(e);
  }

  lemma EntriesAreTrue(w: World, e: AuditEntry)
    requires InSync(w) && e in w.log
    ensures Audited(ClaimedCall(e)) && Claim(e) in Mutations(w.trace)
  {
    WrittenClaims(w.trace, e);
    MutationsAreAudited(w.trace, Claim(e));
  }

  // ----- Power levels are not reported -----

  lemma {:induction false} ChangesAndMutations(t: seq<Event>)
    ensures |Changes(t)| == |Mutations(t)| + LevelCalls(t)
    ensures LevelCalls(t) == 0 ==> Changes(t) == Mutations(t)
    ensures LevelCalls(t) == 0 <==> forall e | e in t :: !e.call.SetPowerLevel?
  {
    if t == [] {
    } else {
      var init, e := t[..|t| - 1], t[|t| - 1];
      ChangesAndMutations(init);
      assert t == init + [e];
    }
  }

  /** The table holds every change that was attempted exactly if no power level was. */
  lemma TableIsTheChangesIff(s: Script, w: World, jobs: seq<Job>)
    requires w.trace == [] && w.log == []
    requires AuditFailures(RunJobs(s, w, jobs).trace) == 0
    ensures var w' := RunJobs(s, w, jobs);
            Claimed(w'.log) == Changes(w'.trace) <==> forall e | e in w'.trace :: !e.call.SetPowerLevel?
  {
    TableIsTheMutations(s, w, jobs);
    ChangesAndMutations(RunJobs(s, w, jobs).trace);
  }

  /** Of a stretch without failures: no level was attempted exactly if none was set for any user in any room. */
  lemma {:induction false} LevelsShow(t: seq<Event>, t': seq<Event>)
    requires t <= t' && Failures(t') == Failures(t)
    ensures LevelCalls(t) <= LevelCalls(t')
    ensures forall user, room :: LevelsSet(t, user, room) <= LevelsSet(t', user, room)
    ensures LevelCalls(t') == LevelCalls(t)
       <==> forall user, room :: LevelsSet(t', user, room) == LevelsSet(t, user, room)
    decreases |t'|
  {
    if |t| == |t'| {
      assert t == t';
    } else {
      var init, e := t'[..|t'| - 1], t'[|t'| - 1];
      FailuresGrow(t, init);
      LevelsShow(t, init);
      if e.call.SetPowerLevel? {
        assert LevelsSet(t', e.call.user, e.call.room) == LevelsSet(init, e.call.user, e.call.room) + 1;
      } else {
        assert forall user, room :: LevelsSet(t', user, room) == LevelsSet(init, user, room);
      }
    }
  }

  /** Where the bindings join the user with a power level, in no room. */
  ghost predicate SetsNoLevel(w: World, m: Member, bs: seq<PolicyBinding>) {
    forall room :: LastLevel(w.mx.spaces, m, bs, room, (room, m.matrixId) in w.mx.members).None?
  }

  /**
   A failure-free reconcile run reports all its changes exactly if its bindings, read in list order,
   join the user to no room with a power level.
   */
  lemma ReconcileReportsAllIff(w: World, m: Member, bs: seq<PolicyBinding>)
    requires InSync(w) && Changes(w.trace) == Claims(w.trace)
    ensures var t := After(UP, w, m, bs).trace; Changes(t) == Claims(t) <==> SetsNoLevel(w, m, bs)
  {
    var w' := After(UP, w, m, bs);
    ReconcileIsHonest(UP, w, m, bs);
    NoWarningsMeansNothingFailed(UP, w, m, bs);
    ChangesAndMutations(w.trace);
    ChangesAndMutations(w'.trace);
    LevelsShow(w.trace, w'.trace);
    forall user, room
      ensures LevelsSet(w'.trace, user, room) == LevelsSet(w.trace, user, room)
         <==> user != m.matrixId || LastLevel(w.mx.spaces, m, bs, room, (room, m.matrixId) in w.mx.members).None?
    {
      assert LevelsSet(w'.trace, user, room) == View(w', user, room).levels;
      assert LevelsSet(w.trace, user, room) == View(w, user, room).levels;
      if user == m.matrixId { RunGivesLastLevel(w, m, bs, room); } else { OthersAreUntouched(UP, w, m, bs, user, room); }
    }
    if LevelCalls(w'.trace) == LevelCalls(w.trace) {
      forall room ensures LastLevel(w.mx.spaces, m, bs, room, (room, m.matrixId) in w.mx.members).None? {
        assert LevelsSet(w'.trace, m.matrixId, room) == LevelsSet(w.trace, m.matrixId, room);
      }
    }
  }

  /** It does happen: one binding with a power level, one user to join, and the level is not reported. */
  lemma LevelIsNotReported(w: World)
    requires w.trace == [] && w.log == [] && w.mx == Matrix({}, map[], map[])
    ensures var b := PolicyBinding("1", Group("staff"), Room("!r"), Some(50), false, "", "");
            var w' := After(UP, w, Member("k", "@u:d", ["staff"], []), [b]);
            Changes(w'.trace) != Claims(w'.trace) && Mutations(w'.trace) == Claims(w'.trace)
  {
    var b := PolicyBinding("1", Group("staff"), Room("!r"), Some(50), false, "", "");
    var m := Member("k", "@u:d", ["staff"], []);
    assert [b][1..] == [] && Decides(w.mx.spaces, m, b, "!r");
    assert LastLevel(w.mx.spaces, m, [b], "!r", false) == Some(50);
    ReconcileIsHonest(UP, w, m, [b]);
    ReconcileReportsAllIff(w, m, [b]);
  }

  // ----- Lost audit writes -----

  lemma {:induction false} LostWritesAreFailures(t: seq<Event>, t': seq<Event>)
    requires t <= t'
    ensures AuditFailures(t') - AuditFailures(t) <= Failures(t') - Failures(t)
    decreases |t'|
  {
    if |t| == |t'| {
      assert t == t';
    } else {
      LostWritesAreFailures(t, t'[..|t'| - 1]);
    }
  }

  predicate PlainSuccess(s: Script, w: World, job: Job) {
    match job
    case ReconcileJob(m, bs) => ReconcileAll(s, w, m, bs).warnings == []
    case OffboardJob(id, synapse, bs, domain) => Offboard(s, w, id, synapse, bs, domain).result == Ok([])
    case DeleteJob(id, domain) => DeleteAccount(s, w, id, domain).result == Ok(Deleted([]))
    case BulkJob(synapse, bs, domain, dir) =>
      var r := BulkReconcileAll(s, w, synapse, bs, domain, dir);
      r.BulkDone? && r.tally.warnings == []
  }

  lemma RunGrowsTrace(s: Script, w: World, job: Job)
    ensures w.trace <= RunJob(s, w, job).trace
  {
    match job {
      case ReconcileJob(m, bs) => ReconcileIsHonest(s, w, m, bs);
      case OffboardJob(id, synapse, bs, domain) => OffboardIsSound(s, w, id, synapse, bs, domain);
      case DeleteJob(id, domain) => DeleteIsSound(s, w, id, domain);
      case BulkJob(synapse, bs, domain, dir) => BulkIsSound(s, w, synapse, bs, domain, dir);
    }
  }

  lemma PlainSuccessMeansNoFailure(s: Script, w: World, job: Job)
    requires PlainSuccess(s, w, job)
    ensures Failures(RunJob(s, w, job).trace) == Failures(w.trace)
  {
    match job {
      case ReconcileJob(m, bs) => NoWarningsMeansNothingFailed(s, w, m, bs);
      case OffboardJob(id, synapse, bs, domain) => SuccessMeansNoFailure(s, w, id, synapse, bs, domain);
      case DeleteJob(id, domain) =>
        DeleteIsSound(s, w, id, domain);
        NamedFailures(w, Outcome(DeleteAccount(s, w, id, domain).w, []));
      case BulkJob(synapse, bs, domain, dir) => BulkIsSound(s, w, synapse, bs, domain, dir);
    }
  }

  /** A run that lost an audit write never reports plain success: it returns an error or a warning. */
  lemma LostWritesShow(s: Script, w: World, job: Job)
    requires AuditFailures(RunJob(s, w, job).trace) > AuditFailures(w.trace)
    ensures !PlainSuccess(s, w, job)
  {
    RunGrowsTrace(s, w, job);
    LostWritesAreFailures(w.trace, RunJob(s, w, job).trace);
    if PlainSuccess(s, w, job) { PlainSuccessMeansNoFailure(s, w, job); }
  }
}
