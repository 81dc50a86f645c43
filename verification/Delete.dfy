/** Deleting a user: deactivate the MAS account first, then remove the Keycloak record. */
module Delete {
  import opened Wrappers
  import opened Policy
  import opened Upstream
  import opened Rooms
  import opened Lifecycle

  datatype DeleteUserResult = Deleted(outcome: seq<Warning>) | PartialFailure(outcome: seq<Warning>)

  datatype DeleteRun = DeleteRun(w: World, result: Result<DeleteUserResult, WorkflowError>)

  function MasDraft(m: Member, account: string, username: string): AuditEntry {
    AuditEntry(m.keycloakId, m.matrixId, "deactivate_mas_user", true, MasDetail(m.keycloakId, account, username))
  }

  function DeletionDraft(m: Member, username: string, masDeactivated: bool): AuditEntry {
    AuditEntry(m.keycloakId, m.matrixId, "delete_keycloak_user", true,
               DeletionDetail(m.keycloakId, username, masDeactivated))
  }

  /** The Keycloak half: fatal, unless the MAS account was already deactivated. */
  function RemoveRecord(s: Script, w: World, m: Member, username: string, masDone: bool, warnings: seq<Warning>): DeleteRun {
    var g := ActAndLog(s, w, DeleteUser(m.keycloakId), DeletionDraft(m, username, masDone));
    DeleteRun(g.w,
      if !g.logged then Err(AuditError)
      else if g.ok then Ok(Deleted(warnings))
      else if masDone then Ok(PartialFailure(warnings + [KeycloakDeleteFailed]))
      else Err(UpstreamError))
  }

  /** Whether MAS was deactivated, and the warnings so far. */
  datatype MasHalf = MasHalf(w: World, result: Result<(bool, seq<Warning>), WorkflowError>)

  /** The MAS half: an unreachable MAS is skipped with a warning, a failed deactivation is fatal. */
  function CloseMas(s: Script, w: World, m: Member, username: string): MasHalf {
    var look := LookupAccount(username);
    var w1 := Attempt(s, w, look);
    if !Succeeds(s, w, look) then MasHalf(w1, Ok((false, [AccountLookupFailed])))
    else if username !in w1.mas.accounts then MasHalf(w1, Ok((false, [])))
    else
      var account := w1.mas.accounts[username];
      var g := ActAndLog(s, w1, DeactivateAccount(account), MasDraft(m, account, username));
      MasHalf(g.w, if StepResult(g).Err? then Err(StepResult(g).error) else Ok((true, [])))
  }

  function DeleteKnown(s: Script, w: World, m: Member, username: string): DeleteRun {
    var h := CloseMas(s, w, m, username);
    if h.result.Err? then DeleteRun(h.w, Err(h.result.error))
    else RemoveRecord(s, h.w, m, username, h.result.value.0, h.result.value.1)
  }

  function DeleteAccount(s: Script, w: World, id: string, domain: string): DeleteRun {
    var w0 := Attempt(s, w, GetUser(id));
    if !Succeeds(s, w, GetUser(id)) then DeleteRun(w0, Err(UpstreamError))
    else DeleteKnown(s, w0, MemberOf(id, w.kc.users[id], domain), w.kc.users[id])
  }

  method DeleteRecord(svc: Services, m: Member, username: string, masDone: bool, warnings: seq<Warning>)
    returns (result: Result<DeleteUserResult, WorkflowError>)
    modifies svc
    ensures DeleteRun(svc.w, result) == RemoveRecord(svc.script, old(svc.w), m, username, masDone, warnings)
  {
    var ok, logged := svc.PerformAndLog(DeleteUser(m.keycloakId), DeletionDraft(m, username, masDone));
    if !logged {
      return Err(AuditError);
    }
    if !ok {
      if masDone {
        return Ok(PartialFailure(warnings + [KeycloakDeleteFailed]));
      }
      return Err(UpstreamError);
    }
    return Ok(Deleted(warnings));
  }

  method DeleteUserAccount(svc: Services, id: string, domain: string)
    returns (result: Result<DeleteUserResult, WorkflowError>)
    modifies svc
    ensures DeleteRun(svc.w, result) == DeleteAccount(svc.script, old(svc.w), id, domain)
  {
    var found := svc.Perform(GetUser(id));
    if !found {
      return Err(UpstreamError);
    }
    var username := svc.w.kc.users[id];
    var m := MemberOf(id, username, domain);
    var warnings := [];
    var masDone := false;

    var looked := svc.Perform(LookupAccount(username));
    if !looked {
      warnings := [AccountLookupFailed];
    } else if username in svc.w.mas.accounts {
      var account := svc.w.mas.accounts[username];
      var r := FatalStep(svc, DeactivateAccount(account), MasDraft(m, account, username));
      if r.Err? {
        return Err(r.error);
      }
      masDone := true;
    }
    result := DeleteRecord(svc, m, username, masDone, warnings);
  }

  // ----- Results -----

  /** The MAS id behind a Keycloak user, if there is an account. */
  function AccountsOf(w: World, id: string): set<string> {
    if id in w.kc.users && w.kc.users[id] in w.mas.accounts then {w.mas.accounts[w.kc.users[id]]} else {}
  }

  /** The systems once the user is completely deleted. */
  function Removed(w: World, id: string): World {
    w.(kc := w.kc.(users := w.kc.users - {id}), mas := w.mas.(deactivated := w.mas.deactivated + AccountsOf(w, id)))
  }

  /** From `w` to `w'` the record may have gone and the account may have been deactivated; nothing else changed. */
  ghost predicate PartlyRemoved(w: World, w': World, id: string) {
    && w'.kc in {w.kc, w.kc.(users := w.kc.users - {id})}
    && w'.mas in {w.mas, w.mas.(deactivated := w.mas.deactivated + AccountsOf(w, id))}
    && w'.mx == w.mx
  }

  /** The log stays honest, and failed calls are what the warnings and errors say they are. */
  ghost predicate Reported(w: World, o: DeleteRun) {
    && (InSync(w) ==> InSync(o.w))
    && w.trace <= o.w.trace
    && (o.result.Err? ==> Failures(o.w.trace) > Failures(w.trace))
  }

  /** A result's warnings are exactly those for the calls that failed since `w`, in order. */
  ghost predicate NamesRun(w: World, o: DeleteRun) {
    o.result.Ok? ==> NamesFailures(w, Outcome(o.w, o.result.value.outcome))
  }

  lemma RecordIsReported(s: Script, w: World, m: Member, username: string, masDone: bool, warnings: seq<Warning>)
    ensures Reported(w, RemoveRecord(s, w, m, username, masDone, warnings))
  {
    var call, draft := DeleteUser(m.keycloakId), DeletionDraft(m, username, masDone);
    if InSync(w) { ActAndLogKeepsSync(s, w, call, draft); }
    FailuresOfActAndLog(s, w, call, draft);
  }

  lemma RecordOwnWarning(s: Script, w: World, call: Call, draft: AuditEntry, g: Logged)
    requires call.DeleteUser? && g == ActAndLog(s, w, call, draft) && g.logged
    ensures NamesFailures(w, Outcome(g.w, if g.ok then [] else [KeycloakDeleteFailed]))
  {
    NamesOfActAndLog(s, w, call, draft);
    var own := if g.ok then [] else [KeycloakDeleteFailed];
    assert LogWarnings(g) + own == own;
  }

  lemma RecordNames(s: Script, w0: World, w: World, m: Member, username: string, masDone: bool, warnings: seq<Warning>)
    requires NamesFailures(w0, Outcome(w, warnings))
    ensures NamesRun(w0, RemoveRecord(s, w, m, username, masDone, warnings))
  {
    var g := ActAndLog(s, w, DeleteUser(m.keycloakId), DeletionDraft(m, username, masDone));
    var o := RemoveRecord(s, w, m, username, masDone, warnings);
    if o.result.Ok? {
      var own := if g.ok then [] else [KeycloakDeleteFailed];
      RecordOwnWarning(s, w, DeleteUser(m.keycloakId), DeletionDraft(m, username, masDone), g);
      NamesThen(w0, Outcome(w, warnings), Outcome(g.w, own));
      assert o.w == g.w && o.result.value.outcome == warnings + own;
    }
  }

  lemma RecordStep(s: Script, w: World, m: Member, username: string, masDone: bool, warnings: seq<Warning>)
    ensures var o := RemoveRecord(s, w, m, username, masDone, warnings);
            && w.trace <= o.w.trace
            && o.w.mas == w.mas && o.w.mx == w.mx
            && o.w.kc == (if Succeeds(s, w, DeleteUser(m.keycloakId))
                          then w.kc.(users := w.kc.users - {m.keycloakId}) else w.kc)
  {
  }

  lemma ReadStep(s: Script, w: World, call: Call)
    requires call.GetUser? || call.LookupAccount?
    ensures var w' := Attempt(s, w, call);
            && (InSync(w) ==> InSync(w')) && w.trace <= w'.trace
            && Failures(w'.trace) == Failures(w.trace) + (if Succeeds(s, w, call) then 0 else 1)
            && SameSystems(w, w')
  {
    TraceGrows(w.trace, Event(call, Succeeds(s, w, call)));
  }

  lemma DeactivateEffect(s: Script, w: World, call: Call, draft: AuditEntry)
    requires call.DeactivateAccount?
    ensures var g := ActAndLog(s, w, call, draft);
            && g.w.kc == w.kc && g.w.mx == w.mx && w.trace <= g.w.trace
            && g.w.mas == if g.ok then w.mas.(deactivated := w.mas.deactivated + {call.account}) else w.mas
  {
  }

  lemma DeactivateStep(s: Script, w: World, m: Member, account: string, username: string)
    ensures var g := ActAndLog(s, w, DeactivateAccount(account), MasDraft(m, account, username));
            && (InSync(w) ==> InSync(g.w)) && w.trace <= g.w.trace
            && Failures(g.w.trace) == Failures(w.trace) + (if g.ok then 0 else 1) + (if g.logged then 0 else 1)
            && g.w.kc == w.kc && g.w.mx == w.mx
            && g.w.mas == if g.ok then w.mas.(deactivated := w.mas.deactivated + {account}) else w.mas
  {
    var call, draft := DeactivateAccount(account), MasDraft(m, account, username);
    if InSync(w) { ActAndLogKeepsSync(s, w, call, draft); }
    FailuresOfActAndLog(s, w, call, draft);
    DeactivateEffect(s, w, call, draft);
  }

  lemma MasStep(s: Script, w: World, m: Member, username: string)
    ensures var h := CloseMas(s, w, m, username);
            var accounts := if username in w.mas.accounts then {w.mas.accounts[username]} else {};
            && (InSync(w) ==> InSync(h.w)) && w.trace <= h.w.trace
            && h.w.kc == w.kc && h.w.mx == w.mx
            && h.w.mas in {w.mas, w.mas.(deactivated := w.mas.deactivated + accounts)}
            && Failures(h.w.trace) >= Failures(w.trace)
            && (h.result.Err? ==> Failures(h.w.trace) > Failures(w.trace))
            && (h.result.Ok? && h.result.value.0 ==> accounts != {} && h.result.value.1 == [])
            && (h.result.Ok? && h.result.value.1 == [] ==> accounts <= h.w.mas.deactivated)
            && (h.result.Ok? && h.result.value.1 != [] ==> h.w.mas == w.mas)
  {
    var look := LookupAccount(username);
    var w1 := Attempt(s, w, look);
    ReadStep(s, w, look);
    if Succeeds(s, w, look) && username in w1.mas.accounts {
      var account := w1.mas.accounts[username];
      DeactivateStep(s, w1, m, account, username);
      assert CloseMas(s, w, m, username).w == ActAndLog(s, w1, DeactivateAccount(account), MasDraft(m, account, username)).w;
    }
  }

  lemma MasNames(s: Script, w: World, m: Member, username: string)
    ensures var h := CloseMas(s, w, m, username);
            h.result.Ok? ==> NamesFailures(w, Outcome(h.w, h.result.value.1))
  {
    var look := LookupAccount(username);
    var w1 := Attempt(s, w, look);
    NamesOfAttempt(s, w, look);
    if Succeeds(s, w, look) && username in w1.mas.accounts {
      var account := w1.mas.accounts[username];
      var draft := MasDraft(m, account, username);
      NamesOfActAndLog(s, w1, DeactivateAccount(account), draft);
      if StepResult(ActAndLog(s, w1, DeactivateAccount(account), draft)).Ok? {
        assert Complaints(w1.trace) == Complaints(w.trace);
      }
    }
  }

  /**
   Whatever fails: the audit trail stays true, an error means a failed call, and otherwise the
   warnings name exactly the calls that failed, so `Deleted` without warnings means that none did.
   */
  lemma DeleteIsSound(s: Script, w: World, id: string, domain: string)
    ensures Reported(w, DeleteAccount(s, w, id, domain)) && NamesRun(w, DeleteAccount(s, w, id, domain))
  {
    ReadStep(s, w, GetUser(id));
    NamesOfAttempt(s, w, GetUser(id));
    if Succeeds(s, w, GetUser(id)) {
      var w0 := Attempt(s, w, GetUser(id));
      DeleteKnownIsReported(s, w0, MemberOf(id, w.kc.users[id], domain), w.kc.users[id]);
      DeleteKnownNames(s, w0, MemberOf(id, w.kc.users[id], domain), w.kc.users[id]);
      assert Complaints(w0.trace) == Complaints(w.trace);
    }
  }

  lemma DeleteKnownIsReported(s: Script, w: World, m: Member, username: string)
    ensures Reported(w, DeleteKnown(s, w, m, username))
  {
    var h := CloseMas(s, w, m, username);
    MasStep(s, w, m, username);
    if h.result.Ok? { RecordIsReported(s, h.w, m, username, h.result.value.0, h.result.value.1); }
  }

  lemma DeleteKnownNames(s: Script, w: World, m: Member, username: string)
    ensures NamesRun(w, DeleteKnown(s, w, m, username))
  {
    var h := CloseMas(s, w, m, username);
    MasNames(s, w, m, username);
    if h.result.Ok? { RecordNames(s, w, h.w, m, username, h.result.value.0, h.result.value.1); }
  }

  /** What each outcome of the two halves says about the systems, whatever failed on the way. */
  lemma DeleteKnownOutcomes(s: Script, w: World, m: Member, username: string, accounts: set<string>)
    requires accounts == if username in w.mas.accounts then {w.mas.accounts[username]} else {}
    ensures var o, id := DeleteKnown(s, w, m, username), m.keycloakId;
            && o.w.kc in {w.kc, w.kc.(users := w.kc.users - {id})}
            && o.w.mas in {w.mas, w.mas.(deactivated := w.mas.deactivated + accounts)}
            && o.w.mx == w.mx
            && (o.result.Ok? && o.result.value.PartialFailure? ==>
                 o.w.kc == w.kc && accounts != {} && accounts <= o.w.mas.deactivated)
            && (o.result.Ok? && o.result.value.Deleted? ==>
                 && o.w.kc == w.kc.(users := w.kc.users - {id})
                 && (if o.result.value.outcome == [] then accounts <= o.w.mas.deactivated else o.w.mas == w.mas))
  {
    var h := CloseMas(s, w, m, username);
    MasStep(s, w, m, username);
    if h.result.Ok? { RecordStep(s, h.w, m, username, h.result.value.0, h.result.value.1); }
  }

  /** What each outcome says about the systems, whatever failed on the way. */
  lemma DeleteOutcomes(s: Script, w: World, id: string, domain: string)
    requires id in w.kc.users
    ensures var o := DeleteAccount(s, w, id, domain);
            && PartlyRemoved(w, o.w, id)
            && (o.result == Ok(Deleted([])) ==> SameSystems(o.w, Removed(w, id)))
            && (o.result.Ok? && o.result.value.PartialFailure? ==>
                 o.w.kc == w.kc && AccountsOf(w, id) != {} && AccountsOf(w, id) <= o.w.mas.deactivated)
            && (o.result.Ok? && o.result.value.Deleted? ==>
                 && id !in o.w.kc.users
                 && (AccountsOf(w, id) <= o.w.mas.deactivated
                     <==> o.result.value.outcome == [] || AccountsOf(w, id) <= w.mas.deactivated))
  {
    if Succeeds(s, w, GetUser(id)) {
      var w0, username := Attempt(s, w, GetUser(id)), w.kc.users[id];
      DeleteKnownOutcomes(s, w0, MemberOf(id, username, domain), username, AccountsOf(w, id));
    }
  }

  /** When nothing fails, exactly the known users are deleted, without warnings. */
  lemma FailureFreeDeletesIff(w: World, id: string, domain: string)
    ensures DeleteAccount(UP, w, id, domain).result == Ok(Deleted([])) <==> id in w.kc.users
  {
    if id in w.kc.users {
      var w0, username := Attempt(UP, w, GetUser(id)), w.kc.users[id];
      UpDeletesKnown(w0, MemberOf(id, username, domain), username);
    }
  }

  lemma UpDeletesKnown(w: World, m: Member, username: string)
    requires m.keycloakId in w.kc.users
    ensures DeleteKnown(UP, w, m, username).result == Ok(Deleted([]))
  {
    var h := CloseMas(UP, w, m, username);
    MasStep(UP, w, m, username);
    assert h.result.Ok? && h.result.value.1 == [];
  }

  /** The state after several attempts to delete the same user, each with its own faults. */
  function AfterAttempts(ss: seq<Script>, w: World, id: string, domain: string): World
    decreases |ss|
  {
    if ss == [] then w else AfterAttempts(ss[1..], DeleteAccount(ss[0], w, id, domain).w, id, domain)
  }

  lemma {:induction false} AttemptsRemovePartly(ss: seq<Script>, w: World, id: string, domain: string)
    requires id in AfterAttempts(ss, w, id, domain).kc.users
    ensures var w' := AfterAttempts(ss, w, id, domain);
            id in w.kc.users && w'.kc == w.kc && PartlyRemoved(w, w', id)
    decreases |ss|
  {
    if ss == [] {
    } else {
      var w1 := DeleteAccount(ss[0], w, id, domain).w;
      AttemptsRemovePartly(ss[1..], w1, id, domain);
      if id in w.kc.users { DeleteOutcomes(ss[0], w, id, domain); }
    }
  }

  /** After any failed attempts that left the Keycloak record, a clean run ends where one clean run from the start ends. */
  lemma RetryConverges(ss: seq<Script>, s: Script, w: World, id: string, domain: string)
    requires id in AfterAttempts(ss, w, id, domain).kc.users
    requires DeleteAccount(s, AfterAttempts(ss, w, id, domain), id, domain).result == Ok(Deleted([]))
    ensures SameSystems(DeleteAccount(s, AfterAttempts(ss, w, id, domain), id, domain).w, DeleteAccount(UP, w, id, domain).w)
  {
    var w1 := AfterAttempts(ss, w, id, domain);
    AttemptsRemovePartly(ss, w, id, domain);
    DeleteOutcomes(s, w1, id, domain);
    FailureFreeDeletesIff(w, id, domain);
    DeleteOutcomes(UP, w, id, domain);
    assert w1.mas.deactivated + AccountsOf(w, id) == w.mas.deactivated + AccountsOf(w, id);
  }

  /**
   A deletion that got through leaves the account deactivated exactly when it was so before, or when
   the account could be looked up.
   */
  lemma DeletionClosesAccountIff(s: Script, w: World, id: string, domain: string)
    requires id in w.kc.users
    requires var r := DeleteAccount(s, w, id, domain).result; r.Ok? && r.value.Deleted?
    ensures AccountsOf(w, id) <= DeleteAccount(s, w, id, domain).w.mas.deactivated
       <==> || AccountsOf(w, id) <= w.mas.deactivated
            || Succeeds(s, Attempt(s, w, GetUser(id)), LookupAccount(w.kc.users[id]))
  {
    var w0, username := Attempt(s, w, GetUser(id)), w.kc.users[id];
    DeleteOutcomes(s, w, id, domain);
    LookupDecides(s, w0, MemberOf(id, username, domain), username);
  }

  lemma LookupDecides(s: Script, w: World, m: Member, username: string)
    requires var r := DeleteKnown(s, w, m, username).result; r.Ok? && r.value.Deleted?
    ensures DeleteKnown(s, w, m, username).result.value.outcome == [] <==> Succeeds(s, w, LookupAccount(username))
  {
  }

  /**
   A record that is gone cannot be retried: an account that the deletion left active stays active,
   however often and with whatever luck the deletion is tried again.
   */
  lemma LeftoverAccountIsPermanent(s: Script, ss: seq<Script>, w: World, id: string, domain: string)
    requires id in w.kc.users && !(AccountsOf(w, id) <= w.mas.deactivated)
    requires var r := DeleteAccount(s, w, id, domain).result; r.Ok? && r.value.Deleted?
    requires !Succeeds(s, Attempt(s, w, GetUser(id)), LookupAccount(w.kc.users[id]))
    ensures var w' := AfterAttempts(ss, DeleteAccount(s, w, id, domain).w, id, domain);
            && id !in w'.kc.users
            && AccountsOf(w, id) != {} && !(AccountsOf(w, id) <= w'.mas.deactivated)
  {
    DeletionClosesAccountIff(s, w, id, domain);
    DeleteOutcomes(s, w, id, domain);
    GoneStaysGone(ss, DeleteAccount(s, w, id, domain).w, id, domain);
  }

  lemma {:induction false} GoneStaysGone(ss: seq<Script>, w: World, id: string, domain: string)
    requires id !in w.kc.users
    ensures SameSystems(w, AfterAttempts(ss, w, id, domain))
    decreases |ss|
  {
    if ss == [] {
    } else {
      GoneStaysGone(ss[1..], DeleteAccount(ss[0], w, id, domain).w, id, domain);
    }
  }

  /** It does happen: only the lookup fails, the record goes, and the account stays active. */
  lemma AccountMayBeLeft(s: Script, w: World)
    requires w.trace == [] && s(0) && !s(1) && s(2) && s(3)
    requires w.kc.users == map["k" := "u"] && w.mas.accounts == map["u" := "a"] && w.mas.deactivated == {}
    ensures var o := DeleteAccount(s, w, "k", "d");
            && o.result == Ok(Deleted([AccountLookupFailed]))
            && "k" !in o.w.kc.users && "a" !in o.w.mas.deactivated
  {
    var w0 := Attempt(s, w, GetUser("k"));
    var m := MemberOf("k", "u", "d");
    var h := CloseMas(s, w0, m, "u");
    assert w.kc.users["k"] == "u" && |w0.trace| == 1 && |h.w.trace| == 2;
    var g := ActAndLog(s, h.w, DeleteUser("k"), DeletionDraft(m, "u", false));
    assert g.ok && g.logged;
  }

  lemma MasTrace(s: Script, w: World, m: Member, username: string)
    ensures var h := CloseMas(s, w, m, username);
            && w.trace < h.w.trace
            && (forall k | |w.trace| <= k < |h.w.trace| :: !h.w.trace[k].call.DeleteUser?)
            && (h.result.Ok? && username in w.mas.accounts ==>
                 || h.w.trace[|w.trace|] == Event(LookupAccount(username), false)
                 || (|h.w.trace| > |w.trace| + 1
                     && h.w.trace[|w.trace| + 1] == Event(DeactivateAccount(w.mas.accounts[username]), true)))
  {
  }

  /** The record is only ever deleted once the MAS account is deactivated, found missing, or could not be looked up. */
  lemma RecordGoesLast(s: Script, w: World, id: string, domain: string, k: nat)
    requires id in w.kc.users
    requires var t := DeleteAccount(s, w, id, domain).w.trace; |w.trace| <= k < |t| && t[k].call.DeleteUser?
    ensures var t := DeleteAccount(s, w, id, domain).w.trace;
            || AccountsOf(w, id) == {}
            || exists j :: |w.trace| <= j < k
                        && (t[j] == Event(LookupAccount(w.kc.users[id]), false)
                            || t[j] == Event(DeactivateAccount(w.mas.accounts[w.kc.users[id]]), true))
  {
    var w0, username := Attempt(s, w, GetUser(id)), w.kc.users[id];
    var m := MemberOf(id, username, domain);
    var h := CloseMas(s, w0, m, username);
    var t := DeleteAccount(s, w, id, domain).w.trace;
    assert Succeeds(s, w, GetUser(id));
    MasTrace(s, w0, m, username);
    if h.result.Ok? {
      RecordStep(s, h.w, m, username, h.result.value.0, h.result.value.1);
      assert h.w.trace <= t && k >= |h.w.trace|;
      assert t[|w0.trace|] == h.w.trace[|w0.trace|];
      if |h.w.trace| > |w0.trace| + 1 { assert t[|w0.trace| + 1] == h.w.trace[|w0.trace| + 1]; }
    }
  }
}
