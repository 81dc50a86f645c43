/** The steps lifecycle workflows are composed of, and the offboarding workflow itself. */
module Lifecycle {
  import opened Wrappers
  import opened Policy
  import opened Upstream
  import opened Rooms

  /** What makes a fatal step abort its workflow. */
  datatype WorkflowError = UpstreamError | AuditError

  // ----- Step 1: revoke sessions -----

  function ActiveSessions(mas: Mas, account: string, kind: SessionKind): seq<Session> {
    if account in mas.sessions then Active(mas.sessions[account], mas.finished, kind) else []
  }

  function Active(xs: seq<Session>, finished: set<Session>, kind: SessionKind): seq<Session> {
    if xs == [] then []
    else (if xs[0].kind == kind && xs[0] !in finished then [xs[0]] else []) + Active(xs[1..], finished, kind)
  }

  datatype Listing = Listing(w: World, sessions: seq<Session>, warnings: seq<Warning>)

  /** One session family; a family that cannot be fetched is skipped with a warning. */
  function FetchFamily(s: Script, w: World, account: string, kind: SessionKind): Listing {
    var call := FetchSessions(account, kind);
    if Succeeds(s, w, call) then Listing(Attempt(s, w, call), ActiveSessions(w.mas, account, kind), [])
    else Listing(Attempt(s, w, call), [], [SessionFamilyFailed(kind)])
  }

  /** The unfinished sessions of an account, both families; the listing as a whole may also fail. */
  function ListActive(s: Script, w: World, account: string): Listing {
    var call := ListSessions(account);
    var w1 := Attempt(s, w, call);
    if !Succeeds(s, w, call) then Listing(w1, [], [SessionListFailed])
    else
      var compat := FetchFamily(s, w1, account, Compat);
      var oauth2 := FetchFamily(s, compat.w, account, OAuth2);
      Listing(oauth2.w, compat.sessions + oauth2.sessions, compat.warnings + oauth2.warnings)
  }

  function SessionDraft(context: string, m: Member, x: Session): AuditEntry {
    AuditEntry(m.keycloakId, m.matrixId, "revoke_auth_session_on_" + context, true, SessionDetail(x))
  }

  function FinishOne(s: Script, w: World, context: string, m: Member, x: Session): Outcome {
    var g := ActAndLog(s, w, FinishSession(x), SessionDraft(context, m, x));
    Outcome(g.w, LogWarnings(g) + if g.ok then [] else [SessionNotRevoked(x)])
  }

  function FinishAll(s: Script, w: World, context: string, m: Member, xs: seq<Session>): Outcome
    decreases |xs|
  {
    if xs == [] then Outcome(w, [])
    else
      var o := FinishOne(s, w, context, m, xs[0]);
      var rest := FinishAll(s, o.w, context, m, xs[1..]);
      Outcome(rest.w, o.warnings + rest.warnings)
  }

  function RevokeSessions(s: Script, w: World, context: string, m: Member, username: string): Outcome {
    var look := LookupAccount(username);
    var w1 := Attempt(s, w, look);
    if !Succeeds(s, w, look) then Outcome(w1, [AccountLookupFailed])
    else if username !in w1.mas.accounts then Outcome(w1, [])
    else
      var l := ListActive(s, w1, w1.mas.accounts[username]);
      var o := FinishAll(s, l.w, context, m, l.sessions);
      Outcome(o.w, l.warnings + o.warnings)
  }

  method FetchSessionFamily(svc: Services, account: string, kind: SessionKind)
    returns (sessions: seq<Session>, warnings: seq<Warning>)
    modifies svc
    ensures Listing(svc.w, sessions, warnings) == FetchFamily(svc.script, old(svc.w), account, kind)
  {
    sessions := ActiveSessions(svc.w.mas, account, kind);
    var ok := svc.Perform(FetchSessions(account, kind));
    if ok {
      warnings := [];
    } else {
      sessions, warnings := [], [SessionFamilyFailed(kind)];
    }
  }

  method ListActiveSessions(svc: Services, account: string) returns (sessions: seq<Session>, warnings: seq<Warning>)
    modifies svc
    ensures Listing(svc.w, sessions, warnings) == ListActive(svc.script, old(svc.w), account)
  {
    var ok := svc.Perform(ListSessions(account));
    if !ok {
      return [], [SessionListFailed];
    }
    var compat, compatWarnings := FetchSessionFamily(svc, account, Compat);
    var oauth2, oauth2Warnings := FetchSessionFamily(svc, account, OAuth2);
    return compat + oauth2, compatWarnings + oauth2Warnings;
  }

  method RevokeSession(svc: Services, context: string, m: Member, x: Session) returns (warnings: seq<Warning>)
    modifies svc
    ensures Outcome(svc.w, warnings) == FinishOne(svc.script, old(svc.w), context, m, x)
  {
    warnings := [];
    var ok, logged := svc.PerformAndLog(FinishSession(x), SessionDraft(context, m, x));
    if !logged {
      warnings := warnings + [AuditWriteFailed];
    }
    if !ok {
      warnings := warnings + [SessionNotRevoked(x)];
    }
  }

  method FinishSessions(svc: Services, context: string, m: Member, sessions: seq<Session>)
    returns (warnings: seq<Warning>)
    modifies svc
    ensures Outcome(svc.w, warnings) == FinishAll(svc.script, old(svc.w), context, m, sessions)
  {
    warnings := [];
    ghost var whole := FinishAll(svc.script, svc.w, context, m, sessions);
    for i := 0 to |sessions|
      invariant var rest := FinishAll(svc.script, svc.w, context, m, sessions[i..]);
                whole == Outcome(rest.w, warnings + rest.warnings)
    {
      assert sessions[i..][1..] == sessions[i + 1..];
      var ws := RevokeSession(svc, context, m, sessions[i]);
      warnings := warnings + ws;
    }
  }

  method RevokeAuthSessions(svc: Services, context: string, m: Member, username: string)
    returns (warnings: seq<Warning>)
    modifies svc
    ensures Outcome(svc.w, warnings) == RevokeSessions(svc.script, old(svc.w), context, m, username)
  {
    var found := svc.Perform(LookupAccount(username));
    if !found {
      return [AccountLookupFailed];
    }
    if username !in svc.w.mas.accounts {
      return [];
    }
    var sessions, listWarnings := ListActiveSessions(svc, svc.w.mas.accounts[username]);
    var ws := FinishSessions(svc, context, m, sessions);
    return listWarnings + ws;
  }

  // ----- Step 2: log out -----

  function LogoutDraft(context: string, m: Member): AuditEntry {
    AuditEntry(m.keycloakId, m.matrixId, "force_identity_logout_on_" + context, true, LogoutDetail(m.keycloakId))
  }

  function ForceLogout(s: Script, w: World, context: string, m: Member): Outcome {
    var g := ActAndLog(s, w, LogoutUser(m.keycloakId), LogoutDraft(context, m));
    Outcome(g.w, LogWarnings(g) + if g.ok then [] else [LogoutFailed])
  }

  method ForceIdentityLogout(svc: Services, context: string, m: Member) returns (warnings: seq<Warning>)
    modifies svc
    ensures Outcome(svc.w, warnings) == ForceLogout(svc.script, old(svc.w), context, m)
  {
    warnings := [];
    var ok, logged := svc.PerformAndLog(LogoutUser(m.keycloakId), LogoutDraft(context, m));
    if !logged {
      warnings := warnings + [AuditWriteFailed];
    }
    if !ok {
      warnings := warnings + [LogoutFailed];
    }
  }

  // ----- Steps 3 and 5: fatal mutations -----

  /** A fatal step: a lost audit entry is an error even when the mutation went through. */
  function StepResult(g: Logged): Result<(), WorkflowError> {
    if !g.logged then Err(AuditError) else if !g.ok then Err(UpstreamError) else Ok(())
  }

  function DisableDraft(context: string, m: Member, username: string): AuditEntry {
    AuditEntry(m.keycloakId, m.matrixId, "disable_identity_account_on_" + context, true,
               IdentityDetail(m.keycloakId, username))
  }

  function DeactivateDraft(context: string, m: Member, account: string, username: string): AuditEntry {
    AuditEntry(m.keycloakId, m.matrixId, "deactivate_auth_account_on_" + context, true, AuthDetail(account, username))
  }

  method FatalStep(svc: Services, call: Call, draft: AuditEntry) returns (r: Result<(), WorkflowError>)
    modifies svc
    ensures var g := ActAndLog(svc.script, old(svc.w), call, draft); svc.w == g.w && r == StepResult(g)
  {
    var ok, logged := svc.PerformAndLog(call, draft);
    if !logged {
      return Err(AuditError);
    }
    return if ok then Ok(()) else Err(UpstreamError);
  }

  // ----- Step 4: kick from all mapped rooms -----

  function KickMapped(s: Script, w: World, context: string, m: Member, b: PolicyBinding): Outcome {
    var x := Expand(s, w, b.target.roomId);
    var o := KickRooms(s, x.w, m, "kick_room_on_" + context, SubjectText(b.subject), Reversed(x.targets));
    Outcome(o.w, x.warnings + o.warnings)
  }

  /** Bindings whose room was seen before are skipped. */
  function KickAllMapped(s: Script, w: World, context: string, m: Member, bs: seq<PolicyBinding>,
                         seen: set<string>): Outcome
    decreases |bs|
  {
    if bs == [] then Outcome(w, [])
    else if bs[0].target.roomId in seen then KickAllMapped(s, w, context, m, bs[1..], seen)
    else
      var o := KickMapped(s, w, context, m, bs[0]);
      var rest := KickAllMapped(s, o.w, context, m, bs[1..], seen + {bs[0].target.roomId});
      Outcome(rest.w, o.warnings + rest.warnings)
  }

  method KickFromAllMappedRooms(svc: Services, context: string, m: Member, bindings: seq<PolicyBinding>)
    returns (warnings: seq<Warning>)
    modifies svc
    ensures Outcome(svc.w, warnings) == KickAllMapped(svc.script, old(svc.w), context, m, bindings, {})
  {
    warnings := [];
    var seenRooms := {};
    ghost var whole := KickAllMapped(svc.script, svc.w, context, m, bindings, {});
    for i := 0 to |bindings|
      invariant var rest := KickAllMapped(svc.script, svc.w, context, m, bindings[i..], seenRooms);
                whole == Outcome(rest.w, warnings + rest.warnings)
    {
      assert bindings[i..][1..] == bindings[i + 1..];
      var b := bindings[i];
      if b.target.roomId in seenRooms {
        continue;
      }
      seenRooms := seenRooms + {b.target.roomId};
      var targets, expandWarnings := ExpandTargets(svc, b.target.roomId);
      var ws := KickTargets(svc, m, "kick_room_on_" + context, SubjectText(b.subject), targets);
      warnings := warnings + (expandWarnings + ws);
    }
  }

  // ----- The offboarding workflow -----

  datatype WorkflowRun = WorkflowRun(w: World, result: Result<seq<Warning>, WorkflowError>)

  const OFFBOARD := "offboard"

  function MemberOf(id: string, username: string, domain: string): Member {
    Member(id, "@" + username + ":" + domain, [], [])
  }

  /** Steps 1 and 2 never abort. */
  function Withdraw(s: Script, w: World, m: Member, username: string): Outcome {
    var revoke := RevokeSessions(s, w, OFFBOARD, m, username);
    var logout := ForceLogout(s, revoke.w, OFFBOARD, m);
    Outcome(logout.w, revoke.warnings + logout.warnings)
  }

  function CleanRooms(s: Script, w: World, m: Member, synapse: bool, bs: seq<PolicyBinding>): Outcome {
    if synapse then KickAllMapped(s, w, OFFBOARD, m, bs, {})
    else Outcome(w, if bs == [] then [] else [RoomsNotCleanedUp])
  }

  /** Step 5: a failed lookup is a warning, a failed deactivation is fatal. */
  function CloseAccount(s: Script, w: World, m: Member, username: string, warnings: seq<Warning>): WorkflowRun {
    var look := LookupAccount(username);
    var w1 := Attempt(s, w, look);
    if !Succeeds(s, w, look) then WorkflowRun(w1, Ok(warnings + [AccountLookupFailed]))
    else if username !in w1.mas.accounts then WorkflowRun(w1, Ok(warnings))
    else
      var account := w1.mas.accounts[username];
      var g := ActAndLog(s, w1, DeactivateAccount(account), DeactivateDraft(OFFBOARD, m, account, username));
      WorkflowRun(g.w, if StepResult(g).Ok? then Ok(warnings) else Err(StepResult(g).error))
  }

  /** Where a workflow stands after the fatal disable step. */
  datatype Gate = Gate(warnings: seq<Warning>, disable: Logged)

  function ReachGate(s: Script, w: World, m: Member, username: string): Gate {
    var out := Withdraw(s, w, m, username);
    Gate(out.warnings, ActAndLog(s, out.w, DisableUser(m.keycloakId), DisableDraft(OFFBOARD, m, username)))
  }

  /** Steps 4 and 5. */
  function PassGate(s: Script, g: Gate, m: Member, username: string, synapse: bool, bs: seq<PolicyBinding>): WorkflowRun {
    if StepResult(g.disable).Err? then WorkflowRun(g.disable.w, Err(StepResult(g.disable).error))
    else
      var rooms := CleanRooms(s, g.disable.w, m, synapse, bs);
      CloseAccount(s, rooms.w, m, username, g.warnings + rooms.warnings)
  }

  function Offboard(s: Script, w: World, id: string, synapse: bool, bs: seq<PolicyBinding>, domain: string): WorkflowRun {
    var w0 := Attempt(s, w, GetUser(id));
    if !Succeeds(s, w, GetUser(id)) then WorkflowRun(w0, Err(UpstreamError))
    else
      var m := MemberOf(id, w.kc.users[id], domain);
      PassGate(s, ReachGate(s, w0, m, w.kc.users[id]), m, w.kc.users[id], synapse, bs)
  }

  /** Steps 4 and 5, reached only when the identity account was disabled. */
  method RemoveUser(svc: Services, m: Member, username: string, synapse: bool, bindings: seq<PolicyBinding>,
                    soFar: seq<Warning>)
    returns (result: Result<seq<Warning>, WorkflowError>)
    modifies svc
    ensures var rooms := CleanRooms(svc.script, old(svc.w), m, synapse, bindings);
            WorkflowRun(svc.w, result) == CloseAccount(svc.script, rooms.w, m, username, soFar + rooms.warnings)
  {
    var warnings := [];
    if synapse {
      warnings := KickFromAllMappedRooms(svc, OFFBOARD, m, bindings);
    } else if bindings != [] {
      warnings := [RoomsNotCleanedUp];
    }
    warnings := soFar + warnings;

    var looked := svc.Perform(LookupAccount(username));
    if !looked {
      return Ok(warnings + [AccountLookupFailed]);
    }
    if username in svc.w.mas.accounts {
      var account := svc.w.mas.accounts[username];
      var closed := FatalStep(svc, DeactivateAccount(account), DeactivateDraft(OFFBOARD, m, account, username));
      if closed.Err? {
        return Err(closed.error);
      }
    }
    return Ok(warnings);
  }

  method OffboardUser(svc: Services, id: string, synapse: bool, bindings: seq<PolicyBinding>, domain: string)
    returns (result: Result<seq<Warning>, WorkflowError>)
    modifies svc
    ensures WorkflowRun(svc.w, result) == Offboard(svc.script, old(svc.w), id, synapse, bindings, domain)
  {
    var found := svc.Perform(GetUser(id));
    if !found {
      return Err(UpstreamError);
    }
    var username := svc.w.kc.users[id];
    var m := MemberOf(id, username, domain);

    var warnings := RevokeAuthSessions(svc, OFFBOARD, m, username);
    var logoutWarnings := ForceIdentityLogout(svc, OFFBOARD, m);

    var disabled := FatalStep(svc, DisableUser(id), DisableDraft(OFFBOARD, m, username));
    if disabled.Err? {
      return Err(disabled.error);
    }
    result := RemoveUser(svc, m, username, synapse, bindings, warnings + logoutWarnings);
  }
}
