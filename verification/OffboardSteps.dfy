/** Which steps offboarding takes, whatever fails, and what its result says about them. */
module OffboardSteps {
  import opened Wrappers
  import opened Policy
  import opened Upstream
  import opened Rooms
  import opened Reconcile
  import opened Lifecycle
  import opened OffboardResults
  import opened OffboardOrder
  import opened Steps
  import opened Requirements
  import opened Isolation

  // ----- Revoking sessions -----

  /** The events of a revocation of sessions. */
  predicate SessionEvent(e: Event) {
    e.call.LookupAccount? || e.call.ListSessions? || e.call.FetchSessions? || e.call.FinishSession? ||
    (e.call.WriteAudit? && e.call.entry.about.SessionDetail?)
  }

  predicate FinishEvent(e: Event) {
    e.call.FinishSession? || (e.call.WriteAudit? && e.call.entry.about.SessionDetail?)
  }

  /** From `w` to `w'` the call was attempted. */
  ghost predicate Tried(w: World, w': World, call: Call) {
    exists k :: |w.trace| <= k < |w'.trace| && w'.trace[k].call == call
  }

  /** Every session of the list is attempted, whatever happened to those before. */
  lemma {:induction false} EachSessionIsTried(s: Script, w: World, m: Member, xs: seq<Session>)
    ensures AllSince(w, FinishAll(s, w, OFFBOARD, m, xs).w, FinishEvent)
    ensures forall x | x in xs :: Tried(w, FinishAll(s, w, OFFBOARD, m, xs).w, FinishSession(x))
    decreases |xs|
  {
    if xs == [] {
    } else {
      var w1 := FinishOne(s, w, OFFBOARD, m, xs[0]).w;
      var w2 := FinishAll(s, w1, OFFBOARD, m, xs[1..]).w;
      ActAndLogAddsTwo(s, w, FinishSession(xs[0]), SessionDraft(OFFBOARD, m, xs[0]));
      EachSessionIsTried(s, w1, m, xs[1..]);
      AllSinceThen(w, w1, w2, FinishEvent);
      forall x | x in xs ensures Tried(w, w2, FinishSession(x)) {
        if x == xs[0] {
          assert w2.trace[|w.trace|] == w1.trace[|w.trace|] && w2.trace[|w.trace|].call == FinishSession(x);
        } else {
          var k :| |w1.trace| <= k < |w2.trace| && w2.trace[k].call == FinishSession(x);
        }
      }
    }
  }

  /**
   Whatever fails: each family of sessions that could be fetched is gone through, and every session of
   the account in it that is not finished yet is attempted.
   */
  lemma FetchedSessionsAreTried(s: Script, w: World, m: Member, username: string, kind: SessionKind, x: Session, k: nat)
    requires username in w.mas.accounts
    requires var w' := RevokeSessions(s, w, OFFBOARD, m, username).w;
             |w.trace| <= k < |w'.trace| && w'.trace[k] == Event(FetchSessions(w.mas.accounts[username], kind), true)
    requires x in SessionsOf(w.mas, w.mas.accounts[username]) && x.kind == kind && x !in w.mas.finished
    ensures Tried(w, RevokeSessions(s, w, OFFBOARD, m, username).w, FinishSession(x))
  {
    var account := w.mas.accounts[username];
    var w1 := Attempt(s, w, LookupAccount(username));
    var l := ListActive(s, w1, account);
    var w' := RevokeSessions(s, w, OFFBOARD, m, username).w;
    AttemptAddsOne(s, w, LookupAccount(username));
    assert Succeeds(s, w, LookupAccount(username));
    EachSessionIsTried(s, l.w, m, l.sessions);
    ListingTrace(s, w1, account);
    assert w' == FinishAll(s, l.w, OFFBOARD, m, l.sessions).w;
    assert k < |l.w.trace| && w'.trace[k] == l.w.trace[k];
    FetchedFamilyIsListed(s, w1, account, kind, x, k);
    var j :| |l.w.trace| <= j < |w'.trace| && w'.trace[j].call == FinishSession(x);
  }

  lemma ListingTrace(s: Script, w: World, account: string)
    ensures AllSince(w, ListActive(s, w, account).w, SessionEvent)
  {
    var w1 := Attempt(s, w, ListSessions(account));
    var w2 := Attempt(s, w1, FetchSessions(account, Compat));
    AttemptAddsOne(s, w, ListSessions(account));
    AttemptAddsOne(s, w1, FetchSessions(account, Compat));
    AttemptAddsOne(s, w2, FetchSessions(account, OAuth2));
  }

  lemma FetchedFamilyIsListed(s: Script, w: World, account: string, kind: SessionKind, x: Session, k: nat)
    requires var w' := ListActive(s, w, account).w;
             |w.trace| <= k < |w'.trace| && w'.trace[k] == Event(FetchSessions(account, kind), true)
    requires x in SessionsOf(w.mas, account) && x.kind == kind && x !in w.mas.finished
    ensures x in ListActive(s, w, account).sessions
  {
    var w1 := Attempt(s, w, ListSessions(account));
    var w2 := Attempt(s, w1, FetchSessions(account, Compat));
    AttemptAddsOne(s, w, ListSessions(account));
    AttemptAddsOne(s, w1, FetchSessions(account, Compat));
    AttemptAddsOne(s, w2, FetchSessions(account, OAuth2));
    ActiveIsExact(w.mas.sessions[account], w.mas.finished, kind, x);
  }

  lemma RevocationTrace(s: Script, w: World, m: Member, username: string)
    ensures var w1, w' := Attempt(s, w, LookupAccount(username)), RevokeSessions(s, w, OFFBOARD, m, username).w;
            && AllSince(w1, w', SessionEvent)
            && (forall k | |w1.trace| <= k < |w'.trace| :: Minor(w'.trace[k]))
  {
    var w1 := Attempt(s, w, LookupAccount(username));
    if Succeeds(s, w, LookupAccount(username)) && username in w1.mas.accounts {
      var l := ListActive(s, w1, w1.mas.accounts[username]);
      var w' := FinishAll(s, l.w, OFFBOARD, m, l.sessions).w;
      ListingTrace(s, w1, w1.mas.accounts[username]);
      ListingHasNoSteps(s, w1, w1.mas.accounts[username]);
      EachSessionIsTried(s, l.w, m, l.sessions);
      forall k | |w1.trace| <= k < |w'.trace| ensures SessionEvent(w'.trace[k]) && Minor(w'.trace[k]) {
        if k < |l.w.trace| {
          assert w'.trace[k] == l.w.trace[k];
        } else {
          assert FinishEvent(w'.trace[k]);
        }
      }
    }
  }

  lemma ListingHasNoSteps(s: Script, w: World, account: string)
    ensures AllSince(w, ListActive(s, w, account).w, Minor)
  {
    var w1 := Attempt(s, w, ListSessions(account));
    var w2 := Attempt(s, w1, FetchSessions(account, Compat));
    AttemptAddsOne(s, w, ListSessions(account));
    AttemptAddsOne(s, w1, FetchSessions(account, Compat));
    AttemptAddsOne(s, w2, FetchSessions(account, OAuth2));
  }

  // ----- Steps up to the gate -----

  lemma WithdrawSteps(s: Script, w: World, m: Member, username: string) returns (found: bool, out: bool)
    ensures var w' := Withdraw(s, w, m, username).w;
            && StepsOf(w'.trace)
               == StepsOf(w.trace) + [Event(LookupAccount(username), found), Event(LogoutUser(m.keycloakId), out)]
            && VitalLosses(w'.trace) == VitalLosses(w.trace)
  {
    var w1, w2 := Attempt(s, w, LookupAccount(username)), RevokeSessions(s, w, OFFBOARD, m, username).w;
    found, out := Succeeds(s, w, LookupAccount(username)), Succeeds(s, w2, LogoutUser(m.keycloakId));
    StepOfAttempt(s, w, LookupAccount(username));
    RevocationTrace(s, w, m, username);
    MinorStretch(w1.trace, w2.trace);
    StepOfActAndLog(s, w2, LogoutUser(m.keycloakId), LogoutDraft(OFFBOARD, m), false);
    AppendTwice(StepsOf(w.trace), [Event(LookupAccount(username), found)], [Event(LogoutUser(m.keycloakId), out)],
                StepsOf(w2.trace), StepsOf(Withdraw(s, w, m, username).w.trace));
  }

  lemma GateSteps(s: Script, w: World, m: Member, username: string) returns (found: bool, out: bool)
    ensures var g := ReachGate(s, w, m, username).disable;
            && StepsOf(g.w.trace)
               == StepsOf(w.trace) + [Event(LookupAccount(username), found), Event(LogoutUser(m.keycloakId), out),
                                      Event(DisableUser(m.keycloakId), g.ok)]
            && VitalLosses(g.w.trace) == VitalLosses(w.trace) + if g.logged then 0 else 1
  {
    found, out := WithdrawSteps(s, w, m, username);
    var w1 := Withdraw(s, w, m, username).w;
    StepOfActAndLog(s, w1, DisableUser(m.keycloakId), DisableDraft(OFFBOARD, m, username), true);
    var g := ReachGate(s, w, m, username).disable;
    AppendTwice(StepsOf(w.trace), [Event(LookupAccount(username), found), Event(LogoutUser(m.keycloakId), out)],
                [Event(DisableUser(m.keycloakId), g.ok)], StepsOf(w1.trace), StepsOf(g.w.trace));
  }

  // ----- Steps behind the gate -----

  lemma KickMappedIsRoomEvents(s: Script, w: World, m: Member, b: PolicyBinding)
    ensures AllSince(w, KickMapped(s, w, OFFBOARD, m, b).w, RoomEvent)
  {
    var x := Expand(s, w, b.target.roomId);
    AttemptAddsOne(s, w, SpaceChildren(b.target.roomId));
    KicksAreRoomEvents(s, x.w, m, "kick_room_on_" + OFFBOARD, SubjectText(b.subject), Reversed(x.targets));
    AllSinceThen(w, x.w, KickMapped(s, w, OFFBOARD, m, b).w, RoomEvent);
  }

  lemma {:induction false} KickAllIsRoomEvents(s: Script, w: World, m: Member, bs: seq<PolicyBinding>, seen: set<string>)
    ensures AllSince(w, KickAllMapped(s, w, OFFBOARD, m, bs, seen).w, RoomEvent)
    decreases |bs|
  {
    if bs == [] {
    } else if bs[0].target.roomId in seen {
      KickAllIsRoomEvents(s, w, m, bs[1..], seen);
    } else {
      var w1 := KickMapped(s, w, OFFBOARD, m, bs[0]).w;
      KickMappedIsRoomEvents(s, w, m, bs[0]);
      KickAllIsRoomEvents(s, w1, m, bs[1..], seen + {bs[0].target.roomId});
      AllSinceThen(w, w1, KickAllMapped(s, w1, OFFBOARD, m, bs[1..], seen + {bs[0].target.roomId}).w, RoomEvent);
    }
  }

  lemma CleanRoomsSteps(s: Script, w: World, m: Member, synapse: bool, bs: seq<PolicyBinding>)
    ensures var w' := CleanRooms(s, w, m, synapse, bs).w;
            && AllSince(w, w', RoomEvent)
            && StepsOf(w'.trace) == StepsOf(w.trace) && VitalLosses(w'.trace) == VitalLosses(w.trace)
            && Expansions(w'.trace) == Expansions(w.trace) + (if synapse then UnseenRooms(bs, {}) else [])
            && w'.mas.accounts == w.mas.accounts
  {
    var w' := CleanRooms(s, w, m, synapse, bs).w;
    if synapse {
      KickAllIsRoomEvents(s, w, m, bs, {});
      EachRoomExpandedOnce(s, w, m, bs, {});
      var places := set r | r in MappedRooms(w.mx.spaces, bs) :: (r, m.matrixId);
      KickAllMappedStep(s, w, m, bs, {}, Scope("", {}, {}, places));
    }
    forall k | |w.trace| <= k < |w'.trace| ensures Minor(w'.trace[k]) { assert RoomEvent(w'.trace[k]); }
    MinorStretch(w.trace, w'.trace);
  }

  /** The account step, with or without a deactivation, and what its result says. */
  ghost predicate AccountSteps(steps: seq<Event>, accounts: map<string, string>, username: string) {
    && 1 <= |steps| <= 2
    && steps[0].call == LookupAccount(username)
    && (|steps| == 2 <==> steps[0].ok && username in accounts)
    && (|steps| == 2 ==> steps[1].call == DeactivateAccount(accounts[username]))
  }

  lemma CloseAccountSteps(s: Script, w: World, m: Member, username: string, warnings: seq<Warning>) returns (steps: seq<Event>)
    ensures AccountSteps(steps, w.mas.accounts, username)
    ensures var o := CloseAccount(s, w, m, username, warnings);
            && StepsOf(o.w.trace) == StepsOf(w.trace) + steps
            && (o.result.Err? <==> VitalLosses(o.w.trace) > VitalLosses(w.trace) || (|steps| == 2 && !steps[1].ok))
            && Expansions(o.w.trace) == Expansions(w.trace)
  {
    var look := LookupAccount(username);
    var w1 := Attempt(s, w, look);
    steps := [Event(look, Succeeds(s, w, look))];
    StepOfAttempt(s, w, look);
    ExpansionsGrow(s, w, look);
    if steps[0].ok && username in w1.mas.accounts {
      var account := w1.mas.accounts[username];
      var draft := DeactivateDraft(OFFBOARD, m, account, username);
      var g := ActAndLog(s, w1, DeactivateAccount(account), draft);
      StepOfActAndLog(s, w1, DeactivateAccount(account), draft, true);
      ActExpandsNothing(s, w1, DeactivateAccount(account), draft);
      AppendTwice(StepsOf(w.trace), steps, [Event(DeactivateAccount(account), g.ok)], StepsOf(w1.trace), StepsOf(g.w.trace));
      steps := steps + [Event(DeactivateAccount(account), g.ok)];
    }
  }

  // ----- The whole workflow -----

  /** Behind the gate: nothing if it stays shut, and otherwise the account step. */
  ghost predicate StepsBehind(open: bool, steps: seq<Event>, accounts: map<string, string>, username: string) {
    if open then AccountSteps(steps, accounts, username) else steps == []
  }

  lemma BehindGateSteps(s: Script, g: Gate, m: Member, username: string, synapse: bool, bs: seq<PolicyBinding>)
    returns (steps: seq<Event>)
    ensures StepsBehind(g.disable.ok && g.disable.logged, steps, g.disable.w.mas.accounts, username)
    ensures var o, w := PassGate(s, g, m, username, synapse, bs), g.disable.w;
            && StepsOf(o.w.trace) == StepsOf(w.trace) + steps
            && Expansions(o.w.trace)
               == Expansions(w.trace) + (if g.disable.ok && g.disable.logged && synapse then UnseenRooms(bs, {}) else [])
            && (o.result.Err? <==> || !g.disable.ok || !g.disable.logged
                                   || VitalLosses(o.w.trace) > VitalLosses(w.trace)
                                   || (|steps| == 2 && !steps[1].ok))
            && (!g.disable.ok || !g.disable.logged ==> o.w == w)
  {
    steps := [];
    if g.disable.ok && g.disable.logged {
      var rooms := CleanRooms(s, g.disable.w, m, synapse, bs);
      CleanRoomsSteps(s, g.disable.w, m, synapse, bs);
      steps := CloseAccountSteps(s, rooms.w, m, username, g.warnings + rooms.warnings);
    }
  }

  /**
   The steps for a user that could be fetched: the account is looked up, the user logged out and disabled,
   each tried exactly once whatever became of the others. Only a user who was disabled, with the entry
   written, gets to the account step.
   */
  ghost predicate KnownUserSteps(steps: seq<Event>, accounts: map<string, string>, id: string, username: string, lost: bool) {
    && 3 <= |steps|
    && steps[0].call == LookupAccount(username)
    && steps[1].call == LogoutUser(id)
    && steps[2].call == DisableUser(id)
    && StepsBehind(steps[2].ok && !lost, steps[3..], accounts, username)
  }

  /** The steps of a run: the user is fetched, and if that goes through the others follow. */
  ghost predicate OffboardingSteps(steps: seq<Event>, w: World, id: string, lost: bool) {
    && 1 <= |steps| && steps[0].call == GetUser(id)
    && (if steps[0].ok then id in w.kc.users && KnownUserSteps(steps[1..], w.mas.accounts, id, w.kc.users[id], lost) else |steps| == 1)
  }

  /** A step whose failure ends the run with an error. */
  predicate Fatal(e: Event) {
    !e.ok && (e.call.GetUser? || e.call.DisableUser? || e.call.DeactivateAccount?)
  }

  lemma KnownUserTakesSteps(s: Script, w: World, m: Member, username: string, synapse: bool, bs: seq<PolicyBinding>)
    returns (steps: seq<Event>, lost: bool)
    ensures KnownUserSteps(steps, w.mas.accounts, m.keycloakId, username, lost)
    ensures Shows(w, PassGate(s, ReachGate(s, w, m, username), m, username, synapse, bs), steps, lost,
                  RoomsBehind(steps[2].ok && !lost && synapse, bs))
  {
    var found, out := GateSteps(s, w, m, username);
    var g := ReachGate(s, w, m, username);
    var front := [Event(LookupAccount(username), found), Event(LogoutUser(m.keycloakId), out),
                  Event(DisableUser(m.keycloakId), g.disable.ok)];
    var behind := BehindGateSteps(s, g, m, username, synapse, bs);
    GateKeepsRest(s, w, m, username);
    AppendTwice(StepsOf(w.trace), front, behind, StepsOf(g.disable.w.trace),
                StepsOf(PassGate(s, g, m, username, synapse, bs).w.trace));
    lost, steps := !g.disable.logged, front + behind;
    FatalSteps(steps, front, behind);
    assert steps[3..] == behind;
  }

  lemma FatalSteps(steps: seq<Event>, front: seq<Event>, behind: seq<Event>)
    requires steps == front + behind && |front| == 3 && |behind| <= 2
    requires front[0].call.LookupAccount? && front[1].call.LogoutUser? && front[2].call.DisableUser?
    requires |behind| > 0 ==> behind[0].call.LookupAccount?
    requires |behind| > 1 ==> behind[1].call.DeactivateAccount?
    ensures (exists e :: e in steps && Fatal(e)) <==> !front[2].ok || (|behind| == 2 && !behind[1].ok)
  {
    assert steps[2] in steps;
    if |behind| == 2 { assert steps[4] == behind[1] && steps[4] in steps; }
    if e :| e in steps && Fatal(e) {
      var i :| 0 <= i < |steps| && steps[i] == e;
      assert i == 2 || i == 4;
    }
  }

  /** What a run shows: its steps, whether it ended with an error, and the rooms it expanded. */
  ghost predicate Shows(w: World, o: WorkflowRun, steps: seq<Event>, lost: bool, rooms: seq<string>) {
    && StepsOf(o.w.trace) == StepsOf(w.trace) + steps
    && (lost ==> VitalLosses(o.w.trace) > VitalLosses(w.trace))
    && (o.result.Err? <==> VitalLosses(o.w.trace) > VitalLosses(w.trace) || exists e :: e in steps && Fatal(e))
    && Expansions(o.w.trace) == Expansions(w.trace) + rooms
  }

  lemma ShowsAfter(w: World, w0: World, o: WorkflowRun, first: Event, rest: seq<Event>, lost: bool, rooms: seq<string>)
    requires StepsOf(w0.trace) == StepsOf(w.trace) + [first] && !Fatal(first)
    requires VitalLosses(w0.trace) == VitalLosses(w.trace) && Expansions(w0.trace) == Expansions(w.trace)
    requires Shows(w0, o, rest, lost, rooms)
    ensures Shows(w, o, [first] + rest, lost, rooms)
  {
    AppendTwice(StepsOf(w.trace), [first], rest, StepsOf(w0.trace), StepsOf(o.w.trace));
    FatalInSum(first, rest);
  }

  /** A fetched user's run is the run from the gate on. */
  lemma FetchedRun(s: Script, w: World, id: string, synapse: bool, bs: seq<PolicyBinding>, domain: string)
    returns (w0: World, m: Member)
    requires Succeeds(s, w, GetUser(id))
    ensures m.keycloakId == id && w0.mas == w.mas && w0.trace == w.trace + [Event(GetUser(id), true)]
    ensures Offboard(s, w, id, synapse, bs, domain)
         == PassGate(s, ReachGate(s, w0, m, w.kc.users[id]), m, w.kc.users[id], synapse, bs)
    ensures StepsOf(w0.trace) == StepsOf(w.trace) + [Event(GetUser(id), true)]
    ensures VitalLosses(w0.trace) == VitalLosses(w.trace) && Expansions(w0.trace) == Expansions(w.trace)
  {
    w0, m := Attempt(s, w, GetUser(id)), MemberOf(id, w.kc.users[id], domain);
    StepOfAttempt(s, w, GetUser(id));
    ExpansionsGrow(s, w, GetUser(id));
  }

  /** The rooms that are expanded behind the gate. */
  function RoomsBehind(open: bool, bs: seq<PolicyBinding>): seq<string> {
    if open then UnseenRooms(bs, {}) else []
  }

  /** The run for a user that was fetched, seen from before the fetch. */
  lemma FetchedUserTakesSteps(s: Script, w: World, id: string, synapse: bool, bs: seq<PolicyBinding>, domain: string)
    returns (rest: seq<Event>, lost: bool)
    requires Succeeds(s, w, GetUser(id))
    ensures KnownUserSteps(rest, w.mas.accounts, id, w.kc.users[id], lost)
    ensures Shows(w, Offboard(s, w, id, synapse, bs, domain), [Event(GetUser(id), true)] + rest, lost,
                  RoomsBehind(rest[2].ok && !lost && synapse, bs))
  {
    var w0, m := FetchedRun(s, w, id, synapse, bs, domain);
    rest, lost := KnownUserTakesSteps(s, w0, m, w.kc.users[id], synapse, bs);
    ShowsAfter(w, w0, Offboard(s, w, id, synapse, bs, domain), Event(GetUser(id), true), rest, lost,
               RoomsBehind(rest[2].ok && !lost && synapse, bs));
  }

  lemma UnknownUserTakesOneStep(s: Script, w: World, id: string, synapse: bool, bs: seq<PolicyBinding>, domain: string)
    requires !Succeeds(s, w, GetUser(id))
    ensures Shows(w, Offboard(s, w, id, synapse, bs, domain), [Event(GetUser(id), false)], false, [])
  {
    var first := Event(GetUser(id), false);
    StepOfAttempt(s, w, GetUser(id));
    ExpansionsGrow(s, w, GetUser(id));
    assert first in [first] && Fatal(first);
  }

  lemma FatalInSum(first: Event, rest: seq<Event>)
    ensures (exists e :: e in [first] + rest && Fatal(e)) <==> Fatal(first) || exists e :: e in rest && Fatal(e)
  {
    assert first in [first] + rest && forall e :: e in [first] + rest <==> e == first || e in rest;
  }

  /**
   Whatever fails, offboarding takes exactly these steps. `lost` says that the entry about the disabled
   account was lost. When the user was disabled and that entry written, every mapped room is expanded
   once (if there is Synapse). The result is an error exactly if the user could not be fetched or
   disabled, or the account not deactivated, or the entry about one of the latter two was lost.
   */
  lemma OffboardTakesItsSteps(s: Script, w: World, id: string, synapse: bool, bs: seq<PolicyBinding>, domain: string)
    returns (steps: seq<Event>, lost: bool)
    ensures OffboardingSteps(steps, w, id, lost)
    ensures Shows(w, Offboard(s, w, id, synapse, bs, domain), steps, lost,
                  RoomsBehind(steps[0].ok && steps[3].ok && !lost && synapse, bs))
  {
    var first := Event(GetUser(id), Succeeds(s, w, GetUser(id)));
    if first.ok {
      var rest;
      rest, lost := FetchedUserTakesSteps(s, w, id, synapse, bs, domain);
      steps := [first] + rest;
      assert steps[1..] == rest && steps[3] == rest[2];
    } else {
      UnknownUserTakesOneStep(s, w, id, synapse, bs, domain);
      steps, lost := [first], false;
    }
  }

  /** Up to the gate no room is expanded, and the accounts stay known. */
  lemma GateKeepsRest(s: Script, w: World, m: Member, username: string)
    ensures var w' := ReachGate(s, w, m, username).disable.w;
            Expansions(w'.trace) == Expansions(w.trace) && w'.mas.accounts == w.mas.accounts
  {
    var w1, w2 := Attempt(s, w, LookupAccount(username)), RevokeSessions(s, w, OFFBOARD, m, username).w;
    var w3 := Withdraw(s, w, m, username).w;
    ExpansionsGrow(s, w, LookupAccount(username));
    RevocationTrace(s, w, m, username);
    SessionsExpandNothing(w1.trace, w2.trace);
    ActExpandsNothing(s, w2, LogoutUser(m.keycloakId), LogoutDraft(OFFBOARD, m));
    ActExpandsNothing(s, w3, DisableUser(m.keycloakId), DisableDraft(OFFBOARD, m, username));
    var sc := ScopeFor(w, m, username, {});
    GateEffects(s, w, m, username, {}, sc);
  }

  lemma {:induction false} SessionsExpandNothing(t: seq<Event>, t': seq<Event>)
    requires t <= t' && forall k | |t| <= k < |t'| :: SessionEvent(t'[k])
    ensures Expansions(t') == Expansions(t)
    decreases |t'|
  {
    if |t| == |t'| {
      assert t == t';
    } else {
      SessionsExpandNothing(t, t'[..|t'| - 1]);
    }
  }

  // ----- Sessions, seen from the whole run -----

  predicate FetchesNothing(e: Event) {
    !e.call.FetchSessions?
  }

  lemma RoomsFetchNothing(w: World, w': World)
    requires AllSince(w, w', RoomEvent)
    ensures AllSince(w, w', FetchesNothing)
  {
    forall k | |w.trace| <= k < |w'.trace| ensures FetchesNothing(w'.trace[k]) { assert RoomEvent(w'.trace[k]); }
  }

  lemma ActFetchesNothing(s: Script, w: World, call: Call, draft: AuditEntry)
    requires !call.FetchSessions?
    ensures AllSince(w, ActAndLog(s, w, call, draft).w, FetchesNothing)
  {
    ActAndLogAddsTwo(s, w, call, draft);
  }

  lemma ClosingFetchesNothing(s: Script, w: World, m: Member, username: string, warnings: seq<Warning>)
    ensures AllSince(w, CloseAccount(s, w, m, username, warnings).w, FetchesNothing)
  {
    var w1 := Attempt(s, w, LookupAccount(username));
    AttemptAddsOne(s, w, LookupAccount(username));
    if Succeeds(s, w, LookupAccount(username)) && username in w1.mas.accounts {
      var account := w1.mas.accounts[username];
      var draft := DeactivateDraft(OFFBOARD, m, account, username);
      ActFetchesNothing(s, w1, DeactivateAccount(account), draft);
      AllSinceThen(w, w1, ActAndLog(s, w1, DeactivateAccount(account), draft).w, FetchesNothing);
    }
  }

  lemma BehindGateFetchesNothing(s: Script, g: Gate, m: Member, username: string, synapse: bool, bs: seq<PolicyBinding>)
    ensures AllSince(g.disable.w, PassGate(s, g, m, username, synapse, bs).w, FetchesNothing)
  {
    if StepResult(g.disable).Ok? {
      var rooms := CleanRooms(s, g.disable.w, m, synapse, bs);
      CleanRoomsSteps(s, g.disable.w, m, synapse, bs);
      RoomsFetchNothing(g.disable.w, rooms.w);
      ClosingFetchesNothing(s, rooms.w, m, username, g.warnings + rooms.warnings);
      AllSinceThen(g.disable.w, rooms.w, PassGate(s, g, m, username, synapse, bs).w, FetchesNothing);
    }
  }

  /** Sessions are fetched by the revocation only. */
  lemma OnlyRevocationFetches(s: Script, w: World, m: Member, username: string, synapse: bool, bs: seq<PolicyBinding>)
    ensures AllSince(RevokeSessions(s, w, OFFBOARD, m, username).w,
                     PassGate(s, ReachGate(s, w, m, username), m, username, synapse, bs).w, FetchesNothing)
  {
    var w1, w2 := RevokeSessions(s, w, OFFBOARD, m, username).w, Withdraw(s, w, m, username).w;
    var g := ReachGate(s, w, m, username);
    ActFetchesNothing(s, w1, LogoutUser(m.keycloakId), LogoutDraft(OFFBOARD, m));
    ActFetchesNothing(s, w2, DisableUser(m.keycloakId), DisableDraft(OFFBOARD, m, username));
    AllSinceThen(w1, w2, g.disable.w, FetchesNothing);
    BehindGateFetchesNothing(s, g, m, username, synapse, bs);
    AllSinceThen(w1, g.disable.w, PassGate(s, g, m, username, synapse, bs).w, FetchesNothing);
  }

  lemma TriedInLongerRun(w: World, w0: World, w1: World, w2: World, call: Call)
    requires w.trace <= w0.trace && w1.trace <= w2.trace && Tried(w0, w1, call)
    ensures Tried(w, w2, call)
  {
    var k :| |w0.trace| <= k < |w1.trace| && w1.trace[k].call == call;
    assert w2.trace[k] == w1.trace[k];
  }

  lemma FetchedUserTriesSessions(s: Script, w: World, m: Member, username: string, synapse: bool, bs: seq<PolicyBinding>,
                                 kind: SessionKind, x: Session, k: nat, w': World)
    requires username in w.mas.accounts && w' == PassGate(s, ReachGate(s, w, m, username), m, username, synapse, bs).w
    requires |w.trace| <= k < |w'.trace| && w'.trace[k] == Event(FetchSessions(w.mas.accounts[username], kind), true)
    requires x in SessionsOf(w.mas, w.mas.accounts[username]) && x.kind == kind && x !in w.mas.finished
    ensures Tried(w, w', FinishSession(x))
  {
    var w1 := RevokeSessions(s, w, OFFBOARD, m, username).w;
    OnlyRevocationFetches(s, w, m, username, synapse, bs);
    assert k >= |w1.trace| ==> FetchesNothing(w'.trace[k]);
    assert w'.trace[k] == w1.trace[k];
    FetchedSessionsAreTried(s, w, m, username, kind, x, k);
    TriedInLongerRun(w, w, w1, w', FinishSession(x));
  }

  lemma UnfetchedRun(s: Script, w: World, id: string, synapse: bool, bs: seq<PolicyBinding>, domain: string)
    requires !Succeeds(s, w, GetUser(id))
    ensures Offboard(s, w, id, synapse, bs, domain).w.trace == w.trace + [Event(GetUser(id), false)]
  {
  }

  lemma SessionsFromStart(w: World, w0: World, w': World, kind: SessionKind, x: Session, k: nat, account: string, user: Event)
    requires w0.trace == w.trace + [user] && user.call.GetUser? && w0.trace <= w'.trace
    requires |w.trace| <= k < |w'.trace| && w'.trace[k] == Event(FetchSessions(account, kind), true)
    ensures |w0.trace| <= k
    ensures Tried(w0, w', FinishSession(x)) ==> Tried(w, w', FinishSession(x))
  {
    assert w'.trace[|w.trace|] == user;
    if Tried(w0, w', FinishSession(x)) { TriedInLongerRun(w, w0, w', w', FinishSession(x)); }
  }

  /**
   Whatever fails: if in the course of a run a family of the user's sessions was fetched, then the run
   tries to finish every session in it that was not finished before.
   */
  lemma OffboardTriesFetchedSessions(s: Script, w: World, id: string, synapse: bool, bs: seq<PolicyBinding>, domain: string,
                                     kind: SessionKind, x: Session, k: nat, w': World)
    requires id in w.kc.users && w.kc.users[id] in w.mas.accounts && w' == Offboard(s, w, id, synapse, bs, domain).w
    requires |w.trace| <= k < |w'.trace|
    requires w'.trace[k] == Event(FetchSessions(w.mas.accounts[w.kc.users[id]], kind), true)
    requires x in SessionsOf(w.mas, w.mas.accounts[w.kc.users[id]]) && x.kind == kind && x !in w.mas.finished
    ensures Tried(w, w', FinishSession(x))
  {
    if Succeeds(s, w, GetUser(id)) {
      var w0, m := FetchedRun(s, w, id, synapse, bs, domain);
      var username := w.kc.users[id];
      RunExtends(s, w0, m, username, synapse, bs);
      SessionsFromStart(w, w0, w', kind, x, k, w.mas.accounts[username], Event(GetUser(id), true));
      FetchedUserTriesSessions(s, w0, m, username, synapse, bs, kind, x, k, w');
    } else {
      UnfetchedRun(s, w, id, synapse, bs, domain);
    }
  }

  lemma RunExtends(s: Script, w: World, m: Member, username: string, synapse: bool, bs: seq<PolicyBinding>)
    ensures w.trace <= PassGate(s, ReachGate(s, w, m, username), m, username, synapse, bs).w.trace
  {
    GateOrder(s, w, m, username);
    GateIsPrefix(s, ReachGate(s, w, m, username), m, username, synapse, bs);
  }

  // ----- Whom the entries are about -----

  /** An entry of the run for the user with this id and name. */
  predicate EntryFor(e: AuditEntry, id: string, username: string, domain: string) {
    && e.keycloakId == id
    && e.matrixId == "@" + username + ":" + domain
    && (e.about.IdentityDetail? ==> e.about.username == username)
    && (e.about.AuthDetail? ==> e.about.username == username)
  }

  ghost predicate EntriesFor(w: World, w': World, id: string, username: string, domain: string) {
    w.trace <= w'.trace &&
    forall k | |w.trace| <= k < |w'.trace| && w'.trace[k].call.WriteAudit? ::
      EntryFor(w'.trace[k].call.entry, id, username, domain)
  }

  lemma EntriesThen(w: World, w1: World, w2: World, id: string, username: string, domain: string)
    requires EntriesFor(w, w1, id, username, domain) && EntriesFor(w1, w2, id, username, domain)
    ensures EntriesFor(w, w2, id, username, domain)
  {
  }

  lemma ActEntry(s: Script, w: World, call: Call, draft: AuditEntry, id: string, username: string, domain: string)
    requires !call.WriteAudit? && EntryFor(draft, id, username, domain)
    ensures EntriesFor(w, ActAndLog(s, w, call, draft).w, id, username, domain)
  {
    ActAndLogAddsTwo(s, w, call, draft);
  }

  lemma {:induction false} SessionEntries(s: Script, w: World, m: Member, xs: seq<Session>, username: string, domain: string)
    requires m.matrixId == "@" + username + ":" + domain
    ensures EntriesFor(w, FinishAll(s, w, OFFBOARD, m, xs).w, m.keycloakId, username, domain)
    decreases |xs|
  {
    if xs == [] {
    } else {
      var w1 := FinishOne(s, w, OFFBOARD, m, xs[0]).w;
      ActEntry(s, w, FinishSession(xs[0]), SessionDraft(OFFBOARD, m, xs[0]), m.keycloakId, username, domain);
      SessionEntries(s, w1, m, xs[1..], username, domain);
      EntriesThen(w, w1, FinishAll(s, w1, OFFBOARD, m, xs[1..]).w, m.keycloakId, username, domain);
    }
  }

  lemma NoEntries(w: World, w': World, id: string, username: string, domain: string)
    requires AllSince(w, w', WritesNothing)
    ensures EntriesFor(w, w', id, username, domain)
  {
    assert forall k | |w.trace| <= k < |w'.trace| :: WritesNothing(w'.trace[k]);
  }

  lemma RevocationEntries(s: Script, w: World, m: Member, username: string, domain: string)
    requires m.matrixId == "@" + username + ":" + domain
    ensures EntriesFor(w, RevokeSessions(s, w, OFFBOARD, m, username).w, m.keycloakId, username, domain)
  {
    var w1 := Attempt(s, w, LookupAccount(username));
    AttemptAddsOne(s, w, LookupAccount(username));
    if Succeeds(s, w, LookupAccount(username)) && username in w1.mas.accounts {
      var l := ListActive(s, w1, w1.mas.accounts[username]);
      ListingWritesNothing(s, w1, w1.mas.accounts[username]);
      NoEntries(w1, l.w, m.keycloakId, username, domain);
      EntriesThen(w, w1, l.w, m.keycloakId, username, domain);
      SessionEntries(s, l.w, m, l.sessions, username, domain);
      EntriesThen(w, l.w, FinishAll(s, l.w, OFFBOARD, m, l.sessions).w, m.keycloakId, username, domain);
    }
  }

  predicate WritesNothing(e: Event) {
    !e.call.WriteAudit?
  }

  lemma ListingWritesNothing(s: Script, w: World, account: string)
    ensures AllSince(w, ListActive(s, w, account).w, WritesNothing)
  {
    var w1 := Attempt(s, w, ListSessions(account));
    var w2 := Attempt(s, w1, FetchSessions(account, Compat));
    AttemptAddsOne(s, w, ListSessions(account));
    AttemptAddsOne(s, w1, FetchSessions(account, Compat));
    AttemptAddsOne(s, w2, FetchSessions(account, OAuth2));
  }

  lemma {:induction false} RoomEntries(s: Script, w: World, m: Member, bs: seq<PolicyBinding>, seen: set<string>,
                                       username: string, domain: string)
    requires m.matrixId == "@" + username + ":" + domain
    ensures EntriesFor(w, KickAllMapped(s, w, OFFBOARD, m, bs, seen).w, m.keycloakId, username, domain)
    decreases |bs|
  {
    if bs == [] {
    } else if bs[0].target.roomId in seen {
      RoomEntries(s, w, m, bs[1..], seen, username, domain);
    } else {
      var x := Expand(s, w, bs[0].target.roomId);
      var w1 := KickMapped(s, w, OFFBOARD, m, bs[0]).w;
      AttemptAddsOne(s, w, SpaceChildren(bs[0].target.roomId));
      KickEntries(s, x.w, m, "kick_room_on_" + OFFBOARD, SubjectText(bs[0].subject), Reversed(x.targets));
      RoomEntries(s, w1, m, bs[1..], seen + {bs[0].target.roomId}, username, domain);
      EntriesThen(w, w1, KickAllMapped(s, w1, OFFBOARD, m, bs[1..], seen + {bs[0].target.roomId}).w,
                  m.keycloakId, username, domain);
    }
  }

  /** Whatever fails, the entries for a binding's rooms say that the user was kicked for that binding's subject. */
  lemma MappedRoomEntries(s: Script, w: World, m: Member, b: PolicyBinding)
    ensures EntriesSince(w, KickMapped(s, w, OFFBOARD, m, b).w, m, "kick_room_on_offboard", Requirements.Written(b.subject))
  {
    var x := Expand(s, w, b.target.roomId);
    AttemptAddsOne(s, w, SpaceChildren(b.target.roomId));
    assert "kick_room_on_" + OFFBOARD == "kick_room_on_offboard" && SubjectText(b.subject) == Requirements.Written(b.subject);
    KickEntries(s, x.w, m, "kick_room_on_offboard", Requirements.Written(b.subject), Reversed(x.targets));
  }

  lemma GateEntries(s: Script, w: World, m: Member, username: string, domain: string)
    requires m.matrixId == "@" + username + ":" + domain
    ensures EntriesFor(w, ReachGate(s, w, m, username).disable.w, m.keycloakId, username, domain)
  {
    var id := m.keycloakId;
    var w1, w2 := RevokeSessions(s, w, OFFBOARD, m, username).w, Withdraw(s, w, m, username).w;
    RevocationEntries(s, w, m, username, domain);
    ActEntry(s, w1, LogoutUser(id), LogoutDraft(OFFBOARD, m), id, username, domain);
    EntriesThen(w, w1, w2, id, username, domain);
    ActEntry(s, w2, DisableUser(id), DisableDraft(OFFBOARD, m, username), id, username, domain);
    EntriesThen(w, w2, ReachGate(s, w, m, username).disable.w, id, username, domain);
  }

  lemma ClosingEntries(s: Script, w: World, m: Member, username: string, warnings: seq<Warning>, domain: string)
    requires m.matrixId == "@" + username + ":" + domain
    ensures EntriesFor(w, CloseAccount(s, w, m, username, warnings).w, m.keycloakId, username, domain)
  {
    var w1 := Attempt(s, w, LookupAccount(username));
    AttemptAddsOne(s, w, LookupAccount(username));
    if Succeeds(s, w, LookupAccount(username)) && username in w1.mas.accounts {
      var account := w1.mas.accounts[username];
      var draft := DeactivateDraft(OFFBOARD, m, account, username);
      ActEntry(s, w1, DeactivateAccount(account), draft, m.keycloakId, username, domain);
      EntriesThen(w, w1, ActAndLog(s, w1, DeactivateAccount(account), draft).w, m.keycloakId, username, domain);
    }
  }

  lemma BehindGateEntries(s: Script, g: Gate, m: Member, username: string, synapse: bool, bs: seq<PolicyBinding>, domain: string)
    requires m.matrixId == "@" + username + ":" + domain
    ensures EntriesFor(g.disable.w, PassGate(s, g, m, username, synapse, bs).w, m.keycloakId, username, domain)
  {
    if StepResult(g.disable).Ok? {
      var rooms := CleanRooms(s, g.disable.w, m, synapse, bs);
      if synapse { RoomEntries(s, g.disable.w, m, bs, {}, username, domain); }
      ClosingEntries(s, rooms.w, m, username, g.warnings + rooms.warnings, domain);
      EntriesThen(g.disable.w, rooms.w, PassGate(s, g, m, username, synapse, bs).w, m.keycloakId, username, domain);
    }
  }

  /** Whatever fails, every audit entry of a run names the user's Keycloak id, Matrix id and, where it has one, username. */
  lemma OffboardEntries(s: Script, w: World, id: string, synapse: bool, bs: seq<PolicyBinding>, domain: string)
    requires id in w.kc.users
    ensures EntriesFor(w, Offboard(s, w, id, synapse, bs, domain).w, id, w.kc.users[id], domain)
  {
    AttemptAddsOne(s, w, GetUser(id));
    if Succeeds(s, w, GetUser(id)) {
      var username := w.kc.users[id];
      var w0, m := Attempt(s, w, GetUser(id)), MemberOf(id, username, domain);
      var g := ReachGate(s, w0, m, username);
      GateEntries(s, w0, m, username, domain);
      BehindGateEntries(s, g, m, username, synapse, bs, domain);
      EntriesThen(w0, g.disable.w, Offboard(s, w, id, synapse, bs, domain).w, id, username, domain);
      EntriesThen(w, w0, Offboard(s, w, id, synapse, bs, domain).w, id, username, domain);
    }
  }

  // ----- A failure in one room -----

  /** The state after the first binding, whose room has not been seen. */
  lemma FirstMapped(s: Script, w: World, m: Member, bs: seq<PolicyBinding>, seen: set<string>, room: string) returns (w1: World)
    requires bs != [] && bs[0].target.roomId !in seen
    requires Untroubled(w, KickAllMapped(s, w, OFFBOARD, m, bs, seen).w, w.mx.spaces, m.matrixId, room)
    ensures var seen' := seen + {bs[0].target.roomId};
            && KickAllMapped(s, w, OFFBOARD, m, bs, seen).w == KickAllMapped(s, w1, OFFBOARD, m, bs[1..], seen').w
            && Untroubled(w1, KickAllMapped(s, w1, OFFBOARD, m, bs[1..], seen').w, w.mx.spaces, m.matrixId, room)
    ensures w1.mx.spaces == w.mx.spaces
    ensures Reaches(w.mx.spaces, bs[0].target.roomId, room) ==> (room, m.matrixId) !in w1.mx.members
  {
    var place := bs[0].target.roomId;
    var x := Expand(s, w, place);
    w1 := KickMapped(s, w, OFFBOARD, m, bs[0]).w;
    var w' := KickAllMapped(s, w1, OFFBOARD, m, bs[1..], seen + {place}).w;
    KickMappedIsRoomEvents(s, w, m, bs[0]);
    KickAllIsRoomEvents(s, w1, m, bs[1..], seen + {place});
    Parts(w, w1, w', w.mx.spaces, m.matrixId, room);
    MappedRoomIsEmptied(s, w, m, bs[0], room);
  }

  lemma VisitedRoomIsEmptied(s: Script, w: World, m: Member, action: string, subject: string, rooms: seq<string>,
                             spaces: Spaces, room: string)
    requires Untroubled(w, KickRooms(s, w, m, action, subject, rooms).w, spaces, m.matrixId, room) && room in rooms
    ensures (room, m.matrixId) !in KickRooms(s, w, m, action, subject, rooms).w.mx.members
  {
    KickRoomsKeepOn(s, w, m, action, subject, rooms, spaces, room);
    assert !View(KickRooms(s, w, m, action, subject, rooms).w, m.matrixId, room).member;
  }

  lemma KickMappedKeepsSpaces(s: Script, w: World, m: Member, b: PolicyBinding)
    ensures KickMapped(s, w, OFFBOARD, m, b).w.mx.spaces == w.mx.spaces
  {
    var x := Expand(s, w, b.target.roomId);
    assert "kick_room_on_" + OFFBOARD == "kick_room_on_offboard";
    HonestKickRooms(s, x.w, m, "kick_room_on_" + OFFBOARD, SubjectText(b.subject), Reversed(x.targets));
  }

  lemma MappedRoomIsEmptied(s: Script, w: World, m: Member, b: PolicyBinding, room: string)
    requires Untroubled(w, KickMapped(s, w, OFFBOARD, m, b).w, w.mx.spaces, m.matrixId, room)
    ensures KickMapped(s, w, OFFBOARD, m, b).w.mx.spaces == w.mx.spaces
    ensures Reaches(w.mx.spaces, b.target.roomId, room) ==>
            (room, m.matrixId) !in KickMapped(s, w, OFFBOARD, m, b).w.mx.members
  {
    var x := Expand(s, w, b.target.roomId);
    var action, subject, order := "kick_room_on_" + OFFBOARD, SubjectText(b.subject), Reversed(x.targets);
    KickMappedKeepsSpaces(s, w, m, b);
    AttemptAddsOne(s, w, SpaceChildren(b.target.roomId));
    KickRoomsExtend(s, x.w, m, action, subject, order);
    Parts(w, x.w, KickRooms(s, x.w, m, action, subject, order).w, w.mx.spaces, m.matrixId, room);
    ExpansionReaches(s, w, b.target.roomId, m.matrixId, room);
    ReversedHasSameElements(x.targets, room);
    if room in order { VisitedRoomIsEmptied(s, x.w, m, action, subject, order, w.mx.spaces, room); }
  }

  /**
   Whatever else fails: a mapped room is empty of the user after the clean-up, unless a call that
   concerns this room failed.
   */
  lemma {:induction false} UntroubledRoomsAreEmptied(s: Script, w: World, m: Member, bs: seq<PolicyBinding>,
                                                     seen: set<string>, room: string)
    requires Untroubled(w, KickAllMapped(s, w, OFFBOARD, m, bs, seen).w, w.mx.spaces, m.matrixId, room)
    ensures (exists b :: b in bs && b.target.roomId !in seen && Reaches(w.mx.spaces, b.target.roomId, room)) ==>
            (room, m.matrixId) !in KickAllMapped(s, w, OFFBOARD, m, bs, seen).w.mx.members
    decreases |bs|
  {
    if bs == [] {
    } else if bs[0].target.roomId in seen {
      UntroubledRoomsAreEmptied(s, w, m, bs[1..], seen, room);
      assert forall b :: b in bs <==> b == bs[0] || b in bs[1..];
    } else {
      var seen' := seen + {bs[0].target.roomId};
      var w1 := FirstMapped(s, w, m, bs, seen, room);
      UntroubledRoomsAreEmptied(s, w1, m, bs[1..], seen', room);
      EachRoomKickedOnce(s, w1, m, bs[1..], seen', m.matrixId, room);
      assert View(KickAllMapped(s, w1, OFFBOARD, m, bs[1..], seen').w, m.matrixId, room).member ==> View(w1, m.matrixId, room).member;
      assert forall b :: b in bs <==> b == bs[0] || b in bs[1..];
    }
  }

  // ----- The warning for a missing Synapse -----

  /** A run that gets through says that rooms were not cleaned up if there are any and no Synapse. */
  lemma MissingSynapseIsSaid(s: Script, w: World, id: string, synapse: bool, bs: seq<PolicyBinding>, domain: string)
    requires Offboard(s, w, id, synapse, bs, domain).result.Ok?
    ensures !synapse && bs != [] ==> RoomsNotCleanedUp in Offboard(s, w, id, synapse, bs, domain).result.value
  {
    OffboardIsSound(s, w, id, synapse, bs, domain);
  }
}
