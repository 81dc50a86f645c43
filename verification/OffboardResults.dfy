/** What offboarding guarantees under every fault script: bounded effects, convergence, order, and an honest log. */
module OffboardResults {
  import opened Wrappers
  import opened Policy
  import opened Upstream
  import opened Rooms
  import opened Lifecycle

  // ----- The scope of an offboarding -----

  /** Everything one offboarding may change. */
  datatype Scope = Scope(id: string, accounts: set<string>, sessions: set<Session>, places: set<(string, string)>)

  function MappedRooms(spaces: Spaces, bs: seq<PolicyBinding>): set<string> {
    if bs == [] then {}
    else (set r | r in Targets(spaces, bs[0].target.roomId)) + MappedRooms(spaces, bs[1..])
  }

  function SessionsOf(mas: Mas, account: string): set<Session> {
    if account in mas.sessions then set x | x in mas.sessions[account] else {}
  }

  function ScopeFor(w: World, m: Member, username: string, rooms: set<string>): Scope {
    var known := username in w.mas.accounts;
    Scope(
      m.keycloakId,
      if known then {w.mas.accounts[username]} else {},
      if known then SessionsOf(w.mas, w.mas.accounts[username]) else {},
      set r | r in rooms :: (r, m.matrixId))
  }

  function ScopeOf(w: World, id: string, synapse: bool, bs: seq<PolicyBinding>, domain: string): Scope
    requires id in w.kc.users
  {
    ScopeFor(w, MemberOf(id, w.kc.users[id], domain), w.kc.users[id], RoomsInScope(w, synapse, bs))
  }

  function RoomsInScope(w: World, synapse: bool, bs: seq<PolicyBinding>): set<string> {
    if synapse then MappedRooms(w.mx.spaces, bs) else {}
  }

  /** The three systems after a complete offboarding: logged out, disabled, absent, finished, deactivated. */
  function Cleaned(w: World, sc: Scope): World {
    w.(
      kc := w.kc.(disabled := w.kc.disabled + {sc.id}, loggedOut := w.kc.loggedOut + {sc.id}),
      mas := w.mas.(finished := w.mas.finished + sc.sessions, deactivated := w.mas.deactivated + sc.accounts),
      mx := w.mx.(members := w.mx.members - sc.places))
  }

  /** From `w` to `w'` some of the scope was cleaned up, and nothing else changed. */
  ghost predicate Within(w: World, w': World, sc: Scope) {
    && w'.kc.users == w.kc.users
    && w.kc.disabled <= w'.kc.disabled <= w.kc.disabled + {sc.id}
    && w.kc.loggedOut <= w'.kc.loggedOut <= w.kc.loggedOut + {sc.id}
    && w'.mas.accounts == w.mas.accounts
    && w'.mas.sessions == w.mas.sessions
    && w.mas.finished <= w'.mas.finished <= w.mas.finished + sc.sessions
    && w.mas.deactivated <= w'.mas.deactivated <= w.mas.deactivated + sc.accounts
    && w'.mx.spaces == w.mx.spaces
    && w'.mx.power == w.mx.power
    && w.mx.members - sc.places <= w'.mx.members <= w.mx.members
  }

  ghost predicate Complete(w: World, sc: Scope) {
    && sc.id in w.kc.disabled
    && sc.id in w.kc.loggedOut
    && sc.sessions <= w.mas.finished
    && sc.accounts <= w.mas.deactivated
    && sc.places !! w.mx.members
  }

  lemma WithinThen(w: World, w1: World, w2: World, sc: Scope)
    requires Within(w, w1, sc) && Within(w1, w2, sc)
    ensures Within(w, w2, sc)
  {
  }

  lemma PartialCleanupKeepsGoal(w: World, w': World, sc: Scope)
    requires Within(w, w', sc)
    ensures SameSystems(Cleaned(w', sc), Cleaned(w, sc))
    ensures Complete(w', sc) ==> SameSystems(w', Cleaned(w, sc))
  {
  }

  // ----- Every step, whatever fails -----

  /** The audit trail stays true, and the warnings name exactly the failed calls. */
  ghost predicate Sound(w: World, o: Outcome) {
    && (InSync(w) ==> InSync(o.w))
    && NamesFailures(w, o)
    && w.trace <= o.w.trace
  }

  lemma SoundThen(w: World, o: Outcome, p: Outcome)
    requires Sound(w, o) && Sound(o.w, p)
    ensures Sound(w, Outcome(p.w, o.warnings + p.warnings))
  {
    NamesThen(w, o, p);
  }

  lemma SoundRead(s: Script, w: World, call: Call)
    requires !Audited(call) && !call.WriteAudit? && !call.SetPowerLevel?
    ensures Sound(w, Outcome(Attempt(s, w, call), if Succeeds(s, w, call) then [] else [Complaint(call)]))
    ensures SameSystems(w, Attempt(s, w, call))
  {
    TraceGrows(w.trace, Event(call, Succeeds(s, w, call)));
    NamesOfAttempt(s, w, call);
  }

  lemma SoundAct(s: Script, w: World, call: Call, draft: AuditEntry)
    requires Audited(call) && Claim(draft).call == call
    ensures var g := ActAndLog(s, w, call, draft);
            Sound(w, Outcome(g.w, LogWarnings(g) + if g.ok then [] else [Complaint(call)]))
  {
    if InSync(w) { ActAndLogKeepsSync(s, w, call, draft); }
    NamesOfActAndLog(s, w, call, draft);
  }

  lemma SystemsAfterAct(s: Script, w: World, call: Call, draft: AuditEntry)
    ensures var g := ActAndLog(s, w, call, draft);
            SameSystems(g.w, if g.ok then Effect(w, call) else w)
  {
  }

  lemma FinishOneStep(s: Script, w: World, m: Member, x: Session, sc: Scope)
    requires x in sc.sessions
    ensures var o := FinishOne(s, w, OFFBOARD, m, x);
            Sound(w, o) && Within(w, o.w, sc) && (o.warnings == [] ==> x in o.w.mas.finished)
  {
    SoundAct(s, w, FinishSession(x), SessionDraft(OFFBOARD, m, x));
    SystemsAfterAct(s, w, FinishSession(x), SessionDraft(OFFBOARD, m, x));
  }

  lemma {:induction false} FinishAllStep(s: Script, w: World, m: Member, xs: seq<Session>, sc: Scope)
    requires forall x | x in xs :: x in sc.sessions
    ensures var o := FinishAll(s, w, OFFBOARD, m, xs);
            && Sound(w, o) && Within(w, o.w, sc)
            && (o.warnings == [] ==> forall x | x in xs :: x in o.w.mas.finished)
    decreases |xs|
  {
    if xs == [] {
    } else {
      var o := FinishOne(s, w, OFFBOARD, m, xs[0]);
      FinishOneStep(s, w, m, xs[0], sc);
      var p := FinishAll(s, o.w, OFFBOARD, m, xs[1..]);
      FinishAllStep(s, o.w, m, xs[1..], sc);
      SoundThen(w, o, p);
      WithinThen(w, o.w, p.w, sc);
    }
  }

  lemma {:induction false} ActiveIsExact(xs: seq<Session>, finished: set<Session>, kind: SessionKind, x: Session)
    ensures x in Active(xs, finished, kind) <==> x in xs && x.kind == kind && x !in finished
  {
    if xs == [] {
    } else {
      ActiveIsExact(xs[1..], finished, kind, x);
    }
  }

  lemma FetchFamilyStep(s: Script, w: World, account: string, kind: SessionKind)
    ensures var l := FetchFamily(s, w, account, kind);
            && Sound(w, Outcome(l.w, l.warnings)) && SameSystems(w, l.w)
            && (forall x | x in l.sessions :: x in SessionsOf(w.mas, account))
            && (l.warnings == [] ==> forall x | x in SessionsOf(w.mas, account) && x.kind == kind ::
                 x in l.sessions || x in w.mas.finished)
  {
    SoundRead(s, w, FetchSessions(account, kind));
    if account in w.mas.sessions {
      forall x { ActiveIsExact(w.mas.sessions[account], w.mas.finished, kind, x); }
    }
  }

  lemma ListingIsSound(s: Script, w: World, account: string)
    ensures var l := ListActive(s, w, account); Sound(w, Outcome(l.w, l.warnings)) && SameSystems(w, l.w)
  {
    var w1 := Attempt(s, w, ListSessions(account));
    SoundRead(s, w, ListSessions(account));
    if Succeeds(s, w, ListSessions(account)) {
      var compat := FetchFamily(s, w1, account, Compat);
      var oauth2 := FetchFamily(s, compat.w, account, OAuth2);
      FetchFamilyStep(s, w1, account, Compat);
      FetchFamilyStep(s, compat.w, account, OAuth2);
      SoundThen(w1, Outcome(compat.w, compat.warnings), Outcome(oauth2.w, oauth2.warnings));
      SoundAfterRead(w, w1, Outcome(oauth2.w, compat.warnings + oauth2.warnings));
    }
  }

  /** A read that went through, and then a sound continuation. */
  lemma SoundAfterRead(w: World, w1: World, o: Outcome)
    requires Sound(w, Outcome(w1, [])) && Sound(w1, o)
    ensures Sound(w, o)
  {
    SoundThen(w, Outcome(w1, []), o);
    assert [] + o.warnings == o.warnings;
  }

  /** The listing holds only sessions of the account, and without warnings every one that is not finished. */
  lemma ListActiveStep(s: Script, w: World, account: string)
    ensures var l := ListActive(s, w, account);
            && (forall x | x in l.sessions :: x in SessionsOf(w.mas, account))
            && (l.warnings == [] ==> forall x | x in SessionsOf(w.mas, account) ::
                 x in l.sessions || x in w.mas.finished)
  {
    var w1 := Attempt(s, w, ListSessions(account));
    if Succeeds(s, w, ListSessions(account)) {
      var compat := FetchFamily(s, w1, account, Compat);
      var oauth2 := FetchFamily(s, compat.w, account, OAuth2);
      FetchFamilyStep(s, w1, account, Compat);
      FetchFamilyStep(s, compat.w, account, OAuth2);
      forall x | x in SessionsOf(w.mas, account) && compat.warnings + oauth2.warnings == []
        ensures x in compat.sessions + oauth2.sessions || x in w.mas.finished
      {
        assert compat.warnings == [] && oauth2.warnings == [];
        assert x.kind == Compat || x.kind == OAuth2;
      }
    }
  }

  /** The sessions of a known account. */
  lemma RevokeKnownStep(s: Script, w: World, m: Member, account: string, sc: Scope)
    requires sc.sessions == SessionsOf(w.mas, account)
    ensures var l := ListActive(s, w, account);
            var o := FinishAll(s, l.w, OFFBOARD, m, l.sessions);
            && Sound(w, Outcome(o.w, l.warnings + o.warnings)) && Within(w, o.w, sc)
            && (l.warnings + o.warnings == [] ==> sc.sessions <= o.w.mas.finished)
  {
    var l := ListActive(s, w, account);
    var o := FinishAll(s, l.w, OFFBOARD, m, l.sessions);
    ListingIsSound(s, w, account);
    ListActiveStep(s, w, account);
    FinishAllStep(s, l.w, m, l.sessions, sc);
    SoundThen(w, Outcome(l.w, l.warnings), o);
    if l.warnings + o.warnings == [] {
      assert l.warnings == [] && o.warnings == [];
    }
  }

  lemma RevokeStep(s: Script, w: World, m: Member, username: string, rooms: set<string>, sc: Scope)
    requires sc == ScopeFor(w, m, username, rooms)
    ensures var o := RevokeSessions(s, w, OFFBOARD, m, username);
            && Sound(w, o) && Within(w, o.w, sc)
            && (o.warnings == [] ==> sc.sessions <= o.w.mas.finished)
  {
    var look := LookupAccount(username);
    var w1 := Attempt(s, w, look);
    SoundRead(s, w, look);
    if Succeeds(s, w, look) && username in w1.mas.accounts {
      RevokeKnownStep(s, w1, m, w1.mas.accounts[username], sc);
      SoundAfterRead(w, w1, RevokeSessions(s, w, OFFBOARD, m, username));
    }
  }

  lemma LogoutStep(s: Script, w: World, m: Member, sc: Scope)
    requires sc.id == m.keycloakId
    ensures var o := ForceLogout(s, w, OFFBOARD, m);
            && Sound(w, o) && Within(w, o.w, sc)
            && (o.warnings == [] ==> sc.id in o.w.kc.loggedOut)
  {
    SoundAct(s, w, LogoutUser(m.keycloakId), LogoutDraft(OFFBOARD, m));
    SystemsAfterAct(s, w, LogoutUser(m.keycloakId), LogoutDraft(OFFBOARD, m));
  }

  lemma WithdrawStep(s: Script, w: World, m: Member, username: string, rooms: set<string>, sc: Scope)
    requires sc == ScopeFor(w, m, username, rooms)
    ensures var o := Withdraw(s, w, m, username);
            && Sound(w, o) && Within(w, o.w, sc)
            && (o.warnings == [] ==> sc.sessions <= o.w.mas.finished && sc.id in o.w.kc.loggedOut)
  {
    var revoke := RevokeSessions(s, w, OFFBOARD, m, username);
    var logout := ForceLogout(s, revoke.w, OFFBOARD, m);
    RevokeStep(s, w, m, username, rooms, sc);
    LogoutStep(s, revoke.w, m, sc);
    SoundThen(w, revoke, logout);
    WithinThen(w, revoke.w, logout.w, sc);
  }

  // ----- Kicking -----

  lemma HonestIsSound(w: World, o: Outcome)
    requires Honest(w, o)
    ensures Sound(w, o)
  {
  }

  /** Kicks remove the user from listed rooms only; without warnings, from all of them. */
  lemma {:induction false} KickRoomsShrinks(s: Script, w: World, m: Member, action: string, subject: string,
                                            rooms: seq<string>, places: set<(string, string)>)
    requires forall r | r in rooms :: (r, m.matrixId) in places
    ensures var o := KickRooms(s, w, m, action, subject, rooms);
            && w.mx.members - places <= o.w.mx.members <= w.mx.members
            && o.w.mx.power == w.mx.power
            && (o.warnings == [] ==> forall r | r in rooms :: (r, m.matrixId) !in o.w.mx.members)
    decreases |rooms|
  {
    if rooms == [] {
    } else {
      var o := KickOne(s, w, m, action, subject, rooms[0]);
      KickRoomsShrinks(s, o.w, m, action, subject, rooms[1..], places);
    }
  }

  lemma KickMappedStep(s: Script, w: World, m: Member, b: PolicyBinding, sc: Scope)
    requires forall r | r in Targets(w.mx.spaces, b.target.roomId) :: (r, m.matrixId) in sc.places
    ensures var o := KickMapped(s, w, OFFBOARD, m, b);
            && Sound(w, o) && Within(w, o.w, sc)
            && (o.warnings == [] ==>
                 forall r | r in Targets(w.mx.spaces, b.target.roomId) :: (r, m.matrixId) !in o.w.mx.members)
  {
    var x := Expand(s, w, b.target.roomId);
    var action, subject, order := "kick_room_on_" + OFFBOARD, SubjectText(b.subject), Reversed(x.targets);
    forall r { ReversedHasSameElements(x.targets, r); }
    SoundRead(s, w, SpaceChildren(b.target.roomId));
    assert action == "kick_room_on_offboard";
    HonestKickRooms(s, x.w, m, action, subject, order);
    HonestIsSound(x.w, KickRooms(s, x.w, m, action, subject, order));
    KickRoomsShrinks(s, x.w, m, action, subject, order, sc.places);
    SoundThen(w, Outcome(x.w, x.warnings), KickRooms(s, x.w, m, action, subject, order));
  }

  /** Skipping rooms seen before loses nothing: whatever was seen is already empty of the user. */
  lemma {:induction false} KickAllMappedStep(s: Script, w: World, m: Member, bs: seq<PolicyBinding>, seen: set<string>,
                                             sc: Scope)
    requires forall r | r in MappedRooms(w.mx.spaces, bs) :: (r, m.matrixId) in sc.places
    ensures var o := KickAllMapped(s, w, OFFBOARD, m, bs, seen);
            && Sound(w, o) && Within(w, o.w, sc)
            && (o.warnings == [] ==> forall b, r | b in bs && b.target.roomId !in seen
                                                && r in Targets(w.mx.spaces, b.target.roomId) ::
                 (r, m.matrixId) !in o.w.mx.members)
    decreases |bs|
  {
    if bs == [] {
    } else {
      assert bs == [bs[0]] + bs[1..];
      var room := bs[0].target.roomId;
      if room in seen {
        KickAllMappedStep(s, w, m, bs[1..], seen, sc);
      } else {
        var o := KickMapped(s, w, OFFBOARD, m, bs[0]);
        var p := KickAllMapped(s, o.w, OFFBOARD, m, bs[1..], seen + {room});
        KickMappedStep(s, w, m, bs[0], sc);
        KickAllMappedStep(s, o.w, m, bs[1..], seen + {room}, sc);
        SoundThen(w, o, p);
        WithinThen(w, o.w, p.w, sc);
      }
    }
  }

  lemma {:induction false} MappedRoomsAreTargets(spaces: Spaces, bs: seq<PolicyBinding>, r: string)
    ensures r in MappedRooms(spaces, bs) <==> exists b :: b in bs && r in Targets(spaces, b.target.roomId)
  {
    if bs == [] {
    } else {
      MappedRoomsAreTargets(spaces, bs[1..], r);
      assert bs == [bs[0]] + bs[1..];
    }
  }

  /** The one warning that stands for no failed call: rooms are mapped but there is no Synapse to clean them. */
  function Unconfigured(synapse: bool, bs: seq<PolicyBinding>): seq<Warning> {
    if !synapse && bs != [] then [RoomsNotCleanedUp] else []
  }

  lemma CleanRoomsStep(s: Script, w: World, m: Member, synapse: bool, bs: seq<PolicyBinding>, sc: Scope)
    requires sc.places == set r | r in RoomsInScope(w, synapse, bs) :: (r, m.matrixId)
    ensures var o := CleanRooms(s, w, m, synapse, bs);
            && Within(w, o.w, sc)
            && |o.warnings| >= |Unconfigured(synapse, bs)|
            && (|o.warnings| == |Unconfigured(synapse, bs)| ==> sc.places !! o.w.mx.members)
  {
    if synapse {
      KickAllMappedStep(s, w, m, bs, {}, sc);
      var o := CleanRooms(s, w, m, synapse, bs);
      if o.warnings == [] {
        forall p | p in sc.places ensures p !in o.w.mx.members {
          MappedRoomsAreTargets(w.mx.spaces, bs, p.0);
        }
      }
    }
  }

  lemma CleanRoomsIsSound(s: Script, w: World, m: Member, synapse: bool, bs: seq<PolicyBinding>)
    ensures var o := CleanRooms(s, w, m, synapse, bs);
            && (InSync(w) ==> InSync(o.w))
            && w.trace <= o.w.trace
            && (synapse ==> NamesFailures(w, o))
            && (!synapse ==> o == Outcome(w, Unconfigured(synapse, bs)))
  {
    if synapse {
      var places := set r | r in MappedRooms(w.mx.spaces, bs) :: (r, m.matrixId);
      KickAllMappedStep(s, w, m, bs, {}, Scope("", {}, {}, places));
    }
  }

  // ----- The whole workflow: effects -----

  lemma GateEffects(s: Script, w: World, m: Member, username: string, rooms: set<string>, sc: Scope)
    requires sc == ScopeFor(w, m, username, rooms)
    ensures var g := ReachGate(s, w, m, username);
            && Within(w, g.disable.w, sc)
            && (g.disable.ok ==> sc.id in g.disable.w.kc.disabled)
            && (g.warnings == [] ==> sc.sessions <= g.disable.w.mas.finished && sc.id in g.disable.w.kc.loggedOut)
  {
    var out := Withdraw(s, w, m, username);
    WithdrawStep(s, w, m, username, rooms, sc);
    SystemsAfterAct(s, out.w, DisableUser(m.keycloakId), DisableDraft(OFFBOARD, m, username));
    WithinThen(w, out.w, ReachGate(s, w, m, username).disable.w, sc);
  }

  lemma CloseAccountEffects(s: Script, w: World, m: Member, username: string, warnings: seq<Warning>, sc: Scope)
    requires sc.accounts == if username in w.mas.accounts then {w.mas.accounts[username]} else {}
    ensures var o := CloseAccount(s, w, m, username, warnings);
            && Within(w, o.w, sc)
            && (o.result.Ok? ==> |o.result.value| >= |warnings|)
            && (o.result.Ok? && |o.result.value| == |warnings| ==> sc.accounts <= o.w.mas.deactivated)
  {
    var w1 := Attempt(s, w, LookupAccount(username));
    if username in w1.mas.accounts {
      var account := w1.mas.accounts[username];
      SystemsAfterAct(s, w1, DeactivateAccount(account), DeactivateDraft(OFFBOARD, m, account, username));
    }
  }

  lemma PassGateEffects(s: Script, w: World, g: Gate, m: Member, username: string, synapse: bool,
                        bs: seq<PolicyBinding>, sc: Scope)
    requires sc == ScopeFor(w, m, username, RoomsInScope(w, synapse, bs))
    requires Within(w, g.disable.w, sc)
    ensures var o := PassGate(s, g, m, username, synapse, bs);
            && Within(w, o.w, sc) && Within(g.disable.w, o.w, sc)
            && (o.result == Ok(Unconfigured(synapse, bs)) ==>
                 g.warnings == [] && g.disable.ok && sc.accounts <= o.w.mas.deactivated && sc.places !! o.w.mx.members)
  {
    if StepResult(g.disable).Ok? {
      var rooms := CleanRooms(s, g.disable.w, m, synapse, bs);
      CleanRoomsStep(s, g.disable.w, m, synapse, bs, sc);
      CloseAccountEffects(s, rooms.w, m, username, g.warnings + rooms.warnings, sc);
      WithinThen(g.disable.w, rooms.w, PassGate(s, g, m, username, synapse, bs).w, sc);
      WithinThen(w, g.disable.w, PassGate(s, g, m, username, synapse, bs).w, sc);
      assert |g.warnings + rooms.warnings| == |g.warnings| + |rooms.warnings|;
    }
  }

  /**
   Whatever fails, offboarding changes nothing outside its scope. `Ok` with no warning but the one for a
   missing Synapse means all of the scope is done; without Synapse no room is in it.
   */
  lemma OffboardEffects(s: Script, w: World, id: string, synapse: bool, bs: seq<PolicyBinding>, domain: string)
    requires id in w.kc.users
    ensures var o, sc := Offboard(s, w, id, synapse, bs, domain), ScopeOf(w, id, synapse, bs, domain);
            Within(w, o.w, sc) && (o.result == Ok(Unconfigured(synapse, bs)) ==> Complete(o.w, sc))
  {
    if Succeeds(s, w, GetUser(id)) {
      var w0, username := Attempt(s, w, GetUser(id)), w.kc.users[id];
      var m, sc := MemberOf(id, username, domain), ScopeOf(w, id, synapse, bs, domain);
      GateEffects(s, w0, m, username, RoomsInScope(w, synapse, bs), sc);
      PassGateEffects(s, w0, ReachGate(s, w0, m, username), m, username, synapse, bs, sc);
    }
  }

  // ----- The whole workflow: log and warnings -----

  lemma WithdrawIsSound(s: Script, w: World, m: Member, username: string)
    ensures Sound(w, Withdraw(s, w, m, username))
  {
    WithdrawStep(s, w, m, username, {}, ScopeFor(w, m, username, {}));
  }

  /**
   What a workflow that ends in a result keeps. Its warnings name exactly the failed calls, in order,
   with the warnings `extra`, which stand for no call, somewhere among them.
   */
  ghost predicate SoundRun(w: World, o: WorkflowRun, extra: seq<Warning>) {
    && (InSync(w) ==> InSync(o.w))
    && w.trace <= o.w.trace
    && (o.result.Err? ==> Failures(o.w.trace) > Failures(w.trace))
    && (o.result.Ok? ==> exists before, after ::
         o.result.value == before + extra + after && Complaints(o.w.trace) == Complaints(w.trace) + before + after)
  }

  lemma CloseAccountIsSound(s: Script, w: World, m: Member, username: string, warnings: seq<Warning>)
    ensures var o := CloseAccount(s, w, m, username, warnings);
            && (InSync(w) ==> InSync(o.w))
            && w.trace <= o.w.trace
            && (o.result.Err? ==> Failures(o.w.trace) > Failures(w.trace))
            && (o.result.Ok? ==> |o.result.value| >= |warnings| && o.result.value[..|warnings|] == warnings
                                 && NamesFailures(w, Outcome(o.w, o.result.value[|warnings|..])))
  {
    var look := LookupAccount(username);
    var w1 := Attempt(s, w, look);
    SoundRead(s, w, look);
    if Succeeds(s, w, look) && username in w1.mas.accounts {
      var account := w1.mas.accounts[username];
      DeactivateIsSound(s, w1, m, account, username);
      FailuresOfAttempt(s, w, look);
      var o := CloseAccount(s, w, m, username, warnings);
      if o.result.Ok? {
        assert o.result.value[|warnings|..] == [];
        assert Complaints(w1.trace) == Complaints(w.trace);
      }
    }
  }

  lemma DeactivateIsSound(s: Script, w: World, m: Member, account: string, username: string)
    ensures var g := ActAndLog(s, w, DeactivateAccount(account), DeactivateDraft(OFFBOARD, m, account, username));
            && (InSync(w) ==> InSync(g.w))
            && w.trace <= g.w.trace
            && (StepResult(g).Err? ==> Failures(g.w.trace) > Failures(w.trace))
            && (StepResult(g).Ok? ==> Complaints(g.w.trace) == Complaints(w.trace))
  {
    var call, draft := DeactivateAccount(account), DeactivateDraft(OFFBOARD, m, account, username);
    SoundAct(s, w, call, draft);
    FailuresOfActAndLog(s, w, call, draft);
  }

  /** The gate was reached from `w` with warnings that name exactly the failed calls before it. */
  ghost predicate SoundGate(w: World, g: Gate) {
    && (InSync(w) ==> InSync(g.disable.w))
    && w.trace <= g.disable.w.trace
    && (StepResult(g.disable).Err? ==> Failures(g.disable.w.trace) > Failures(w.trace))
    && (StepResult(g.disable).Ok? ==> NamesFailures(w, Outcome(g.disable.w, g.warnings)))
  }

  lemma PassGateIsSound(s: Script, w: World, g: Gate, m: Member, username: string, synapse: bool, bs: seq<PolicyBinding>)
    requires SoundGate(w, g)
    ensures SoundRun(w, PassGate(s, g, m, username, synapse, bs), Unconfigured(synapse, bs))
  {
    if StepResult(g.disable).Ok? {
      var rooms := CleanRooms(s, g.disable.w, m, synapse, bs);
      var soFar := g.warnings + rooms.warnings;
      var o := CloseAccount(s, rooms.w, m, username, soFar);
      CleanRoomsIsSound(s, g.disable.w, m, synapse, bs);
      CloseAccountIsSound(s, rooms.w, m, username, soFar);
      FailuresGrow(w.trace, rooms.w.trace);
      if o.result.Ok? {
        var after := o.result.value[|soFar|..];
        assert o.result.value == soFar + after;
        WarningsInOrder(w, g, rooms, Outcome(o.w, after), synapse, Unconfigured(synapse, bs));
      }
    }
  }

  /** The warnings before the gate, of the rooms, and of the account, put together. */
  lemma WarningsInOrder(w: World, g: Gate, rooms: Outcome, last: Outcome, synapse: bool, extra: seq<Warning>)
    requires NamesFailures(w, Outcome(g.disable.w, g.warnings)) && NamesFailures(rooms.w, last)
    requires if synapse then NamesFailures(g.disable.w, rooms) && extra == [] else rooms == Outcome(g.disable.w, extra)
    ensures exists before, after ::
      && g.warnings + rooms.warnings + last.warnings == before + extra + after
      && Complaints(last.w.trace) == Complaints(w.trace) + before + after
  {
    var before := if synapse then g.warnings + rooms.warnings else g.warnings;
    if synapse { NamesThen(w, Outcome(g.disable.w, g.warnings), rooms); }
    assert Complaints(rooms.w.trace) == Complaints(w.trace) + before;
    assert g.warnings + rooms.warnings + last.warnings == before + extra + last.warnings;
  }

  /**
   Whatever fails, the audit trail reports every mutation truly. An error means that some call
   failed; otherwise the warnings name exactly the calls that failed, in order, lost audit entries included.
   */
  lemma OffboardIsSound(s: Script, w: World, id: string, synapse: bool, bs: seq<PolicyBinding>, domain: string)
    ensures SoundRun(w, Offboard(s, w, id, synapse, bs, domain), Unconfigured(synapse, bs))
  {
    SoundRead(s, w, GetUser(id));
    FailuresOfAttempt(s, w, GetUser(id));
    if Succeeds(s, w, GetUser(id)) {
      var w0, username := Attempt(s, w, GetUser(id)), w.kc.users[id];
      var m := MemberOf(id, username, domain);
      GateIsSound(s, w0, m, username);
      PassGateIsSound(s, w0, ReachGate(s, w0, m, username), m, username, synapse, bs);
      SoundRunAfterRead(w, w0, Offboard(s, w, id, synapse, bs, domain), Unconfigured(synapse, bs));
    }
  }

  lemma SoundRunAfterRead(w: World, w0: World, o: WorkflowRun, extra: seq<Warning>)
    requires Sound(w, Outcome(w0, [])) && Failures(w0.trace) == Failures(w.trace) && SoundRun(w0, o, extra)
    ensures SoundRun(w, o, extra)
  {
    assert Complaints(w0.trace) == Complaints(w.trace);
  }

  lemma GateIsSound(s: Script, w: World, m: Member, username: string)
    ensures SoundGate(w, ReachGate(s, w, m, username))
  {
    var out, draft := Withdraw(s, w, m, username), DisableDraft(OFFBOARD, m, username);
    WithdrawIsSound(s, w, m, username);
    SoundAct(s, out.w, DisableUser(m.keycloakId), draft);
    FailuresGrow(w.trace, out.w.trace);
    FailuresOfActAndLog(s, out.w, DisableUser(m.keycloakId), draft);
  }

  // ----- Success and retries -----

  /**
   `Ok` with no warning but the one for a missing Synapse: sessions finished, logged out, disabled,
   absent from the rooms in scope, account deactivated, and nothing else changed.
   */
  lemma CleanRunMeansOffboarded(s: Script, w: World, id: string, synapse: bool, bs: seq<PolicyBinding>, domain: string)
    requires Offboard(s, w, id, synapse, bs, domain).result == Ok(Unconfigured(synapse, bs))
    ensures id in w.kc.users
    ensures SameSystems(Offboard(s, w, id, synapse, bs, domain).w, Cleaned(w, ScopeOf(w, id, synapse, bs, domain)))
  {
    assert Succeeds(s, w, GetUser(id));
    OffboardEffects(s, w, id, synapse, bs, domain);
    PartialCleanupKeepsGoal(w, Offboard(s, w, id, synapse, bs, domain).w, ScopeOf(w, id, synapse, bs, domain));
  }

  /** `Ok` without any warning: in addition Synapse was there, or no room is mapped. */
  lemma SuccessMeansOffboarded(s: Script, w: World, id: string, synapse: bool, bs: seq<PolicyBinding>, domain: string)
    requires Offboard(s, w, id, synapse, bs, domain).result == Ok([])
    ensures id in w.kc.users && (synapse || bs == [])
    ensures SameSystems(Offboard(s, w, id, synapse, bs, domain).w, Cleaned(w, ScopeOf(w, id, synapse, bs, domain)))
  {
    SuccessMeansConfigured(s, w, id, synapse, bs, domain);
    CleanRunMeansOffboarded(s, w, id, synapse, bs, domain);
  }

  /** When nothing fails, a known user is offboarded without warnings, unless rooms are mapped and Synapse is missing. */
  lemma {:induction false} FailureFreeSucceedsIff(w: World, id: string, synapse: bool, bs: seq<PolicyBinding>, domain: string)
    ensures Offboard(UP, w, id, synapse, bs, domain).result == Ok([])
       <==> id in w.kc.users && (synapse || bs == [])
  {
    var o := Offboard(UP, w, id, synapse, bs, domain);
    OffboardIsSound(UP, w, id, synapse, bs, domain);
    if id in w.kc.users {
      OffboardNeverFails(w, id, synapse, bs, domain);
    }
  }

  lemma OffboardNeverFails(w: World, id: string, synapse: bool, bs: seq<PolicyBinding>, domain: string)
    requires id in w.kc.users
    ensures Offboard(UP, w, id, synapse, bs, domain).result.Ok?
    ensures Offboard(UP, w, id, synapse, bs, domain).result.value == Unconfigured(synapse, bs)
  {
    var w0, username := Attempt(UP, w, GetUser(id)), w.kc.users[id];
    var m := MemberOf(id, username, domain);
    UpOpensGate(w0, m, username);
    UpPassesGate(ReachGate(UP, w0, m, username), m, username, synapse, bs);
  }

  lemma UpPassesGate(g: Gate, m: Member, username: string, synapse: bool, bs: seq<PolicyBinding>)
    requires g.warnings == [] && StepResult(g.disable).Ok?
    ensures var o := PassGate(UP, g, m, username, synapse, bs);
            o.result.Ok? && o.result.value == Unconfigured(synapse, bs)
  {
    UpCleansRoomsQuietly(g.disable.w, m, synapse, bs);
  }

  lemma UpOpensGate(w: World, m: Member, username: string)
    requires m.keycloakId in w.kc.users
    ensures var g := ReachGate(UP, w, m, username); g.warnings == [] && StepResult(g.disable).Ok?
  {
    UpWithdrawsQuietly(w, m, username);
    WithdrawStep(UP, w, m, username, {}, ScopeFor(w, m, username, {}));
  }

  lemma {:induction false} UpFinishesQuietly(w: World, m: Member, xs: seq<Session>)
    ensures FinishAll(UP, w, OFFBOARD, m, xs).warnings == []
    decreases |xs|
  {
    if xs == [] {
    } else {
      UpFinishesQuietly(FinishOne(UP, w, OFFBOARD, m, xs[0]).w, m, xs[1..]);
    }
  }

  lemma UpRevokesQuietly(w: World, m: Member, username: string)
    ensures RevokeSessions(UP, w, OFFBOARD, m, username).warnings == []
  {
    var w1 := Attempt(UP, w, LookupAccount(username));
    if username in w1.mas.accounts {
      var l := ListActive(UP, w1, w1.mas.accounts[username]);
      UpFinishesQuietly(l.w, m, l.sessions);
    }
  }

  lemma UpLogsOutQuietly(w: World, m: Member)
    requires m.keycloakId in w.kc.users
    ensures ForceLogout(UP, w, OFFBOARD, m).warnings == []
  {
  }

  lemma UpWithdrawsQuietly(w: World, m: Member, username: string)
    requires m.keycloakId in w.kc.users
    ensures Withdraw(UP, w, m, username).warnings == []
  {
    var revoke := RevokeSessions(UP, w, OFFBOARD, m, username);
    UpRevokesQuietly(w, m, username);
    RevokeStep(UP, w, m, username, {}, ScopeFor(w, m, username, {}));
    UpLogsOutQuietly(revoke.w, m);
  }

  lemma {:induction false} UpKicksAllQuietly(w: World, m: Member, bs: seq<PolicyBinding>, seen: set<string>)
    ensures KickAllMapped(UP, w, OFFBOARD, m, bs, seen).warnings == []
    decreases |bs|
  {
    if bs == [] {
    } else {
      var room := bs[0].target.roomId;
      if room in seen {
        UpKicksAllQuietly(w, m, bs[1..], seen);
      } else {
        var x := Expand(UP, w, room);
        UpKicksQuietly(x.w, m, "kick_room_on_" + OFFBOARD, SubjectText(bs[0].subject), Reversed(x.targets));
        UpKicksAllQuietly(KickMapped(UP, w, OFFBOARD, m, bs[0]).w, m, bs[1..], seen + {room});
      }
    }
  }

  lemma UpCleansRoomsQuietly(w: World, m: Member, synapse: bool, bs: seq<PolicyBinding>)
    ensures CleanRooms(UP, w, m, synapse, bs).warnings == Unconfigured(synapse, bs)
  {
    if synapse { UpKicksAllQuietly(w, m, bs, {}); }
  }

  /** The state after several attempts to offboard the same user, each with its own faults. */
  function AfterAttempts(ss: seq<Script>, w: World, id: string, synapse: bool, bs: seq<PolicyBinding>, domain: string): World
    decreases |ss|
  {
    if ss == [] then w
    else AfterAttempts(ss[1..], Offboard(ss[0], w, id, synapse, bs, domain).w, id, synapse, bs, domain)
  }

  lemma {:induction false} AttemptsStayWithinScope(
    ss: seq<Script>, w: World, id: string, synapse: bool, bs: seq<PolicyBinding>, domain: string)
    requires id in w.kc.users
    ensures Within(w, AfterAttempts(ss, w, id, synapse, bs, domain), ScopeOf(w, id, synapse, bs, domain))
    decreases |ss|
  {
    if ss == [] {
    } else {
      var w1 := Offboard(ss[0], w, id, synapse, bs, domain).w;
      OffboardEffects(ss[0], w, id, synapse, bs, domain);
      AttemptsStayWithinScope(ss[1..], w1, id, synapse, bs, domain);
      WithinThen(w, w1, AfterAttempts(ss, w, id, synapse, bs, domain), ScopeOf(w, id, synapse, bs, domain));
    }
  }

  /**
   However often and wherever offboarding failed before, a run with no warning but the one for a missing
   Synapse reaches the state that one failure-free run from the start reaches.
   */
  lemma CleanRetryConverges(ss: seq<Script>, s: Script, w: World, id: string, synapse: bool, bs: seq<PolicyBinding>, domain: string)
    requires id in w.kc.users
    requires Offboard(s, AfterAttempts(ss, w, id, synapse, bs, domain), id, synapse, bs, domain).result
          == Ok(Unconfigured(synapse, bs))
    ensures SameSystems(Offboard(s, AfterAttempts(ss, w, id, synapse, bs, domain), id, synapse, bs, domain).w,
                        Offboard(UP, w, id, synapse, bs, domain).w)
  {
    var w1 := AfterAttempts(ss, w, id, synapse, bs, domain);
    AttemptsStayWithinScope(ss, w, id, synapse, bs, domain);
    PartialCleanupKeepsGoal(w, w1, ScopeOf(w, id, synapse, bs, domain));
    CleanRunMeansOffboarded(s, w1, id, synapse, bs, domain);
    OffboardNeverFails(w, id, synapse, bs, domain);
    CleanRunMeansOffboarded(UP, w, id, synapse, bs, domain);
  }

  /**
   So after any number of runs failing anywhere, one failure-free run ends where a single failure-free
   run from the start ends, with or without Synapse and mapped rooms.
   */
  lemma RetryConverges(ss: seq<Script>, w: World, id: string, synapse: bool, bs: seq<PolicyBinding>, domain: string)
    requires id in w.kc.users
    ensures SameSystems(Offboard(UP, AfterAttempts(ss, w, id, synapse, bs, domain), id, synapse, bs, domain).w,
                        Offboard(UP, w, id, synapse, bs, domain).w)
  {
    var w1 := AfterAttempts(ss, w, id, synapse, bs, domain);
    AttemptsStayWithinScope(ss, w, id, synapse, bs, domain);
    OffboardNeverFails(w1, id, synapse, bs, domain);
    CleanRetryConverges(ss, UP, w, id, synapse, bs, domain);
  }

  lemma SuccessMeansConfigured(s: Script, w: World, id: string, synapse: bool, bs: seq<PolicyBinding>, domain: string)
    requires Offboard(s, w, id, synapse, bs, domain).result == Ok([])
    ensures synapse || bs == []
  {
    OffboardIsSound(s, w, id, synapse, bs, domain);
  }

  /** `Ok` without warnings means that no call failed. */
  lemma SuccessMeansNoFailure(s: Script, w: World, id: string, synapse: bool, bs: seq<PolicyBinding>, domain: string)
    requires Offboard(s, w, id, synapse, bs, domain).result == Ok([])
    ensures Failures(Offboard(s, w, id, synapse, bs, domain).w.trace) == Failures(w.trace)
  {
    var o := Offboard(s, w, id, synapse, bs, domain);
    OffboardIsSound(s, w, id, synapse, bs, domain);
    OneComplaintPerFailure(w.trace);
    OneComplaintPerFailure(o.w.trace);
  }

  lemma {:induction false} FailuresGrow(t: seq<Event>, t': seq<Event>)
    requires t <= t'
    ensures Failures(t) <= Failures(t')
    decreases |t'|
  {
    if |t| == |t'| {
      assert t == t';
    } else {
      FailuresGrow(t, t'[..|t'| - 1]);
    }
  }
}
