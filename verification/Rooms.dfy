/** Workflow outcomes, and the room steps that reconciliation and offboarding share. */
module Rooms {
  import opened Wrappers
  import opened Policy
  import opened Upstream

  datatype Warning =
    | GroupsUnknown
    | RolesUnknown
    | ChildrenUnknown(room: string)
    | MembersUnknown(room: string)
    | AuditWriteFailed
    | JoinFailed(room: string)
    | KickFailed(room: string)
    | PowerLevelFailed(room: string)
    | AccountLookupFailed
    | SessionListFailed
    | SessionFamilyFailed(kind: SessionKind)
    | SessionNotRevoked(session: Session)
    | LogoutFailed
    | RoomsNotCleanedUp
    | KeycloakDeleteFailed
    | RequestFailed

  /** The warning for a failed call. `RequestFailed` is never reported: those failures end the workflow as an error. */
  function Complaint(call: Call): Warning {
    match call
    case SpaceChildren(room) => ChildrenUnknown(room)
    case RoomMembers(room) => MembersUnknown(room)
    case ForceJoin(_, room) => JoinFailed(room)
    case KickUser(_, room) => KickFailed(room)
    case SetPowerLevel(room, _, _) => PowerLevelFailed(room)
    case GetGroups(_) => GroupsUnknown
    case GetRoles(_) => RolesUnknown
    case LookupAccount(_) => AccountLookupFailed
    case ListSessions(_) => SessionListFailed
    case FetchSessions(_, kind) => SessionFamilyFailed(kind)
    case FinishSession(x) => SessionNotRevoked(x)
    case LogoutUser(_) => LogoutFailed
    case DeleteUser(_) => KeycloakDeleteFailed
    case WriteAudit(_) => AuditWriteFailed
    case _ => RequestFailed
  }

  function ComplaintsOf(e: Event): seq<Warning> {
    if e.ok then [] else [Complaint(e.call)]
  }

  /** The warnings for the failed calls of a trace, in order; a lost audit entry is reported before the call it is about. */
  function Complaints(t: seq<Event>): seq<Warning> {
    if t == [] then []
    else
      var n := |t|;
      if n > 1 && t[n - 1].call.WriteAudit?
      then Complaints(t[..n - 2]) + (ComplaintsOf(t[n - 1]) + ComplaintsOf(t[n - 2]))
      else Complaints(t[..n - 1]) + ComplaintsOf(t[n - 1])
  }

  lemma {:induction false} OneComplaintPerFailure(t: seq<Event>)
    ensures |Complaints(t)| == Failures(t)
  {
    if t == [] {
    } else {
      var n := |t|;
      if n > 1 && t[n - 1].call.WriteAudit? {
        assert t[..n - 1][..n - 2] == t[..n - 2];
        OneComplaintPerFailure(t[..n - 2]);
      } else {
        OneComplaintPerFailure(t[..n - 1]);
      }
    }
  }

  /** The warnings are exactly those for the calls that failed since `w`, in order. */
  ghost predicate NamesFailures(w: World, o: Outcome) {
    Complaints(o.w.trace) == Complaints(w.trace) + o.warnings
  }

  lemma NamesThen(w: World, o: Outcome, p: Outcome)
    requires NamesFailures(w, o) && NamesFailures(o.w, p)
    ensures NamesFailures(w, Outcome(p.w, o.warnings + p.warnings))
  {
    AppendTwice(Complaints(w.trace), o.warnings, p.warnings, Complaints(o.w.trace), Complaints(p.w.trace));
  }

  /** Exact warnings count the failures. */
  lemma NamedFailures(w: World, o: Outcome)
    requires NamesFailures(w, o)
    ensures Failures(o.w.trace) == Failures(w.trace) + |o.warnings|
  {
    OneComplaintPerFailure(w.trace);
    OneComplaintPerFailure(o.w.trace);
  }

  lemma NamesOfAttempt(s: Script, w: World, call: Call)
    requires !call.WriteAudit?
    ensures NamesFailures(w, Outcome(Attempt(s, w, call), if Succeeds(s, w, call) then [] else [Complaint(call)]))
  {
    var e := Event(call, Succeeds(s, w, call));
    assert (w.trace + [e])[..|w.trace|] == w.trace;
  }

  lemma ComplaintsOfPair(t: seq<Event>, a: Event, b: Event)
    requires b.call.WriteAudit?
    ensures Complaints(t + [a] + [b]) == Complaints(t) + (ComplaintsOf(b) + ComplaintsOf(a))
  {
    assert (t + [a] + [b])[..|t|] == t;
  }

  lemma NamesOfActAndLog(s: Script, w: World, call: Call, draft: AuditEntry)
    ensures var g := ActAndLog(s, w, call, draft);
            NamesFailures(w, Outcome(g.w, LogWarnings(g) + if g.ok then [] else [Complaint(call)]))
  {
    var ok := Succeeds(s, w, call);
    var write := WriteAudit(draft.(success := ok));
    var a, b := Event(call, ok), Event(write, Succeeds(s, Attempt(s, w, call), write));
    ComplaintsOfPair(w.trace, a, b);
    assert ActAndLog(s, w, call, draft).w.trace == w.trace + [a] + [b];
    assert ComplaintsOf(b) == LogWarnings(ActAndLog(s, w, call, draft));
  }

  datatype Outcome = Outcome(w: World, warnings: seq<Warning>)

  function LogWarnings(g: Logged): seq<Warning> {
    if g.logged then [] else [AuditWriteFailed]
  }

  function Reversed<T>(s: seq<T>): seq<T> {
    if s == [] then [] else [s[|s| - 1]] + Reversed(s[..|s| - 1])
  }

  lemma {:induction false} ReversedHasSameElements<T>(s: seq<T>, x: T)
    ensures x in Reversed(s) <==> x in s
  {
    if s == [] {
    } else {
      ReversedHasSameElements(s[..|s| - 1], x);
      assert s == s[..|s| - 1] + [s[|s| - 1]];
    }
  }

  /** Appending twice is appending the sum. */
  lemma AppendTwice<T>(a: seq<T>, b: seq<T>, c: seq<T>, ab: seq<T>, abc: seq<T>)
    requires ab == a + b && abc == ab + c
    ensures abc == a + (b + c)
  {
  }

  // ----- Expanding a binding's room -----

  /** A room together with its direct children. */
  function Targets(spaces: Spaces, room: string): seq<string> {
    [room] + SpaceChildrenOf(spaces, room)
  }

  datatype Expansion = Expansion(w: World, targets: seq<string>, warnings: seq<Warning>)

  function Expand(s: Script, w: World, room: string): Expansion {
    var call := SpaceChildren(room);
    if Succeeds(s, w, call) then Expansion(Attempt(s, w, call), Targets(w.mx.spaces, room), [])
    else Expansion(Attempt(s, w, call), [room], [ChildrenUnknown(room)])
  }

  method ExpandTargets(svc: Services, room: string) returns (targets: seq<string>, warnings: seq<Warning>)
    modifies svc
    ensures Expansion(svc.w, targets, warnings) == Expand(svc.script, old(svc.w), room)
  {
    warnings := [];
    var ok := svc.Perform(SpaceChildren(room));
    var children := SpaceChildrenOf(svc.w.mx.spaces, room);
    if ok && children != [] {
      targets := [room] + children;
    } else if ok {
      targets := [room];
    } else {
      warnings := [ChildrenUnknown(room)];
      targets := [room];
    }
  }

  // ----- Kicking -----

  function KickDraft(m: Member, action: string, subject: string, room: string): AuditEntry {
    AuditEntry(m.keycloakId, m.matrixId, action, true, RoomDetail(room, subject))
  }

  /** Read the members of one room and kick the user if present. */
  function KickOne(s: Script, w: World, m: Member, action: string, subject: string, room: string): Outcome {
    var read := RoomMembers(room);
    var w1 := Attempt(s, w, read);
    if !Succeeds(s, w, read) then Outcome(w1, [MembersUnknown(room)])
    else if (room, m.matrixId) !in w1.mx.members then Outcome(w1, [])
    else
      var g := ActAndLog(s, w1, KickUser(m.matrixId, room), KickDraft(m, action, subject, room));
      Outcome(g.w, LogWarnings(g) + if g.ok then [] else [KickFailed(room)])
  }

  function KickRooms(s: Script, w: World, m: Member, action: string, subject: string, rooms: seq<string>): Outcome
    decreases |rooms|
  {
    if rooms == [] then Outcome(w, [])
    else
      var o := KickOne(s, w, m, action, subject, rooms[0]);
      var rest := KickRooms(s, o.w, m, action, subject, rooms[1..]);
      Outcome(rest.w, o.warnings + rest.warnings)
  }

  method KickTarget(svc: Services, m: Member, action: string, subject: string, room: string)
    returns (warnings: seq<Warning>)
    modifies svc
    ensures Outcome(svc.w, warnings) == KickOne(svc.script, old(svc.w), m, action, subject, room)
  {
    warnings := [];
    var read := svc.Perform(RoomMembers(room));
    if !read {
      return [MembersUnknown(room)];
    }
    if (room, m.matrixId) !in svc.w.mx.members {
      return;
    }
    var ok, logged := svc.PerformAndLog(KickUser(m.matrixId, room), KickDraft(m, action, subject, room));
    if !logged {
      warnings := warnings + [AuditWriteFailed];
    }
    if !ok {
      warnings := warnings + [KickFailed(room)];
    }
  }

  /** The kick loop: targets are visited from the last to the first, children before their space. */
  method KickTargets(svc: Services, m: Member, action: string, subject: string, targets: seq<string>)
    returns (warnings: seq<Warning>)
    modifies svc
    ensures Outcome(svc.w, warnings) == KickRooms(svc.script, old(svc.w), m, action, subject, Reversed(targets))
  {
    warnings := [];
    ghost var whole := KickRooms(svc.script, svc.w, m, action, subject, Reversed(targets));
    var i := |targets|;
    assert targets[..i] == targets;
    while i > 0
      invariant 0 <= i <= |targets|
      invariant var rest := KickRooms(svc.script, svc.w, m, action, subject, Reversed(targets[..i]));
                whole == Outcome(rest.w, warnings + rest.warnings)
    {
      assert targets[..i][..i - 1] == targets[..i - 1];
      assert Reversed(targets[..i]) == [targets[i - 1]] + Reversed(targets[..i - 1]);
      i := i - 1;
      var ws := KickTarget(svc, m, action, subject, targets[i]);
      warnings := warnings + ws;
    }
  }

  // ----- One room as one user sees it -----

  /** Where a user stands in a room, and how often the user was joined, kicked, or given a power level. */
  datatype RoomView = RoomView(member: bool, power: Option<int>, joins: nat, kicks: nat, levels: nat)

  function View(w: World, user: string, room: string): RoomView {
    RoomView(
      (room, user) in w.mx.members,
      if (room, user) in w.mx.power then Some(w.mx.power[(room, user)]) else None,
      Times(w, ForceJoin(user, room)),
      Times(w, KickUser(user, room)),
      LevelsSet(w.trace, user, room))
  }

  function Kicked(v: RoomView): RoomView {
    if v.member then v.(member := false, kicks := v.kicks + 1) else v
  }

  lemma AttemptOnView(s: Script, w: World, call: Call, user: string, room: string)
    ensures var v, v' := View(w, user, room), View(Attempt(s, w, call), user, room);
            if !Succeeds(s, w, call) then v' == v
            else if call == ForceJoin(user, room) then v' == v.(member := true, joins := v.joins + 1)
            else if call == KickUser(user, room) then v' == v.(member := false, kicks := v.kicks + 1)
            else if call.SetPowerLevel? && call.room == room && call.user == user then
              v' == v.(power := Some(call.level), levels := v.levels + 1)
            else v' == v
  {
    assert Attempt(s, w, call).trace[..|w.trace|] == w.trace;
  }

  lemma ActAndLogOnView(s: Script, w: World, call: Call, draft: AuditEntry, user: string, room: string)
    ensures View(ActAndLog(s, w, call, draft).w, user, room) == View(Attempt(s, w, call), user, room)
  {
    AttemptOnView(s, Attempt(s, w, call), WriteAudit(draft.(success := Succeeds(s, w, call))), user, room);
  }

  lemma KickOneOnView(s: Script, w: World, m: Member, action: string, subject: string, target: string,
                      user: string, room: string)
    ensures var v, v' := View(w, user, room), View(KickOne(s, w, m, action, subject, target).w, user, room);
            && (v' == v || v' == Kicked(v))
            && (user != m.matrixId || room != target ==> v' == v)
            && (AlwaysUp(s) && user == m.matrixId && room == target ==> v' == Kicked(v))
  {
    var w1 := Attempt(s, w, RoomMembers(target));
    var kick := KickUser(m.matrixId, target);
    AttemptOnView(s, w, RoomMembers(target), user, room);
    AttemptOnView(s, w1, kick, user, room);
    ActAndLogOnView(s, w1, kick, KickDraft(m, action, subject, target), user, room);
  }

  /** A visit to a list of rooms touches those rooms of that user only; without failures it empties them. */
  lemma {:induction false} KickRoomsOnView(s: Script, w: World, m: Member, action: string, subject: string,
                                           rooms: seq<string>, user: string, room: string)
    ensures var v, v' := View(w, user, room), View(KickRooms(s, w, m, action, subject, rooms).w, user, room);
            && (v' == v || v' == Kicked(v))
            && (user != m.matrixId || room !in rooms ==> v' == v)
            && (AlwaysUp(s) && user == m.matrixId && room in rooms ==> v' == Kicked(v))
    decreases |rooms|
  {
    if rooms == [] {
    } else {
      KickOneOnView(s, w, m, action, subject, rooms[0], user, room);
      KickRoomsOnView(s, KickOne(s, w, m, action, subject, rooms[0]).w, m, action, subject, rooms[1..], user, room);
    }
  }

  // ----- What every step keeps, whatever fails -----

  /** The audit trail stays true, the warnings name exactly the failed calls in order, and nothing but Matrix changes. */
  ghost predicate Honest(w: World, o: Outcome) {
    && (InSync(w) ==> InSync(o.w))
    && NamesFailures(w, o)
    && w.trace <= o.w.trace
    && Others(o.w.trace) == Others(w.trace)
    && (ReadThenAct(w.trace) ==> ReadThenAct(o.w.trace))
    && o.w.mx.spaces == w.mx.spaces
    && o.w.kc == w.kc
    && o.w.mas == w.mas
  }

  lemma HonestThen(w: World, o: Outcome, p: Outcome)
    requires Honest(w, o) && Honest(o.w, p)
    ensures Honest(w, Outcome(p.w, o.warnings + p.warnings))
  {
    NamesThen(w, o, p);
  }

  lemma HonestRead(s: Script, w: World, call: Call)
    requires call.SpaceChildren? || call.RoomMembers? || call.SetPowerLevel?
    ensures Honest(w, Outcome(Attempt(s, w, call), if Succeeds(s, w, call) then [] else [Complaint(call)]))
  {
    var e := Event(call, Succeeds(s, w, call));
    TraceGrows(w.trace, e);
    NamesOfAttempt(s, w, call);
    assert (w.trace + [e])[..|w.trace|] == w.trace;
  }

  lemma HonestAct(s: Script, w: World, call: Call, draft: AuditEntry)
    requires call.ForceJoin? || call.KickUser?
    requires Claim(draft).call == call
    requires w.trace != [] && w.trace[|w.trace| - 1] == Event(RoomMembers(call.room), true)
    ensures var g := ActAndLog(s, w, call, draft);
            Honest(w, Outcome(g.w, LogWarnings(g) + if g.ok then [] else [Complaint(call)]))
  {
    if InSync(w) { ActAndLogKeepsSync(s, w, call, draft); }
    NamesOfActAndLog(s, w, call, draft);
    ActAfterRead(s, w, call, draft);
    ActInMatrixOnly(s, w, call, draft);
  }

  lemma ActInMatrixOnly(s: Script, w: World, call: Call, draft: AuditEntry)
    requires call.ForceJoin? || call.KickUser?
    ensures var w' := ActAndLog(s, w, call, draft).w; w'.kc == w.kc && w'.mas == w.mas && w'.mx.spaces == w.mx.spaces
  {
  }

  lemma ActAfterRead(s: Script, w: World, call: Call, draft: AuditEntry)
    requires call.ForceJoin? || call.KickUser?
    requires w.trace != [] && w.trace[|w.trace| - 1] == Event(RoomMembers(call.room), true)
    ensures var t := ActAndLog(s, w, call, draft).w.trace;
            (ReadThenAct(w.trace) ==> ReadThenAct(t)) && Others(t) == Others(w.trace) && w.trace <= t
  {
    var w1 := Attempt(s, w, call);
    var e := Event(call, Succeeds(s, w, call));
    var write := WriteAudit(draft.(success := e.ok));
    var e' := Event(write, Succeeds(s, w1, write));
    TraceGrows(w.trace, e);
    TraceGrows(w1.trace, e');
    assert w1.trace[..|w.trace|] == w.trace && (w1.trace + [e'])[..|w1.trace|] == w1.trace;
  }

  predicate KickAction(action: string) {
    action == "kick_room_on_reconcile" || action == "kick_room_on_offboard"
  }

  lemma ClaimOfKick(m: Member, action: string, subject: string, room: string)
    requires KickAction(action)
    ensures Claim(KickDraft(m, action, subject, room)).call == KickUser(m.matrixId, room)
  {
  }

  /** The kick of a user found present by the read just before. */
  lemma HonestKick(s: Script, w: World, kick: Call, draft: AuditEntry, o: Outcome)
    requires kick.KickUser? && Claim(draft).call == kick
    requires w.trace != [] && w.trace[|w.trace| - 1] == Event(RoomMembers(kick.room), true)
    requires var g := ActAndLog(s, w, kick, draft);
             o == Outcome(g.w, LogWarnings(g) + if g.ok then [] else [KickFailed(kick.room)])
    ensures Honest(w, o)
  {
    HonestAct(s, w, kick, draft);
  }

  lemma HonestKickOne(s: Script, w: World, m: Member, action: string, subject: string, room: string)
    requires KickAction(action)
    ensures Honest(w, KickOne(s, w, m, action, subject, room))
  {
    var read := RoomMembers(room);
    var w1 := Attempt(s, w, read);
    HonestRead(s, w, read);
    if Succeeds(s, w, read) && (room, m.matrixId) in w1.mx.members {
      var o := KickOne(s, w, m, action, subject, room);
      ClaimOfKick(m, action, subject, room);
      HonestKick(s, w1, KickUser(m.matrixId, room), KickDraft(m, action, subject, room), o);
      HonestThen(w, Outcome(w1, []), o);
      assert [] + o.warnings == o.warnings;
    }
  }

  lemma {:induction false} HonestKickRooms(s: Script, w: World, m: Member, action: string, subject: string,
                                           rooms: seq<string>)
    requires KickAction(action)
    ensures Honest(w, KickRooms(s, w, m, action, subject, rooms))
    decreases |rooms|
  {
    if rooms == [] {
    } else {
      var o := KickOne(s, w, m, action, subject, rooms[0]);
      HonestKickOne(s, w, m, action, subject, rooms[0]);
      HonestKickRooms(s, o.w, m, action, subject, rooms[1..]);
      HonestThen(w, o, KickRooms(s, o.w, m, action, subject, rooms[1..]));
    }
  }

  // ----- The calls of one visit -----

  /**
   Whatever fails: a kick visit reads the members, and if that goes through and the user is there, tries
   to kick the user and to write an entry saying how that went; nothing else.
   */
  lemma KickVisitCalls(s: Script, w: World, m: Member, action: string, subject: string, room: string)
    returns (read: bool, kicked: bool, logged: bool)
    ensures var present := read && (room, m.matrixId) in w.mx.members;
            var entry := AuditEntry(m.keycloakId, m.matrixId, action, kicked, RoomDetail(room, subject));
            KickOne(s, w, m, action, subject, room).w.trace
            == w.trace + [Event(RoomMembers(room), read)]
               + if present then [Event(KickUser(m.matrixId, room), kicked), Event(WriteAudit(entry), logged)] else []
  {
    var w1 := Attempt(s, w, RoomMembers(room));
    var g := ActAndLog(s, w1, KickUser(m.matrixId, room), KickDraft(m, action, subject, room));
    read, kicked, logged := Succeeds(s, w, RoomMembers(room)), g.ok, g.logged;
    AttemptAddsOne(s, w, RoomMembers(room));
    ActAndLogAddsTwo(s, w1, KickUser(m.matrixId, room), KickDraft(m, action, subject, room));
  }

  // ----- Order of visits -----

  lemma ReadsOfKickOne(s: Script, w: World, m: Member, action: string, subject: string, room: string)
    ensures Reads(KickOne(s, w, m, action, subject, room).w.trace) == Reads(w.trace) + [room]
  {
    var read := RoomMembers(room);
    var w1 := Attempt(s, w, read);
    TraceGrows(w.trace, Event(read, Succeeds(s, w, read)));
    ReadsOfActAndLog(s, w1, KickUser(m.matrixId, room), KickDraft(m, action, subject, room));
  }

  lemma ReadsOfActAndLog(s: Script, w: World, call: Call, draft: AuditEntry)
    requires !call.RoomMembers?
    ensures Reads(ActAndLog(s, w, call, draft).w.trace) == Reads(w.trace)
  {
    var w1 := Attempt(s, w, call);
    var write := WriteAudit(draft.(success := Succeeds(s, w, call)));
    TraceGrows(w.trace, Event(call, Succeeds(s, w, call)));
    TraceGrows(w1.trace, Event(write, Succeeds(s, w1, write)));
  }

  /** Rooms are visited in the order given, each once per occurrence, whatever fails. */
  lemma {:induction false} KickRoomsInOrder(s: Script, w: World, m: Member, action: string, subject: string,
                                            rooms: seq<string>)
    ensures Reads(KickRooms(s, w, m, action, subject, rooms).w.trace) == Reads(w.trace) + rooms
    decreases |rooms|
  {
    if rooms == [] {
    } else {
      var w1 := KickOne(s, w, m, action, subject, rooms[0]).w;
      ReadsOfKickOne(s, w, m, action, subject, rooms[0]);
      KickRoomsInOrder(s, w1, m, action, subject, rooms[1..]);
      AppendTwice(Reads(w.trace), [rooms[0]], rooms[1..], Reads(w1.trace),
                  Reads(KickRooms(s, w1, m, action, subject, rooms[1..]).w.trace));
      assert [rooms[0]] + rooms[1..] == rooms;
    }
  }

  lemma {:induction false} KicksExpandNothing(s: Script, w: World, m: Member, action: string, subject: string, rooms: seq<string>)
    ensures Expansions(KickRooms(s, w, m, action, subject, rooms).w.trace) == Expansions(w.trace)
    decreases |rooms|
  {
    if rooms == [] {
    } else {
      var w1 := Attempt(s, w, RoomMembers(rooms[0]));
      var kick := KickUser(m.matrixId, rooms[0]);
      ExpansionsGrow(s, w, RoomMembers(rooms[0]));
      ActExpandsNothing(s, w1, kick, KickDraft(m, action, subject, rooms[0]));
      KicksExpandNothing(s, KickOne(s, w, m, action, subject, rooms[0]).w, m, action, subject, rooms[1..]);
    }
  }

  lemma ActExpandsNothing(s: Script, w: World, call: Call, draft: AuditEntry)
    requires !call.SpaceChildren?
    ensures Expansions(ActAndLog(s, w, call, draft).w.trace) == Expansions(w.trace)
  {
    ExpansionsGrow(s, w, call);
    ExpansionsGrow(s, Attempt(s, w, call), WriteAudit(draft.(success := Succeeds(s, w, call))));
  }

  // ----- Warning-free runs are failure-free runs -----

  /** The script under which nothing fails. */
  const UP: Script := n => true

  lemma {:induction false} WarningFreeKicks(s: Script, w: World, m: Member, action: string, subject: string,
                                            rooms: seq<string>)
    requires KickRooms(s, w, m, action, subject, rooms).warnings == []
    ensures KickRooms(s, w, m, action, subject, rooms) == KickRooms(UP, w, m, action, subject, rooms)
    decreases |rooms|
  {
    if rooms == [] {
    } else {
      assert KickOne(s, w, m, action, subject, rooms[0]) == KickOne(UP, w, m, action, subject, rooms[0]);
      WarningFreeKicks(s, KickOne(s, w, m, action, subject, rooms[0]).w, m, action, subject, rooms[1..]);
    }
  }

  lemma {:induction false} UpKicksQuietly(w: World, m: Member, action: string, subject: string, rooms: seq<string>)
    ensures KickRooms(UP, w, m, action, subject, rooms).warnings == []
    decreases |rooms|
  {
    if rooms == [] {
    } else {
      UpKicksQuietly(KickOne(UP, w, m, action, subject, rooms[0]).w, m, action, subject, rooms[1..]);
    }
  }
}
