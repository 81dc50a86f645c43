/** Reconciling one user's room membership against the ordered list of policy bindings. */
module Reconcile {
  import opened Wrappers
  import opened Policy
  import opened Upstream
  import opened Rooms
  import Requirements

  const JOIN_ACTION := "join_room_on_reconcile"
  const KICK_ACTION := "kick_room_on_reconcile"

  // ----- Specification of a run -----

  function JoinDraft(m: Member, b: PolicyBinding, room: string): AuditEntry {
    AuditEntry(m.keycloakId, m.matrixId, JOIN_ACTION, true, RoomDetail(room, SubjectText(b.subject)))
  }

  /** After a join that went through: set the configured power level, if there is one. */
  function SetLevel(s: Script, w: World, m: Member, b: PolicyBinding, room: string): Outcome {
    if b.powerLevel.None? then Outcome(w, [])
    else
      var call := SetPowerLevel(room, m.matrixId, b.powerLevel.value);
      Outcome(Attempt(s, w, call), if Succeeds(s, w, call) then [] else [PowerLevelFailed(room)])
  }

  function JoinAbsent(s: Script, w: World, m: Member, b: PolicyBinding, room: string): Outcome {
    var g := ActAndLog(s, w, ForceJoin(m.matrixId, room), JoinDraft(m, b, room));
    if !g.ok then Outcome(g.w, LogWarnings(g) + [JoinFailed(room)])
    else
      var level := SetLevel(s, g.w, m, b, room);
      Outcome(level.w, LogWarnings(g) + level.warnings)
  }

  function JoinOne(s: Script, w: World, m: Member, b: PolicyBinding, room: string): Outcome {
    var read := RoomMembers(room);
    var w1 := Attempt(s, w, read);
    if !Succeeds(s, w, read) then Outcome(w1, [MembersUnknown(room)])
    else if (room, m.matrixId) in w1.mx.members then Outcome(w1, [])
    else JoinAbsent(s, w1, m, b, room)
  }

  function JoinRooms(s: Script, w: World, m: Member, b: PolicyBinding, rooms: seq<string>): Outcome
    decreases |rooms|
  {
    if rooms == [] then Outcome(w, [])
    else
      var o := JoinOne(s, w, m, b, rooms[0]);
      var rest := JoinRooms(s, o.w, m, b, rooms[1..]);
      Outcome(rest.w, o.warnings + rest.warnings)
  }

  function Visit(s: Script, w: World, m: Member, b: PolicyBinding, targets: seq<string>): Outcome {
    match VerdictOf(b, m)
    case Add => JoinRooms(s, w, m, b, targets)
    case Remove => KickRooms(s, w, m, KICK_ACTION, SubjectText(b.subject), Reversed(targets))
    case Keep => Outcome(w, [])
  }

  function ReconcileBinding(s: Script, w: World, m: Member, b: PolicyBinding): Outcome {
    var x := Expand(s, w, b.target.roomId);
    var o := Visit(s, x.w, m, b, x.targets);
    Outcome(o.w, x.warnings + o.warnings)
  }

  function ReconcileAll(s: Script, w: World, m: Member, bs: seq<PolicyBinding>): Outcome
    decreases |bs|
  {
    if bs == [] then Outcome(w, [])
    else
      var o := ReconcileBinding(s, w, m, bs[0]);
      var rest := ReconcileAll(s, o.w, m, bs[1..]);
      Outcome(rest.w, o.warnings + rest.warnings)
  }

  // ----- The workflow itself -----

  method JoinTarget(svc: Services, m: Member, b: PolicyBinding, room: string) returns (warnings: seq<Warning>)
    modifies svc
    ensures Outcome(svc.w, warnings) == JoinOne(svc.script, old(svc.w), m, b, room)
  {
    warnings := [];
    var read := svc.Perform(RoomMembers(room));
    if !read {
      return [MembersUnknown(room)];
    }
    if (room, m.matrixId) in svc.w.mx.members {
      return;
    }
    var ok, logged := svc.PerformAndLog(ForceJoin(m.matrixId, room), JoinDraft(m, b, room));
    if !logged {
      warnings := warnings + [AuditWriteFailed];
    }
    if !ok {
      warnings := warnings + [JoinFailed(room)];
      return;
    }
    if b.powerLevel.Some? {
      var set_ := svc.Perform(SetPowerLevel(room, m.matrixId, b.powerLevel.value));
      if !set_ {
        warnings := warnings + [PowerLevelFailed(room)];
      }
    }
  }

  /** The join loop: the space first, then its children. */
  method JoinTargets(svc: Services, m: Member, b: PolicyBinding, targets: seq<string>) returns (warnings: seq<Warning>)
    modifies svc
    ensures Outcome(svc.w, warnings) == JoinRooms(svc.script, old(svc.w), m, b, targets)
  {
    warnings := [];
    ghost var whole := JoinRooms(svc.script, svc.w, m, b, targets);
    for i := 0 to |targets|
      invariant var rest := JoinRooms(svc.script, svc.w, m, b, targets[i..]);
                whole == Outcome(rest.w, warnings + rest.warnings)
    {
      assert targets[i..][1..] == targets[i + 1..];
      var ws := JoinTarget(svc, m, b, targets[i]);
      warnings := warnings + ws;
    }
  }

  method VisitBinding(svc: Services, m: Member, b: PolicyBinding) returns (warnings: seq<Warning>)
    modifies svc
    ensures Outcome(svc.w, warnings) == ReconcileBinding(svc.script, old(svc.w), m, b)
  {
    var targets, expandWarnings := ExpandTargets(svc, b.target.roomId);
    var ws := [];
    if UserMatchesBinding(b, m) {
      ws := JoinTargets(svc, m, b, targets);
    } else if b.allowRemove {
      ws := KickTargets(svc, m, KICK_ACTION, SubjectText(b.subject), targets);
    }
    warnings := expandWarnings + ws;
  }

  method ReconcileMembership(svc: Services, m: Member, bindings: seq<PolicyBinding>) returns (warnings: seq<Warning>)
    modifies svc
    ensures Outcome(svc.w, warnings) == ReconcileAll(svc.script, old(svc.w), m, bindings)
  {
    warnings := [];
    ghost var whole := ReconcileAll(svc.script, svc.w, m, bindings);
    for i := 0 to |bindings|
      invariant var rest := ReconcileAll(svc.script, svc.w, m, bindings[i..]);
                whole == Outcome(rest.w, warnings + rest.warnings)
    {
      assert bindings[i..][1..] == bindings[i + 1..];
      var ws := VisitBinding(svc, m, bindings[i]);
      warnings := warnings + ws;
    }
  }

  // ----- One room as one user sees it -----

  predicate Covers(spaces: Spaces, b: PolicyBinding, room: string) {
    room in Targets(spaces, b.target.roomId)
  }

  function Joined(v: RoomView, level: Option<int>): RoomView {
    if v.member then v
    else v.(member := true, joins := v.joins + 1,
      power := if level.Some? then level else v.power, levels := v.levels + if level.Some? then 1 else 0)
  }

  /** What one binding does to one room. */
  function Decide(spaces: Spaces, m: Member, b: PolicyBinding, room: string, v: RoomView): RoomView {
    if !Covers(spaces, b, room) then v
    else match VerdictOf(b, m)
      case Add => Joined(v, b.powerLevel)
      case Remove => Kicked(v)
      case Keep => v
  }

  function DecideAll(spaces: Spaces, m: Member, bs: seq<PolicyBinding>, room: string, v: RoomView): RoomView
    decreases |bs|
  {
    if bs == [] then v else DecideAll(spaces, m, bs[1..], room, Decide(spaces, m, bs[0], room, v))
  }

  lemma JoinAbsentOnView(s: Script, w: World, m: Member, b: PolicyBinding, target: string, user: string, room: string)
    requires (target, m.matrixId) !in w.mx.members
    ensures var v, v' := View(w, user, room), View(JoinAbsent(s, w, m, b, target).w, user, room);
            && (user != m.matrixId || room != target ==> v' == v)
            && (v.member || !v'.member ==> v' == v)
            && (AlwaysUp(s) && user == m.matrixId && room == target ==> v' == Joined(v, b.powerLevel))
  {
    var join := ForceJoin(m.matrixId, target);
    AttemptOnView(s, w, join, user, room);
    ActAndLogOnView(s, w, join, JoinDraft(m, b, target), user, room);
    if b.powerLevel.Some? {
      var w1 := ActAndLog(s, w, join, JoinDraft(m, b, target)).w;
      AttemptOnView(s, w1, SetPowerLevel(target, m.matrixId, b.powerLevel.value), user, room);
    }
  }

  lemma JoinOneOnView(s: Script, w: World, m: Member, b: PolicyBinding, target: string, user: string, room: string)
    ensures var v, v' := View(w, user, room), View(JoinOne(s, w, m, b, target).w, user, room);
            && (user != m.matrixId || room != target ==> v' == v)
            && (v.member || !v'.member ==> v' == v)
            && (AlwaysUp(s) && user == m.matrixId && room == target ==> v' == Joined(v, b.powerLevel))
  {
    var w1 := Attempt(s, w, RoomMembers(target));
    AttemptOnView(s, w, RoomMembers(target), user, room);
    if (target, m.matrixId) !in w1.mx.members {
      JoinAbsentOnView(s, w1, m, b, target, user, room);
    }
  }

  lemma {:induction false} JoinRoomsOnView(s: Script, w: World, m: Member, b: PolicyBinding, rooms: seq<string>,
                                           user: string, room: string)
    ensures var v, v' := View(w, user, room), View(JoinRooms(s, w, m, b, rooms).w, user, room);
            && (user != m.matrixId || room !in rooms ==> v' == v)
            && (v.member || !v'.member ==> v' == v)
            && (AlwaysUp(s) && user == m.matrixId && room in rooms ==> v' == Joined(v, b.powerLevel))
    decreases |rooms|
  {
    if rooms == [] {
    } else {
      JoinOneOnView(s, w, m, b, rooms[0], user, room);
      JoinRoomsOnView(s, JoinOne(s, w, m, b, rooms[0]).w, m, b, rooms[1..], user, room);
    }
  }

  /** One binding changes only rooms it covers and only when it decides; without failures it does what `Decide` says. */
  lemma BindingOnView(s: Script, w: World, m: Member, b: PolicyBinding, user: string, room: string)
    ensures var v, v' := View(w, user, room), View(ReconcileBinding(s, w, m, b).w, user, room);
            && (user != m.matrixId || !Covers(w.mx.spaces, b, room) || VerdictOf(b, m).Keep? ==> v' == v)
            && (!VerdictOf(b, m).Remove? && (v.member || !v'.member) ==> v' == v)
            && (AlwaysUp(s) && user == m.matrixId ==> v' == Decide(w.mx.spaces, m, b, room, v))
  {
    var x := Expand(s, w, b.target.roomId);
    AttemptOnView(s, w, SpaceChildren(b.target.roomId), user, room);
    JoinRoomsOnView(s, x.w, m, b, x.targets, user, room);
    KickRoomsOnView(s, x.w, m, KICK_ACTION, SubjectText(b.subject), Reversed(x.targets), user, room);
    ReversedHasSameElements(x.targets, room);
  }

  // ----- Every run, whatever fails -----

  lemma HonestLevel(s: Script, w: World, m: Member, b: PolicyBinding, room: string)
    ensures Honest(w, SetLevel(s, w, m, b, room))
  {
    if b.powerLevel.Some? {
      HonestRead(s, w, SetPowerLevel(room, m.matrixId, b.powerLevel.value));
    }
  }

  lemma HonestJoinAbsent(s: Script, w: World, m: Member, b: PolicyBinding, room: string)
    requires w.trace != [] && w.trace[|w.trace| - 1] == Event(RoomMembers(room), true)
    ensures Honest(w, JoinAbsent(s, w, m, b, room))
  {
    var join, draft := ForceJoin(m.matrixId, room), JoinDraft(m, b, room);
    var g := ActAndLog(s, w, join, draft);
    HonestAct(s, w, join, draft);
    if g.ok {
      assert LogWarnings(g) + [] == LogWarnings(g);
      HonestLevel(s, g.w, m, b, room);
      HonestThen(w, Outcome(g.w, LogWarnings(g)), SetLevel(s, g.w, m, b, room));
    }
  }

  lemma HonestJoinOne(s: Script, w: World, m: Member, b: PolicyBinding, room: string)
    ensures Honest(w, JoinOne(s, w, m, b, room))
  {
    var read := RoomMembers(room);
    var w1 := Attempt(s, w, read);
    HonestRead(s, w, read);
    if Succeeds(s, w, read) && (room, m.matrixId) !in w1.mx.members {
      var o := JoinAbsent(s, w1, m, b, room);
      HonestJoinAbsent(s, w1, m, b, room);
      HonestThen(w, Outcome(w1, []), o);
      assert [] + o.warnings == o.warnings;
    }
  }

  lemma {:induction false} HonestJoinRooms(s: Script, w: World, m: Member, b: PolicyBinding, rooms: seq<string>)
    ensures Honest(w, JoinRooms(s, w, m, b, rooms))
    decreases |rooms|
  {
    if rooms == [] {
    } else {
      var o := JoinOne(s, w, m, b, rooms[0]);
      HonestJoinOne(s, w, m, b, rooms[0]);
      HonestJoinRooms(s, o.w, m, b, rooms[1..]);
      HonestThen(w, o, JoinRooms(s, o.w, m, b, rooms[1..]));
    }
  }

  lemma HonestBinding(s: Script, w: World, m: Member, b: PolicyBinding)
    ensures Honest(w, ReconcileBinding(s, w, m, b))
  {
    var x := Expand(s, w, b.target.roomId);
    HonestRead(s, w, SpaceChildren(b.target.roomId));
    HonestJoinRooms(s, x.w, m, b, x.targets);
    HonestKickRooms(s, x.w, m, KICK_ACTION, SubjectText(b.subject), Reversed(x.targets));
    HonestThen(w, Outcome(x.w, x.warnings), Visit(s, x.w, m, b, x.targets));
  }

  /** Whatever fails: audit entries and mutations agree one for one, and the warnings name exactly the failed calls. */
  lemma {:induction false} ReconcileIsHonest(s: Script, w: World, m: Member, bs: seq<PolicyBinding>)
    ensures Honest(w, ReconcileAll(s, w, m, bs))
    decreases |bs|
  {
    if bs == [] {
    } else {
      var o := ReconcileBinding(s, w, m, bs[0]);
      HonestBinding(s, w, m, bs[0]);
      ReconcileIsHonest(s, o.w, m, bs[1..]);
      HonestThen(w, o, ReconcileAll(s, o.w, m, bs[1..]));
    }
  }

  lemma ReconcileKeepsSpaces(s: Script, w: World, m: Member, bs: seq<PolicyBinding>)
    ensures ReconcileAll(s, w, m, bs).w.mx.spaces == w.mx.spaces
  {
    ReconcileIsHonest(s, w, m, bs);
  }

  /** Whatever fails: other users, and rooms that no deciding binding covers, are left alone. */
  lemma {:induction false} ReconcileTouchesDecidedRoomsOnly(
    s: Script, w: World, m: Member, bs: seq<PolicyBinding>, user: string, room: string)
    requires user != m.matrixId || forall b | b in bs :: Covers(w.mx.spaces, b, room) ==> VerdictOf(b, m).Keep?
    ensures View(ReconcileAll(s, w, m, bs).w, user, room) == View(w, user, room)
    decreases |bs|
  {
    if bs == [] {
    } else {
      BindingOnView(s, w, m, bs[0], user, room);
      HonestBinding(s, w, m, bs[0]);
      ReconcileTouchesDecidedRoomsOnly(s, ReconcileBinding(s, w, m, bs[0]).w, m, bs[1..], user, room);
    }
  }

  // ----- The calls of one visit -----

  /**
   Whatever fails: a join visit reads the members. If that goes through and the user is absent, it tries
   to join the user and to write an entry saying how that went. If the join went through, the entry lost
   or not, it tries to set the power level that the binding names; nothing else.
   */
  lemma JoinVisitCalls(s: Script, w: World, m: Member, b: PolicyBinding, room: string)
    returns (read: bool, joined: bool, logged: bool, level: bool)
    ensures var absent := read && (room, m.matrixId) !in w.mx.members;
            var subject := Requirements.Written(b.subject);
            var entry := AuditEntry(m.keycloakId, m.matrixId, "join_room_on_reconcile", joined, RoomDetail(room, subject));
            JoinOne(s, w, m, b, room).w.trace
            == w.trace + [Event(RoomMembers(room), read)]
               + (if absent then [Event(ForceJoin(m.matrixId, room), joined), Event(WriteAudit(entry), logged)] else [])
               + if absent && joined && b.powerLevel.Some?
                 then [Event(SetPowerLevel(room, m.matrixId, b.powerLevel.value), level)] else []
  {
    var w1 := Attempt(s, w, RoomMembers(room));
    var join, draft := ForceJoin(m.matrixId, room), JoinDraft(m, b, room);
    var g := ActAndLog(s, w1, join, draft);
    read, joined, logged, level := Succeeds(s, w, RoomMembers(room)), g.ok, g.logged, false;
    AttemptAddsOne(s, w, RoomMembers(room));
    ActAndLogAddsTwo(s, w1, join, draft);
    if b.powerLevel.Some? {
      var call := SetPowerLevel(room, m.matrixId, b.powerLevel.value);
      level := Succeeds(s, g.w, call);
      AttemptAddsOne(s, g.w, call);
    }
  }

  /** The entries that the visits of a binding write: of this user, with this action, and naming the subject of the binding. */
  ghost predicate EntriesSince(w: World, w': World, m: Member, action: string, subject: string) {
    w.trace <= w'.trace &&
    forall k | |w.trace| <= k < |w'.trace| && w'.trace[k].call.WriteAudit? ::
      var e := w'.trace[k].call.entry;
      e.keycloakId == m.keycloakId && e.matrixId == m.matrixId && e.action == action
      && e.about.RoomDetail? && e.about.subject == subject
  }

  lemma {:induction false} KickEntries(s: Script, w: World, m: Member, action: string, subject: string, rooms: seq<string>)
    ensures EntriesSince(w, KickRooms(s, w, m, action, subject, rooms).w, m, action, subject)
    decreases |rooms|
  {
    if rooms == [] {
    } else {
      var read, kicked, logged := KickVisitCalls(s, w, m, action, subject, rooms[0]);
      KickEntries(s, KickOne(s, w, m, action, subject, rooms[0]).w, m, action, subject, rooms[1..]);
    }
  }

  lemma {:induction false} JoinEntries(s: Script, w: World, m: Member, b: PolicyBinding, rooms: seq<string>, subject: string)
    requires subject == Requirements.Written(b.subject)
    ensures EntriesSince(w, JoinRooms(s, w, m, b, rooms).w, m, "join_room_on_reconcile", subject)
    decreases |rooms|
  {
    if rooms == [] {
    } else {
      var read, joined, logged, level := JoinVisitCalls(s, w, m, b, rooms[0]);
      JoinEntries(s, JoinOne(s, w, m, b, rooms[0]).w, m, b, rooms[1..], subject);
    }
  }

  /** Whatever fails, the entries written for a binding name the user, the binding's subject and the right action. */
  lemma BindingEntries(s: Script, w: World, m: Member, b: PolicyBinding)
    ensures EntriesSince(w, ReconcileBinding(s, w, m, b).w, m,
                         if VerdictOf(b, m).Add? then "join_room_on_reconcile" else "kick_room_on_reconcile",
                         Requirements.Written(b.subject))
  {
    var subject := Requirements.Written(b.subject);
    var x := Expand(s, w, b.target.roomId);
    AttemptAddsOne(s, w, SpaceChildren(b.target.roomId));
    JoinEntries(s, x.w, m, b, x.targets, subject);
    KickEntries(s, x.w, m, "kick_room_on_reconcile", subject, Reversed(x.targets));
  }

  // ----- Order of visits -----

  lemma ReadsOfJoinOne(s: Script, w: World, m: Member, b: PolicyBinding, room: string)
    ensures Reads(JoinOne(s, w, m, b, room).w.trace) == Reads(w.trace) + [room]
  {
    var read := RoomMembers(room);
    var w1 := Attempt(s, w, read);
    var join := ForceJoin(m.matrixId, room);
    TraceGrows(w.trace, Event(read, Succeeds(s, w, read)));
    ReadsOfActAndLog(s, w1, join, JoinDraft(m, b, room));
    if b.powerLevel.Some? {
      var w2 := ActAndLog(s, w1, join, JoinDraft(m, b, room)).w;
      var level := SetPowerLevel(room, m.matrixId, b.powerLevel.value);
      TraceGrows(w2.trace, Event(level, Succeeds(s, w2, level)));
    }
  }

  /** The state after the first room. */
  lemma FirstJoin(s: Script, w: World, m: Member, b: PolicyBinding, rooms: seq<string>) returns (w1: World)
    requires rooms != []
    ensures JoinRooms(s, w, m, b, rooms).w == JoinRooms(s, w1, m, b, rooms[1..]).w
    ensures Reads(w1.trace) == Reads(w.trace) + [rooms[0]]
  {
    w1 := JoinOne(s, w, m, b, rooms[0]).w;
    ReadsOfJoinOne(s, w, m, b, rooms[0]);
  }

  lemma {:induction false} JoinRoomsInOrder(s: Script, w: World, m: Member, b: PolicyBinding, rooms: seq<string>)
    ensures Reads(JoinRooms(s, w, m, b, rooms).w.trace) == Reads(w.trace) + rooms
    decreases |rooms|
  {
    if rooms == [] {
      assert Reads(w.trace) + [] == Reads(w.trace);
    } else {
      var w1 := FirstJoin(s, w, m, b, rooms);
      JoinRoomsInOrder(s, w1, m, b, rooms[1..]);
      AppendTwice(Reads(w.trace), [rooms[0]], rooms[1..], Reads(w1.trace), Reads(JoinRooms(s, w, m, b, rooms).w.trace));
      assert [rooms[0]] + rooms[1..] == rooms;
    }
  }

  /** Joins go from the space to its children, kicks from the last child back to the space. */
  function VisitOrder(targets: seq<string>, verdict: Verdict): seq<string> {
    match verdict
    case Add => targets
    case Remove => Reversed(targets)
    case Keep => []
  }

  /** The visits of a run, given for each binding whether its room could be expanded. */
  function VisitOrderAll(spaces: Spaces, m: Member, bs: seq<PolicyBinding>, expanded: seq<bool>): seq<string>
    requires |expanded| == |bs|
    decreases |bs|
  {
    if bs == [] then []
    else
      var room := bs[0].target.roomId;
      VisitOrder(if expanded[0] then Targets(spaces, room) else [room], VerdictOf(bs[0], m))
      + VisitOrderAll(spaces, m, bs[1..], expanded[1..])
  }

  lemma BindingVisitsInOrder(s: Script, w: World, m: Member, b: PolicyBinding, x: Expansion)
    requires x == Expand(s, w, b.target.roomId)
    ensures Reads(ReconcileBinding(s, w, m, b).w.trace) == Reads(w.trace) + VisitOrder(x.targets, VerdictOf(b, m))
  {
    var call := SpaceChildren(b.target.roomId);
    TraceGrows(w.trace, Event(call, Succeeds(s, w, call)));
    JoinRoomsInOrder(s, x.w, m, b, x.targets);
    KickRoomsInOrder(s, x.w, m, KICK_ACTION, SubjectText(b.subject), Reversed(x.targets));
  }

  lemma OneBindingFirst(s: Script, w: World, m: Member, bs: seq<PolicyBinding>)
    requires bs != []
    ensures ReconcileAll(s, w, m, bs).w == ReconcileAll(s, ReconcileBinding(s, w, m, bs[0]).w, m, bs[1..]).w
  {
  }

  lemma BindingKeepsSpaces(s: Script, w: World, m: Member, b: PolicyBinding)
    ensures ReconcileBinding(s, w, m, b).w.mx.spaces == w.mx.spaces
  {
    HonestBinding(s, w, m, b);
  }

  /** Whether each binding's room was expanded in the course of the run. */
  function Expanded(s: Script, w: World, m: Member, bs: seq<PolicyBinding>): (r: seq<bool>)
    ensures |r| == |bs|
    decreases |bs|
  {
    if bs == [] then []
    else
      [Succeeds(s, w, SpaceChildren(bs[0].target.roomId))]
      + Expanded(s, ReconcileBinding(s, w, m, bs[0]).w, m, bs[1..])
  }

  /**
   Whatever fails, rooms are read in binding order, forwards for joins and backwards for kicks; a
   room whose children are unknown is visited alone.
   */
  lemma {:induction false} ReconcileVisitsInOrder(s: Script, w: World, m: Member, bs: seq<PolicyBinding>)
    ensures Reads(ReconcileAll(s, w, m, bs).w.trace)
         == Reads(w.trace) + VisitOrderAll(w.mx.spaces, m, bs, Expanded(s, w, m, bs))
    decreases |bs|
  {
    if bs == [] {
    } else {
      var b := bs[0];
      var x := Expand(s, w, b.target.roomId);
      var w1 := ReconcileBinding(s, w, m, b).w;
      var expanded := Expanded(s, w1, m, bs[1..]);
      var order, rest := VisitOrder(x.targets, VerdictOf(b, m)), VisitOrderAll(w.mx.spaces, m, bs[1..], expanded);
      BindingVisitsInOrder(s, w, m, b, x);
      BindingKeepsSpaces(s, w, m, b);
      ReconcileVisitsInOrder(s, w1, m, bs[1..]);
      OneBindingFirst(s, w, m, bs);
      AppendTwice(Reads(w.trace), order, rest, Reads(w1.trace), Reads(ReconcileAll(s, w, m, bs).w.trace));
      assert Expanded(s, w, m, bs)[1..] == expanded;
    }
  }

  // ----- Which rooms are expanded -----

  lemma JoinOneExpandsNothing(s: Script, w: World, m: Member, b: PolicyBinding, room: string)
    ensures Expansions(JoinOne(s, w, m, b, room).w.trace) == Expansions(w.trace)
  {
    var w1 := Attempt(s, w, RoomMembers(room));
    var join, draft := ForceJoin(m.matrixId, room), JoinDraft(m, b, room);
    ExpansionsGrow(s, w, RoomMembers(room));
    ActExpandsNothing(s, w1, join, draft);
    if b.powerLevel.Some? {
      ExpansionsGrow(s, ActAndLog(s, w1, join, draft).w, SetPowerLevel(room, m.matrixId, b.powerLevel.value));
    }
  }

  lemma {:induction false} JoinsExpandNothing(s: Script, w: World, m: Member, b: PolicyBinding, rooms: seq<string>)
    ensures Expansions(JoinRooms(s, w, m, b, rooms).w.trace) == Expansions(w.trace)
    decreases |rooms|
  {
    if rooms == [] {
    } else {
      JoinOneExpandsNothing(s, w, m, b, rooms[0]);
      JoinsExpandNothing(s, JoinOne(s, w, m, b, rooms[0]).w, m, b, rooms[1..]);
    }
  }

  lemma BindingExpandsOne(s: Script, w: World, m: Member, b: PolicyBinding)
    ensures Expansions(ReconcileBinding(s, w, m, b).w.trace) == Expansions(w.trace) + [b.target.roomId]
  {
    var x := Expand(s, w, b.target.roomId);
    ExpansionsGrow(s, w, SpaceChildren(b.target.roomId));
    JoinsExpandNothing(s, x.w, m, b, x.targets);
    KicksExpandNothing(s, x.w, m, KICK_ACTION, SubjectText(b.subject), Reversed(x.targets));
  }

  function BindingRooms(bs: seq<PolicyBinding>): seq<string> {
    if bs == [] then [] else [bs[0].target.roomId] + BindingRooms(bs[1..])
  }

  /** Whatever fails, a run expands the room of every binding, once per binding and in list order. */
  lemma {:induction false} ReconcileExpandsAll(s: Script, w: World, m: Member, bs: seq<PolicyBinding>)
    ensures Expansions(ReconcileAll(s, w, m, bs).w.trace) == Expansions(w.trace) + BindingRooms(bs)
    decreases |bs|
  {
    if bs == [] {
    } else {
      var w1 := ReconcileBinding(s, w, m, bs[0]).w;
      BindingExpandsOne(s, w, m, bs[0]);
      ReconcileExpandsAll(s, w1, m, bs[1..]);
      OneBindingFirst(s, w, m, bs);
      AppendTwice(Expansions(w.trace), [bs[0].target.roomId], BindingRooms(bs[1..]), Expansions(w1.trace),
                  Expansions(ReconcileAll(s, w, m, bs).w.trace));
    }
  }

  // ----- Failure-free runs -----

  /** A failure-free run acts on each room exactly as the bindings, read in list order, decide for that room. */
  lemma {:induction false} ReconcileRefinesDecisions(
    s: Script, w: World, m: Member, bs: seq<PolicyBinding>, room: string)
    requires AlwaysUp(s)
    ensures View(ReconcileAll(s, w, m, bs).w, m.matrixId, room)
         == DecideAll(w.mx.spaces, m, bs, room, View(w, m.matrixId, room))
    decreases |bs|
  {
    if bs == [] {
    } else {
      BindingOnView(s, w, m, bs[0], m.matrixId, room);
      HonestBinding(s, w, m, bs[0]);
      var w1 := ReconcileBinding(s, w, m, bs[0]).w;
      ReconcileRefinesDecisions(s, w1, m, bs[1..], room);
    }
  }

  lemma {:induction false} WarningFreeJoins(s: Script, w: World, m: Member, b: PolicyBinding, rooms: seq<string>)
    requires JoinRooms(s, w, m, b, rooms).warnings == []
    ensures JoinRooms(s, w, m, b, rooms) == JoinRooms(UP, w, m, b, rooms)
    decreases |rooms|
  {
    if rooms == [] {
    } else {
      assert JoinOne(s, w, m, b, rooms[0]) == JoinOne(UP, w, m, b, rooms[0]);
      WarningFreeJoins(s, JoinOne(s, w, m, b, rooms[0]).w, m, b, rooms[1..]);
    }
  }

  /** A run without warnings made the same calls and reached the same state as the run in which nothing fails. */
  lemma {:induction false} WarningFreeIsFailureFree(s: Script, w: World, m: Member, bs: seq<PolicyBinding>)
    requires ReconcileAll(s, w, m, bs).warnings == []
    ensures ReconcileAll(s, w, m, bs) == ReconcileAll(UP, w, m, bs)
    decreases |bs|
  {
    if bs == [] {
    } else {
      var b := bs[0];
      var x := Expand(s, w, b.target.roomId);
      assert x.warnings == [] && Visit(s, x.w, m, b, x.targets).warnings == [];
      assert x == Expand(UP, w, b.target.roomId);
      match VerdictOf(b, m) {
        case Add => WarningFreeJoins(s, x.w, m, b, x.targets);
        case Remove => WarningFreeKicks(s, x.w, m, KICK_ACTION, SubjectText(b.subject), Reversed(x.targets));
        case Keep =>
      }
      WarningFreeIsFailureFree(s, ReconcileBinding(s, w, m, b).w, m, bs[1..]);
    }
  }
}
