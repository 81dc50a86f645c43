/** A failure that does not concern a room leaves what a run does to that room as it would be without it. */
module Isolation {
  import opened Wrappers
  import opened Policy
  import opened Upstream
  import opened Rooms
  import opened Reconcile
  import opened ReconcileResults
  import opened Requirements
  import opened Decisions

  /** The calls on which the user's place in a room depends: those on the room, and the expansion of its spaces. */
  predicate Concerns(spaces: Spaces, call: Call, user: string, room: string) {
    || call == RoomMembers(room) || call == ForceJoin(user, room) || call == KickUser(user, room)
    || (call.SetPowerLevel? && call.user == user && call.room == room)
    || (call.SpaceChildren? && call.room in spaces && room in spaces[call.room])
  }

  /** From `w` to `w'` none of those calls failed. Others may have. */
  ghost predicate Untroubled(w: World, w': World, spaces: Spaces, user: string, room: string) {
    w.trace <= w'.trace &&
    forall k | |w.trace| <= k < |w'.trace| && Concerns(spaces, w'.trace[k].call, user, room) :: w'.trace[k].ok
  }

  lemma Parts(w: World, w1: World, w2: World, spaces: Spaces, user: string, room: string)
    requires Untroubled(w, w2, spaces, user, room) && w.trace <= w1.trace <= w2.trace
    ensures Untroubled(w, w1, spaces, user, room) && Untroubled(w1, w2, spaces, user, room)
  {
    assert forall k | 0 <= k < |w1.trace| :: w1.trace[k] == w2.trace[k];
  }

  // ----- Kicks -----

  lemma KickOneKeepsOn(s: Script, w: World, m: Member, action: string, subject: string, target: string, spaces: Spaces,
                       room: string)
    requires Untroubled(w, KickOne(s, w, m, action, subject, target).w, spaces, m.matrixId, room)
    ensures var v, v' := View(w, m.matrixId, room), View(KickOne(s, w, m, action, subject, target).w, m.matrixId, room);
            v' == if room == target then Kicked(v) else v
  {
    var w1, w' := Attempt(s, w, RoomMembers(target)), KickOne(s, w, m, action, subject, target).w;
    var kick := KickUser(m.matrixId, target);
    var read, kicked, logged := KickVisitCalls(s, w, m, action, subject, target);
    KickOneOnView(s, w, m, action, subject, target, m.matrixId, room);
    if room == target {
      assert w'.trace[|w.trace|] == Event(RoomMembers(target), read);
      if (room, m.matrixId) in w.mx.members {
        assert w'.trace[|w.trace| + 1] == Event(kick, kicked);
        AttemptOnView(s, w, RoomMembers(target), m.matrixId, room);
        KickShows(s, w1, kick, KickDraft(m, action, subject, target), w', kicked);
      }
    }
  }

  lemma KickShows(s: Script, w: World, kick: Call, draft: AuditEntry, w': World, kicked: bool)
    requires kick.KickUser? && (kick.room, kick.user) in w.mx.members
    requires w' == ActAndLog(s, w, kick, draft).w
    requires |w.trace| < |w'.trace| && w'.trace[|w.trace|] == Event(kick, kicked)
    ensures kicked ==> View(w', kick.user, kick.room) == Kicked(View(w, kick.user, kick.room))
  {
    AttemptOnView(s, w, kick, kick.user, kick.room);
    ActAndLogOnView(s, w, kick, draft, kick.user, kick.room);
    ActAndLogAddsTwo(s, w, kick, draft);
  }

  lemma {:induction false} KickRoomsExtend(s: Script, w: World, m: Member, action: string, subject: string, rooms: seq<string>)
    ensures w.trace <= KickRooms(s, w, m, action, subject, rooms).w.trace
    decreases |rooms|
  {
    if rooms == [] {
    } else {
      var read, kicked, logged := KickVisitCalls(s, w, m, action, subject, rooms[0]);
      KickRoomsExtend(s, KickOne(s, w, m, action, subject, rooms[0]).w, m, action, subject, rooms[1..]);
    }
  }

  /** The state after the first room. */
  lemma FirstKick(s: Script, w: World, m: Member, action: string, subject: string, rooms: seq<string>, spaces: Spaces,
                  room: string)
    returns (w1: World)
    requires rooms != [] && Untroubled(w, KickRooms(s, w, m, action, subject, rooms).w, spaces, m.matrixId, room)
    ensures KickRooms(s, w, m, action, subject, rooms).w == KickRooms(s, w1, m, action, subject, rooms[1..]).w
    ensures Untroubled(w1, KickRooms(s, w1, m, action, subject, rooms[1..]).w, spaces, m.matrixId, room)
    ensures View(w1, m.matrixId, room)
         == if room == rooms[0] then Kicked(View(w, m.matrixId, room)) else View(w, m.matrixId, room)
  {
    w1 := KickOne(s, w, m, action, subject, rooms[0]).w;
    var read, kicked, logged := KickVisitCalls(s, w, m, action, subject, rooms[0]);
    KickRoomsExtend(s, w1, m, action, subject, rooms[1..]);
    Parts(w, w1, KickRooms(s, w1, m, action, subject, rooms[1..]).w, spaces, m.matrixId, room);
    KickOneKeepsOn(s, w, m, action, subject, rooms[0], spaces, room);
  }

  lemma {:induction false} KickRoomsKeepOn(s: Script, w: World, m: Member, action: string, subject: string,
                                           rooms: seq<string>, spaces: Spaces, room: string)
    requires Untroubled(w, KickRooms(s, w, m, action, subject, rooms).w, spaces, m.matrixId, room)
    ensures View(KickRooms(s, w, m, action, subject, rooms).w, m.matrixId, room)
         == if room in rooms then Kicked(View(w, m.matrixId, room)) else View(w, m.matrixId, room)
    decreases |rooms|
  {
    if rooms == [] {
    } else {
      var w1 := FirstKick(s, w, m, action, subject, rooms, spaces, room);
      KickRoomsKeepOn(s, w1, m, action, subject, rooms[1..], spaces, room);
      assert rooms == [rooms[0]] + rooms[1..];
    }
  }

  // ----- Joins -----

  /** The join visit of an absent user, when no call that concerns the room fails. */
  lemma JoinGoesThrough(s: Script, w: World, m: Member, b: PolicyBinding, spaces: Spaces, room: string) returns (w1: World)
    requires Untroubled(w, JoinOne(s, w, m, b, room).w, spaces, m.matrixId, room) && (room, m.matrixId) !in w.mx.members
    ensures w1.trace == w.trace + [Event(RoomMembers(room), true)]
    ensures (room, m.matrixId) !in w1.mx.members && View(w1, m.matrixId, room) == View(w, m.matrixId, room)
    ensures JoinOne(s, w, m, b, room).w == JoinAbsent(s, w1, m, b, room).w
    ensures var t := JoinAbsent(s, w1, m, b, room).w.trace;
            && |w1.trace| < |t| && t[|w1.trace|] == Event(ForceJoin(m.matrixId, room), true)
            && (b.powerLevel.Some? ==>
                 |w1.trace| + 2 < |t| && t[|w1.trace| + 2] == Event(SetPowerLevel(room, m.matrixId, b.powerLevel.value), true))
  {
    var w' := JoinOne(s, w, m, b, room).w;
    var read, joined, logged, level := JoinVisitCalls(s, w, m, b, room);
    w1 := Attempt(s, w, RoomMembers(room));
    assert w'.trace[|w.trace|] == Event(RoomMembers(room), read);
    assert w'.trace[|w.trace| + 1] == Event(ForceJoin(m.matrixId, room), joined);
    if b.powerLevel.Some? {
      assert w'.trace[|w.trace| + 3] == Event(SetPowerLevel(room, m.matrixId, b.powerLevel.value), level);
    }
    AttemptOnView(s, w, RoomMembers(room), m.matrixId, room);
  }

  lemma JoinOneKeepsOn(s: Script, w: World, m: Member, b: PolicyBinding, target: string, spaces: Spaces, room: string)
    requires Untroubled(w, JoinOne(s, w, m, b, target).w, spaces, m.matrixId, room)
    ensures var v, v' := View(w, m.matrixId, room), View(JoinOne(s, w, m, b, target).w, m.matrixId, room);
            v' == if room == target then Joined(v, b.powerLevel) else v
  {
    if room == target && (room, m.matrixId) !in w.mx.members {
      var w1 := JoinGoesThrough(s, w, m, b, spaces, room);
      JoinShows(s, w1, m, b, room);
    } else {
      JoinOneOnView(s, w, m, b, target, m.matrixId, room);
    }
  }

  /** A join visit to an absent user in which the join, and the power level if there is one, go through. */
  lemma JoinShows(s: Script, w: World, m: Member, b: PolicyBinding, room: string)
    requires (room, m.matrixId) !in w.mx.members
    requires var t := JoinAbsent(s, w, m, b, room).w.trace;
             && |w.trace| < |t| && t[|w.trace|] == Event(ForceJoin(m.matrixId, room), true)
             && (b.powerLevel.Some? ==>
                  |w.trace| + 2 < |t| && t[|w.trace| + 2] == Event(SetPowerLevel(room, m.matrixId, b.powerLevel.value), true))
    ensures View(JoinAbsent(s, w, m, b, room).w, m.matrixId, room) == Joined(View(w, m.matrixId, room), b.powerLevel)
  {
    var join, draft := ForceJoin(m.matrixId, room), JoinDraft(m, b, room);
    var g := ActAndLog(s, w, join, draft);
    ActAndLogAddsTwo(s, w, join, draft);
    AttemptOnView(s, w, join, m.matrixId, room);
    ActAndLogOnView(s, w, join, draft, m.matrixId, room);
    if b.powerLevel.Some? {
      var call := SetPowerLevel(room, m.matrixId, b.powerLevel.value);
      AttemptAddsOne(s, g.w, call);
      AttemptOnView(s, g.w, call, m.matrixId, room);
    }
  }

  /** The state after the first room. */
  lemma FirstJoinKeepsOn(s: Script, w: World, m: Member, b: PolicyBinding, rooms: seq<string>, spaces: Spaces, room: string)
    returns (w1: World)
    requires rooms != [] && Untroubled(w, JoinRooms(s, w, m, b, rooms).w, spaces, m.matrixId, room)
    ensures JoinRooms(s, w, m, b, rooms).w == JoinRooms(s, w1, m, b, rooms[1..]).w
    ensures Untroubled(w1, JoinRooms(s, w1, m, b, rooms[1..]).w, spaces, m.matrixId, room)
    ensures View(w1, m.matrixId, room)
         == if room == rooms[0] then Joined(View(w, m.matrixId, room), b.powerLevel) else View(w, m.matrixId, room)
  {
    w1 := JoinOne(s, w, m, b, rooms[0]).w;
    HonestJoinOne(s, w, m, b, rooms[0]);
    HonestJoinRooms(s, w1, m, b, rooms[1..]);
    Parts(w, w1, JoinRooms(s, w1, m, b, rooms[1..]).w, spaces, m.matrixId, room);
    JoinOneKeepsOn(s, w, m, b, rooms[0], spaces, room);
  }

  lemma {:induction false} JoinRoomsKeepOn(s: Script, w: World, m: Member, b: PolicyBinding, rooms: seq<string>,
                                           spaces: Spaces, room: string)
    requires Untroubled(w, JoinRooms(s, w, m, b, rooms).w, spaces, m.matrixId, room)
    ensures View(JoinRooms(s, w, m, b, rooms).w, m.matrixId, room)
         == if room in rooms then Joined(View(w, m.matrixId, room), b.powerLevel) else View(w, m.matrixId, room)
    decreases |rooms|
  {
    if rooms == [] {
    } else {
      var w1 := FirstJoinKeepsOn(s, w, m, b, rooms, spaces, room);
      JoinRoomsKeepOn(s, w1, m, b, rooms[1..], spaces, room);
      assert rooms == [rooms[0]] + rooms[1..];
    }
  }

  // ----- Bindings -----

  /** The targets of an expansion hold the room exactly if the place reaches it, unless the expansion itself is the trouble. */
  lemma ExpansionReaches(s: Script, w: World, place: string, user: string, room: string)
    requires Untroubled(w, Expand(s, w, place).w, w.mx.spaces, user, room)
    ensures room in Expand(s, w, place).targets <==> Reaches(w.mx.spaces, place, room)
  {
    var w1 := Expand(s, w, place).w;
    AttemptAddsOne(s, w, SpaceChildren(place));
    assert w1.trace[|w.trace|] == Event(SpaceChildren(place), Succeeds(s, w, SpaceChildren(place)));
  }

  lemma BindingExtends(s: Script, w: World, m: Member, b: PolicyBinding)
    ensures var x, w' := Expand(s, w, b.target.roomId), ReconcileBinding(s, w, m, b).w;
            w.trace <= x.w.trace <= w'.trace && w'.mx.spaces == w.mx.spaces
  {
    var x := Expand(s, w, b.target.roomId);
    AttemptAddsOne(s, w, SpaceChildren(b.target.roomId));
    HonestJoinRooms(s, x.w, m, b, x.targets);
    HonestKickRooms(s, x.w, m, KICK_ACTION, SubjectText(b.subject), Reversed(x.targets));
  }

  lemma BindingKeepsOn(s: Script, w: World, m: Member, b: PolicyBinding, room: string)
    requires Untroubled(w, ReconcileBinding(s, w, m, b).w, w.mx.spaces, m.matrixId, room)
    ensures View(ReconcileBinding(s, w, m, b).w, m.matrixId, room)
         == Decide(w.mx.spaces, m, b, room, View(w, m.matrixId, room))
  {
    var x, w' := Expand(s, w, b.target.roomId), ReconcileBinding(s, w, m, b).w;
    BindingExtends(s, w, m, b);
    Parts(w, x.w, w', w.mx.spaces, m.matrixId, room);
    ExpansionReaches(s, w, b.target.roomId, m.matrixId, room);
    AttemptOnView(s, w, SpaceChildren(b.target.roomId), m.matrixId, room);
    match VerdictOf(b, m) {
      case Add => JoinRoomsKeepOn(s, x.w, m, b, x.targets, w.mx.spaces, room);
      case Remove =>
        KickRoomsKeepOn(s, x.w, m, KICK_ACTION, SubjectText(b.subject), Reversed(x.targets), w.mx.spaces, room);
        ReversedHasSameElements(x.targets, room);
      case Keep =>
    }
  }

  /** The state after the first binding. */
  lemma FirstBinding(s: Script, w: World, m: Member, bs: seq<PolicyBinding>, room: string) returns (w1: World)
    requires bs != [] && Untroubled(w, After(s, w, m, bs), w.mx.spaces, m.matrixId, room)
    ensures After(s, w, m, bs) == After(s, w1, m, bs[1..]) && w1.mx.spaces == w.mx.spaces
    ensures Untroubled(w1, After(s, w1, m, bs[1..]), w.mx.spaces, m.matrixId, room)
    ensures View(w1, m.matrixId, room) == Decide(w.mx.spaces, m, bs[0], room, View(w, m.matrixId, room))
  {
    w1 := ReconcileBinding(s, w, m, bs[0]).w;
    BindingExtends(s, w, m, bs[0]);
    ReconcileIsHonest(s, w1, m, bs[1..]);
    Parts(w, w1, After(s, w1, m, bs[1..]), w.mx.spaces, m.matrixId, room);
    BindingKeepsOn(s, w, m, bs[0], room);
  }

  /**
   Whatever else fails: if no call that concerns the user's place in a room failed, the run leaves that
   room exactly as the bindings, read in list order, decide.
   */
  lemma {:induction false} TroubleElsewhereIsHarmless(s: Script, w: World, m: Member, bs: seq<PolicyBinding>, room: string)
    requires Untroubled(w, After(s, w, m, bs), w.mx.spaces, m.matrixId, room)
    ensures View(After(s, w, m, bs), m.matrixId, room) == DecideAll(w.mx.spaces, m, bs, room, View(w, m.matrixId, room))
    decreases |bs|
  {
    if bs == [] {
    } else {
      var w1 := FirstBinding(s, w, m, bs, room);
      TroubleElsewhereIsHarmless(s, w1, m, bs[1..], room);
    }
  }

  /** In particular the user is then in the room exactly if the user belongs there. */
  lemma UntroubledRoomIsRight(s: Script, w: World, m: Member, bs: seq<PolicyBinding>, room: string)
    requires Untroubled(w, After(s, w, m, bs), w.mx.spaces, m.matrixId, room)
    ensures (room, m.matrixId) in After(s, w, m, bs).mx.members
       <==> Belongs(w.mx.spaces, m.groups, m.roles, bs, room, (room, m.matrixId) in w.mx.members)
  {
    TroubleElsewhereIsHarmless(s, w, m, bs, room);
    FoldGivesWhatBelongs(w.mx.spaces, m, bs, room, View(w, m.matrixId, room));
    assert View(After(s, w, m, bs), m.matrixId, room).member
       <==> Belongs(w.mx.spaces, m.groups, m.roles, bs, room, View(w, m.matrixId, room).member);
  }
}
