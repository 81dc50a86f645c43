/** What a reconcile run achieves: the results a caller may rely on. */
module ReconcileResults {
  import opened Wrappers
  import opened Policy
  import opened Upstream
  import opened Rooms
  import opened Reconcile
  import opened Decisions
  import opened Requirements

  ghost predicate WarningFree(s: Script, w: World, m: Member, bs: seq<PolicyBinding>) {
    ReconcileAll(s, w, m, bs).warnings == []
  }

  /** The state after a run. */
  function After(s: Script, w: World, m: Member, bs: seq<PolicyBinding>): World {
    ReconcileAll(s, w, m, bs).w
  }

  /** A run has no warnings exactly when every call it made went through; it is then the failure-free run. */
  lemma NoWarningsMeansNothingFailed(s: Script, w: World, m: Member, bs: seq<PolicyBinding>)
    ensures WarningFree(s, w, m, bs) <==> Failures(After(s, w, m, bs).trace) == Failures(w.trace)
    ensures WarningFree(s, w, m, bs) ==> ReconcileAll(s, w, m, bs) == ReconcileAll(UP, w, m, bs)
    ensures WarningFree(UP, w, m, bs)
  {
    ReconcileIsHonest(s, w, m, bs);
    NamedFailures(w, ReconcileAll(s, w, m, bs));
    if WarningFree(s, w, m, bs) { WarningFreeIsFailureFree(s, w, m, bs); }
    UpNeverWarns(w, m, bs);
  }

  lemma {:induction false} UpNeverWarns(w: World, m: Member, bs: seq<PolicyBinding>)
    ensures WarningFree(UP, w, m, bs)
    decreases |bs|
  {
    if bs == [] {
    } else {
      var b := bs[0];
      var x := Expand(UP, w, b.target.roomId);
      UpNeverWarnsOnJoins(x.w, m, b, x.targets);
      UpKicksQuietly(x.w, m, KICK_ACTION, SubjectText(b.subject), Reversed(x.targets));
      UpNeverWarns(ReconcileBinding(UP, w, m, b).w, m, bs[1..]);
    }
  }

  lemma {:induction false} UpNeverWarnsOnJoins(w: World, m: Member, b: PolicyBinding, rooms: seq<string>)
    ensures JoinRooms(UP, w, m, b, rooms).warnings == []
    decreases |rooms|
  {
    if rooms == [] {
    } else {
      UpNeverWarnsOnJoins(JoinOne(UP, w, m, b, rooms[0]).w, m, b, rooms[1..]);
    }
  }

  // ----- A run asks its script about its own calls only -----

  ghost predicate AgreeFrom(s: Script, s': Script, n: nat) {
    forall k: nat | k >= n :: s(k) == s'(k)
  }

  lemma {:induction false} ScriptsAgreeOnKicks(s: Script, s': Script, w: World, m: Member, action: string,
                                               subject: string, rooms: seq<string>)
    requires AgreeFrom(s, s', |w.trace|)
    ensures KickRooms(s, w, m, action, subject, rooms) == KickRooms(s', w, m, action, subject, rooms)
    decreases |rooms|
  {
    if rooms == [] {
    } else {
      var o := KickOne(s, w, m, action, subject, rooms[0]);
      assert o == KickOne(s', w, m, action, subject, rooms[0]) && |o.w.trace| >= |w.trace|;
      ScriptsAgreeOnKicks(s, s', o.w, m, action, subject, rooms[1..]);
    }
  }

  lemma {:induction false} ScriptsAgreeOnJoins(s: Script, s': Script, w: World, m: Member, b: PolicyBinding,
                                               rooms: seq<string>)
    requires AgreeFrom(s, s', |w.trace|)
    ensures JoinRooms(s, w, m, b, rooms) == JoinRooms(s', w, m, b, rooms)
    decreases |rooms|
  {
    if rooms == [] {
    } else {
      var o := JoinOne(s, w, m, b, rooms[0]);
      assert o == JoinOne(s', w, m, b, rooms[0]) && |o.w.trace| >= |w.trace|;
      ScriptsAgreeOnJoins(s, s', o.w, m, b, rooms[1..]);
    }
  }

  /** Two scripts that agree from the first call of a run on give the same run. */
  lemma {:induction false} ScriptsAgree(s: Script, s': Script, w: World, m: Member, bs: seq<PolicyBinding>)
    requires AgreeFrom(s, s', |w.trace|)
    ensures ReconcileAll(s, w, m, bs) == ReconcileAll(s', w, m, bs)
    decreases |bs|
  {
    if bs == [] {
    } else {
      var b := bs[0];
      var x := Expand(s, w, b.target.roomId);
      assert x == Expand(s', w, b.target.roomId);
      ScriptsAgreeOnJoins(s, s', x.w, m, b, x.targets);
      ScriptsAgreeOnKicks(s, s', x.w, m, KICK_ACTION, SubjectText(b.subject), Reversed(x.targets));
      HonestBinding(s, w, m, b);
      ScriptsAgree(s, s', ReconcileBinding(s, w, m, b).w, m, bs[1..]);
    }
  }

  /** The view of any room after a warning-free run. */
  lemma WarningFreeView(s: Script, w: World, m: Member, bs: seq<PolicyBinding>, room: string)
    requires WarningFree(s, w, m, bs)
    ensures View(After(s, w, m, bs), m.matrixId, room) == DecideAll(w.mx.spaces, m, bs, room, View(w, m.matrixId, room))
  {
    WarningFreeIsFailureFree(s, w, m, bs);
    ReconcileRefinesDecisions(UP, w, m, bs, room);
  }

  // ----- Final membership -----

  /** The last binding in list order that decides a room says whether the user ends up in it. */
  lemma LastDecidingBindingWins(s: Script, w: World, m: Member, bs: seq<PolicyBinding>, room: string, i: nat)
    requires WarningFree(s, w, m, bs)
    requires i < |bs| && Decides(w.mx.spaces, m, bs[i], room)
    requires forall j | i < j < |bs| :: !Decides(w.mx.spaces, m, bs[j], room)
    ensures (room, m.matrixId) in After(s, w, m, bs).mx.members <==> UserMatchesBinding(bs[i], m)
  {
    WarningFreeView(s, w, m, bs, room);
    LastDecides(w.mx.spaces, m, bs, room, View(w, m.matrixId, room), i);
  }

  /** After a run without warnings the user is in a room exactly if the user belongs there. */
  lemma RunGivesWhatBelongs(s: Script, w: World, m: Member, bs: seq<PolicyBinding>, room: string)
    requires WarningFree(s, w, m, bs)
    ensures (room, m.matrixId) in After(s, w, m, bs).mx.members
       <==> Belongs(w.mx.spaces, m.groups, m.roles, bs, room, (room, m.matrixId) in w.mx.members)
  {
    WarningFreeView(s, w, m, bs, room);
    FoldGivesWhatBelongs(w.mx.spaces, m, bs, room, View(w, m.matrixId, room));
    assert View(After(s, w, m, bs), m.matrixId, room).member
       <==> Belongs(w.mx.spaces, m.groups, m.roles, bs, room, View(w, m.matrixId, room).member);
  }

  /** Under any script, everyone else and every undecided room keep membership and power level and see no call. */
  lemma OthersAreUntouched(s: Script, w: World, m: Member, bs: seq<PolicyBinding>, user: string, room: string)
    requires user != m.matrixId || forall b | b in bs :: !Decides(w.mx.spaces, m, b, room)
    ensures View(After(s, w, m, bs), user, room) == View(w, user, room)
  {
    ReconcileTouchesDecidedRoomsOnly(s, w, m, bs, user, room);
  }

  /** However a first run fails, a warning-free second run ends with the membership of one failure-free run. */
  lemma RetryRepairsMembership(s1: Script, s2: Script, w: World, m: Member, bs: seq<PolicyBinding>)
    requires WarningFree(s2, After(s1, w, m, bs), m, bs)
    ensures After(s2, After(s1, w, m, bs), m, bs).mx.members == After(UP, w, m, bs).mx.members
  {
    var w1 := After(s1, w, m, bs);
    var w2 := After(s2, w1, m, bs);
    var up := After(UP, w, m, bs);
    ReconcileIsHonest(s1, w, m, bs);
    UpNeverWarns(w, m, bs);
    forall room: string, user: string
      ensures (room, user) in w2.mx.members <==> (room, user) in up.mx.members
    {
      RetryRepairsRoom(s1, s2, w, m, bs, user, room);
      assert View(w2, user, room).member == View(up, user, room).member;
    }
    forall p ensures p in w2.mx.members <==> p in up.mx.members {
      assert p == (p.0, p.1);
    }
  }

  lemma RetryRepairsRoom(
    s1: Script, s2: Script, w: World, m: Member, bs: seq<PolicyBinding>, user: string, room: string)
    requires WarningFree(s2, After(s1, w, m, bs), m, bs)
    ensures View(After(s2, After(s1, w, m, bs), m, bs), user, room).member == View(After(UP, w, m, bs), user, room).member
  {
    var w1 := After(s1, w, m, bs);
    ReconcileIsHonest(s1, w, m, bs);
    UpNeverWarns(w, m, bs);
    assert forall b :: Decides(w1.mx.spaces, m, b, room) == Decides(w.mx.spaces, m, b, room);
    if user == m.matrixId && exists i :: 0 <= i < |bs| && Decides(w.mx.spaces, m, bs[i], room) {
      var i :| 0 <= i < |bs| && Decides(w.mx.spaces, m, bs[i], room);
      var k := LastDeciding(w.mx.spaces, m, bs, room, i);
      LastDecidingBindingWins(s2, w1, m, bs, room, k);
      LastDecidingBindingWins(UP, w, m, bs, room, k);
    } else {
      OthersAreUntouched(s1, w, m, bs, user, room);
      OthersAreUntouched(s2, w1, m, bs, user, room);
      OthersAreUntouched(UP, w, m, bs, user, room);
    }
  }

  // ----- Quiet second run -----

  /** A second run changes nothing in a room, and calls nothing on it, exactly when no two bindings conflict there. */
  lemma SecondRunIsQuietIff(w: World, m: Member, bs: seq<PolicyBinding>, room: string)
    ensures var w1 := After(UP, w, m, bs);
            View(After(UP, w1, m, bs), m.matrixId, room) == View(w1, m.matrixId, room)
            <==> ConflictFree(w.mx.spaces, m, bs, room)
  {
    var w1 := After(UP, w, m, bs);
    ReconcileIsHonest(UP, w, m, bs);
    ReconcileRefinesDecisions(UP, w, m, bs, room);
    ReconcileRefinesDecisions(UP, w1, m, bs, room);
    AgreedRoomIsQuiet(w.mx.spaces, m, bs, room, View(w1, m.matrixId, room));
    SettledMeansConflictFree(w.mx.spaces, m, bs, room, View(w, m.matrixId, room));
  }

  /** On a conflict-free room one failure-free run makes at most one join or kick. */
  lemma OneActionPerRoom(w: World, m: Member, bs: seq<PolicyBinding>, room: string)
    requires ConflictFree(w.mx.spaces, m, bs, room)
    ensures var v, v' := View(w, m.matrixId, room), View(After(UP, w, m, bs), m.matrixId, room);
            v'.joins + v'.kicks <= v.joins + v.kicks + 1
  {
    ReconcileRefinesDecisions(UP, w, m, bs, room);
    ConflictFreeMeansAgreed(w.mx.spaces, m, bs, room);
    AgreedRoomMovesOnce(w.mx.spaces, m, bs, room, View(w, m.matrixId, room), AllWant(w.mx.spaces, m, bs, room, true));
  }

  /**
   It does happen: a role binding lets the user in after a group binding has thrown the user out. The
   second run, like the first, kicks the user and joins the user again.
   */
  lemma SecondRunMayRepeat(w: World)
    requires w.mx == Matrix({("!r", "@u:d")}, map[], map[])
    ensures var m := Member("kc", "@u:d", [], ["staff"]);
            var bs := [PolicyBinding("1", Group("team"), Room("!r"), None, true, "", ""),
                       PolicyBinding("2", Role("staff"), Room("!r"), None, false, "", "")];
            var w1 := After(UP, w, m, bs);
            var v, v1, v2 := View(w, "@u:d", "!r"), View(w1, "@u:d", "!r"), View(After(UP, w1, m, bs), "@u:d", "!r");
            && v1 == v.(joins := v.joins + 1, kicks := v.kicks + 1)
            && v2 == v.(joins := v.joins + 2, kicks := v.kicks + 2)
  {
    var m := Member("kc", "@u:d", [], ["staff"]);
    var b1 := PolicyBinding("1", Group("team"), Room("!r"), None, true, "", "");
    var b2 := PolicyBinding("2", Role("staff"), Room("!r"), None, false, "", "");
    var w1 := After(UP, w, m, [b1, b2]);
    OutAndIn(w, m, b1, b2, "!r");
    ReconcileKeepsSpaces(UP, w, m, [b1, b2]);
    OutAndIn(w1, m, b1, b2, "!r");
  }

  lemma OutAndIn(w: World, m: Member, b1: PolicyBinding, b2: PolicyBinding, room: string)
    requires b1.target.roomId == room && VerdictOf(b1, m).Remove?
    requires b2.target.roomId == room && VerdictOf(b2, m).Add? && b2.powerLevel.None?
    requires (room, m.matrixId) in w.mx.members
    ensures var v := View(w, m.matrixId, room);
            View(After(UP, w, m, [b1, b2]), m.matrixId, room) == v.(joins := v.joins + 1, kicks := v.kicks + 1)
  {
    var v := View(w, m.matrixId, room);
    ReconcileRefinesDecisions(UP, w, m, [b1, b2], room);
    assert [b1, b2][1..] == [b2] && [b2][1..] == [];
    assert DecideAll(w.mx.spaces, m, [b2], room, Kicked(v)) == Joined(Kicked(v), None);
  }

  // ----- Power levels -----

  /** A user joined to a conflict-free room gets the level of the first matching binding that covers it. */
  lemma FirstMatchGivesPower(s: Script, w: World, m: Member, bs: seq<PolicyBinding>, room: string, i: nat)
    requires WarningFree(s, w, m, bs)
    requires ConflictFree(w.mx.spaces, m, bs, room) && (room, m.matrixId) !in w.mx.members
    requires i < |bs| && Covers(w.mx.spaces, bs[i], room) && UserMatchesBinding(bs[i], m)
    requires forall j | 0 <= j < i :: !(Covers(w.mx.spaces, bs[j], room) && UserMatchesBinding(bs[j], m))
    ensures View(After(s, w, m, bs), m.matrixId, room) == Joined(View(w, m.matrixId, room), bs[i].powerLevel)
  {
    assert Decides(w.mx.spaces, m, bs[i], room) && bs[i] in bs;
    WarningFreeView(s, w, m, bs, room);
    forall b | b in bs && Decides(w.mx.spaces, m, b, room) ensures VerdictOf(b, m).Add? {
      assert VerdictOf(b, m) == VerdictOf(bs[i], m);
    }
    forall j | 0 <= j < i ensures !Decides(w.mx.spaces, m, bs[j], room) {
      assert bs[j] in bs;
    }
    FirstMatchSetsPower(w.mx.spaces, m, bs, room, View(w, m.matrixId, room), i);
  }

  /**
   Where every deciding binding matches, a run that leaves the user out has done nothing, and one that
   finds the user in does nothing.
   */
  lemma {:induction false} MatchedRoomAllOrNothing(s: Script, w: World, m: Member, bs: seq<PolicyBinding>, room: string)
    requires AllWant(w.mx.spaces, m, bs, room, true)
    ensures var v, v' := View(w, m.matrixId, room), View(After(s, w, m, bs), m.matrixId, room);
            v.member || !v'.member ==> v' == v
    decreases |bs|
  {
    if bs == [] {
    } else {
      var w1 := ReconcileBinding(s, w, m, bs[0]).w;
      assert bs == [bs[0]] + bs[1..];
      BindingOnView(s, w, m, bs[0], m.matrixId, room);
      HonestBinding(s, w, m, bs[0]);
      assert forall b :: Decides(w1.mx.spaces, m, b, room) == Decides(w.mx.spaces, m, b, room);
      MatchedRoomAllOrNothing(s, w1, m, bs[1..], room);
    }
  }

  /**
   The power level after a retry, and the one a single failure-free run gives. Each is the last level
   its bindings set, given where the user stands when it starts, and the level found there if they set
   none. So the retry repairs the level exactly where these two agree.
   */
  lemma RetryPower(s1: Script, w: World, m: Member, bs: seq<PolicyBinding>, room: string)
    ensures var w1 := After(s1, w, m, bs);
            var v, v1 := View(w, m.matrixId, room), View(w1, m.matrixId, room);
            var last, last1 := LastLevel(w.mx.spaces, m, bs, room, v.member), LastLevel(w.mx.spaces, m, bs, room, v1.member);
            && View(After(UP, w1, m, bs), m.matrixId, room).power == (if last1.Some? then last1 else v1.power)
            && View(After(UP, w, m, bs), m.matrixId, room).power == (if last.Some? then last else v.power)
  {
    var w1 := After(s1, w, m, bs);
    ReconcileKeepsSpaces(s1, w, m, bs);
    RunGivesLastLevel(w, m, bs, room);
    RunGivesLastLevel(w1, m, bs, room);
  }

  lemma RunGivesLastLevel(w: World, m: Member, bs: seq<PolicyBinding>, room: string)
    ensures var v, last := View(w, m.matrixId, room), LastLevel(w.mx.spaces, m, bs, room, View(w, m.matrixId, room).member);
            && View(After(UP, w, m, bs), m.matrixId, room).power == (if last.Some? then last else v.power)
            && (View(After(UP, w, m, bs), m.matrixId, room).levels == v.levels <==> last.None?)
  {
    ReconcileRefinesDecisions(UP, w, m, bs, room);
    LevelOfFold(w.mx.spaces, m, bs, room, View(w, m.matrixId, room));
  }

  /**
   Where every deciding binding matches: a retry gives the failure-free power level if it still has to
   join the user, and otherwise leaves whatever level the failed run left.
   */
  lemma RetryPowerWhereMatched(s1: Script, w: World, m: Member, bs: seq<PolicyBinding>, room: string)
    requires AllWant(w.mx.spaces, m, bs, room, true)
    ensures var v1 := View(After(s1, w, m, bs), m.matrixId, room);
            var v2 := View(After(UP, After(s1, w, m, bs), m, bs), m.matrixId, room);
            v2.power == if v1.member then v1.power else View(After(UP, w, m, bs), m.matrixId, room).power
  {
    RetryPower(s1, w, m, bs, room);
    MatchedRoomAllOrNothing(s1, w, m, bs, room);
    NoLevelForMembers(w.mx.spaces, m, bs, room);
  }

  /** A script that refuses the power-level call leaves the user joined, without the level. */
  lemma LevelLost(s: Script, w: World, m: Member, b: PolicyBinding, room: string)
    requires w.trace == [] && w.mx == Matrix({}, map[], map[])
    requires b.target.roomId == room && b.powerLevel.Some? && UserMatchesBinding(b, m)
    requires s(0) && s(1) && s(2) && s(3) && !s(4)
    ensures ReconcileBinding(s, w, m, b).warnings == [PowerLevelFailed(room)]
    ensures ReconcileBinding(s, w, m, b).w.mx == Matrix({(room, m.matrixId)}, map[], map[])
  {
    var w0 := Expand(s, w, room).w;
    var w1 := Attempt(s, w0, RoomMembers(room));
    var g := ActAndLog(s, w1, ForceJoin(m.matrixId, room), JoinDraft(m, b, room));
    assert |g.w.trace| == 4 && g.ok && g.logged;
    var o := JoinOne(s, w0, m, b, room);
    assert LogWarnings(g) + [PowerLevelFailed(room)] == [PowerLevelFailed(room)];
    assert o == SetLevel(s, g.w, m, b, room);
    assert JoinRooms(s, w0, m, b, [room]) == o by {
      assert JoinRooms(s, o.w, m, b, [room][1..]) == Outcome(o.w, []);
      assert o.warnings + [] == o.warnings;
    }
    var x := Expand(s, w, room);
    assert x.targets == [room] && x.w == w0 && Visit(s, w0, m, b, [room]) == o;
    assert ReconcileBinding(s, w, m, b).warnings == x.warnings + o.warnings == [PowerLevelFailed(room)];
  }

  /** So a retry does not repair a failed power-level call: here the level 50 is lost for good. */
  lemma RetryDoesNotRepairPower(s: Script, w: World)
    requires w.trace == [] && w.mx == Matrix({}, map[], map[])
    requires s(0) && s(1) && s(2) && s(3) && !s(4)
    ensures var b := PolicyBinding("b", Group("staff"), Room("!r"), Some(50), false, "", "");
            var m := Member("kc", "@u:d", ["staff"], []);
            && View(After(UP, After(s, w, m, [b]), m, [b]), m.matrixId, "!r").power == None
            && View(After(UP, w, m, [b]), m.matrixId, "!r").power == Some(50)
  {
    var b := PolicyBinding("b", Group("staff"), Room("!r"), Some(50), false, "", "");
    var m := Member("kc", "@u:d", ["staff"], []);
    LevelLost(s, w, m, b, "!r");
    var o := ReconcileBinding(s, w, m, b);
    assert ReconcileAll(s, o.w, m, [b][1..]) == Outcome(o.w, []);
    assert After(s, w, m, [b]) == o.w;
    RetryPowerWhereMatched(s, w, m, [b], "!r");
    UpNeverWarns(w, m, [b]);
    FirstMatchGivesPower(UP, w, m, [b], "!r", 0);
  }
}
