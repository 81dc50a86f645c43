/** What a list of decisions does to one room, independently of how the calls are made. */
module Decisions {
  import opened Wrappers
  import opened Policy
  import opened Upstream
  import opened Rooms
  import opened Reconcile
  import opened Requirements

  /** A binding decides a room when it covers it and would add or remove the user. */
  predicate Decides(spaces: Spaces, m: Member, b: PolicyBinding, room: string) {
    Covers(spaces, b, room) && !VerdictOf(b, m).Keep?
  }

  /** No binding both adds the user to the room while another removes the user from it. */
  ghost predicate ConflictFree(spaces: Spaces, m: Member, bs: seq<PolicyBinding>, room: string) {
    forall b, c | b in bs && c in bs && Decides(spaces, m, b, room) && Decides(spaces, m, c, room) ::
      VerdictOf(b, m) == VerdictOf(c, m)
  }

  /** Every binding that decides the room wants the user in it (`inside`), or every one wants the user out. */
  ghost predicate AllWant(spaces: Spaces, m: Member, bs: seq<PolicyBinding>, room: string, inside: bool) {
    forall b | b in bs && Decides(spaces, m, b, room) :: VerdictOf(b, m).Add? == inside
  }

  /** Some binding moves the user out of state `inside`, and a later one moves the user back. */
  ghost predicate FlipsBack(spaces: Spaces, m: Member, bs: seq<PolicyBinding>, room: string, inside: bool)
    decreases |bs|
  {
    bs != [] &&
    if Decides(spaces, m, bs[0], room) && VerdictOf(bs[0], m).Add? != inside
    then !AllWant(spaces, m, bs[1..], room, !inside)
    else FlipsBack(spaces, m, bs[1..], room, inside)
  }

  /** How often the user was moved into the room (`inward`) or out of it. */
  function Moves(v: RoomView, inward: bool): nat {
    if inward then v.joins else v.kicks
  }

  lemma {:induction false} MovesGrow(spaces: Spaces, m: Member, bs: seq<PolicyBinding>, room: string, v: RoomView)
    ensures var v' := DecideAll(spaces, m, bs, room, v); v'.joins >= v.joins && v'.kicks >= v.kicks
    decreases |bs|
  {
    if bs == [] {
    } else {
      MovesGrow(spaces, m, bs[1..], room, Decide(spaces, m, bs[0], room, v));
    }
  }

  /** The last deciding binding fixes where the user ends up. */
  lemma {:induction false} LastDecides(
    spaces: Spaces, m: Member, bs: seq<PolicyBinding>, room: string, v: RoomView, i: nat)
    requires i < |bs| && Decides(spaces, m, bs[i], room)
    requires forall j | i < j < |bs| :: !Decides(spaces, m, bs[j], room)
    ensures DecideAll(spaces, m, bs, room, v).member == VerdictOf(bs[i], m).Add?
    decreases |bs|
  {
    var v1 := Decide(spaces, m, bs[0], room, v);
    if i == 0 {
      assert AllWant(spaces, m, bs[1..], room, v1.member);
      AgreedRoomIsQuiet(spaces, m, bs[1..], room, v1);
    } else {
      LastDecides(spaces, m, bs[1..], room, v1, i - 1);
    }
  }

  /** Decisions change nothing exactly when all of them want what already holds. */
  lemma {:induction false} AgreedRoomIsQuiet(spaces: Spaces, m: Member, bs: seq<PolicyBinding>, room: string, v: RoomView)
    ensures DecideAll(spaces, m, bs, room, v) == v <==> AllWant(spaces, m, bs, room, v.member)
    decreases |bs|
  {
    if bs == [] {
    } else {
      var v1 := Decide(spaces, m, bs[0], room, v);
      assert bs == [bs[0]] + bs[1..];
      MovesGrow(spaces, m, bs[1..], room, v1);
      AgreedRoomIsQuiet(spaces, m, bs[1..], room, v1);
    }
  }

  /** The user is moved away from the initial state exactly when some binding wants that. */
  lemma {:induction false} MovedAway(spaces: Spaces, m: Member, bs: seq<PolicyBinding>, room: string, v: RoomView)
    ensures Moves(DecideAll(spaces, m, bs, room, v), !v.member) > Moves(v, !v.member)
       <==> !AllWant(spaces, m, bs, room, v.member)
    decreases |bs|
  {
    if bs == [] {
    } else {
      var v1 := Decide(spaces, m, bs[0], room, v);
      assert bs == [bs[0]] + bs[1..];
      MovesGrow(spaces, m, bs[1..], room, v1);
      if v1 == v { MovedAway(spaces, m, bs[1..], room, v); }
    }
  }

  /** The user is moved back to the initial state exactly when the bindings flip back. */
  lemma {:induction false} MovedBack(spaces: Spaces, m: Member, bs: seq<PolicyBinding>, room: string, v: RoomView)
    ensures Moves(DecideAll(spaces, m, bs, room, v), v.member) > Moves(v, v.member)
       <==> FlipsBack(spaces, m, bs, room, v.member)
    decreases |bs|
  {
    if bs == [] {
    } else {
      var v1 := Decide(spaces, m, bs[0], room, v);
      if v1 == v { MovedBack(spaces, m, bs[1..], room, v); }
      else { MovedAway(spaces, m, bs[1..], room, v1); }
    }
  }

  /** A room on which all bindings agree is acted on at most once. */
  lemma {:induction false} AgreedRoomMovesOnce(
    spaces: Spaces, m: Member, bs: seq<PolicyBinding>, room: string, v: RoomView, inside: bool)
    requires AllWant(spaces, m, bs, room, inside)
    ensures var v' := DecideAll(spaces, m, bs, room, v); v'.joins + v'.kicks <= v.joins + v.kicks + 1
    decreases |bs|
  {
    if bs == [] {
    } else {
      var v1 := Decide(spaces, m, bs[0], room, v);
      assert bs == [bs[0]] + bs[1..];
      if v1 == v { AgreedRoomMovesOnce(spaces, m, bs[1..], room, v, inside); }
      else { AgreedRoomIsQuiet(spaces, m, bs[1..], room, v1); }
    }
  }

  /** The first matching binding joins an absent user, and its power level is the one that sticks. */
  lemma {:induction false} FirstMatchSetsPower(
    spaces: Spaces, m: Member, bs: seq<PolicyBinding>, room: string, v: RoomView, i: nat)
    requires AllWant(spaces, m, bs, room, true) && !v.member
    requires i < |bs| && Decides(spaces, m, bs[i], room)
    requires forall j | 0 <= j < i :: !Decides(spaces, m, bs[j], room)
    ensures DecideAll(spaces, m, bs, room, v) == Joined(v, bs[i].powerLevel)
    decreases |bs|
  {
    assert bs == [bs[0]] + bs[1..];
    if i == 0 {
      AgreedRoomIsQuiet(spaces, m, bs[1..], room, Joined(v, bs[0].powerLevel));
    } else {
      FirstMatchSetsPower(spaces, m, bs[1..], room, v, i - 1);
    }
  }

  // ----- The last word -----

  lemma {:induction false} LastStep(spaces: Spaces, m: Member, bs: seq<PolicyBinding>, room: string, v: RoomView)
    requires bs != []
    ensures DecideAll(spaces, m, bs, room, v)
         == Decide(spaces, m, bs[|bs| - 1], room, DecideAll(spaces, m, bs[..|bs| - 1], room, v))
    decreases |bs|
  {
    if |bs| == 1 {
      assert bs[1..] == [] && bs[..0] == [];
    } else {
      var v1 := Decide(spaces, m, bs[0], room, v);
      LastStep(spaces, m, bs[1..], room, v1);
      assert bs[..|bs| - 1][1..] == bs[1..][..|bs| - 2];
    }
  }

  /** The fold ends with the user in the room exactly if the user belongs there. */
  lemma {:induction false} FoldGivesWhatBelongs(spaces: Spaces, m: Member, bs: seq<PolicyBinding>, room: string, v: RoomView)
    ensures DecideAll(spaces, m, bs, room, v).member <==> Belongs(spaces, m.groups, m.roles, bs, room, v.member)
    decreases |bs|
  {
    if bs == [] {
    } else {
      LastStep(spaces, m, bs, room, v);
      FoldGivesWhatBelongs(spaces, m, bs[..|bs| - 1], room, v);
    }
  }

  // ----- Power levels -----

  /** The last power level that the bindings set for a user who starts out as `inside` says. */
  function LastLevel(spaces: Spaces, m: Member, bs: seq<PolicyBinding>, room: string, inside: bool): Option<int>
    decreases |bs|
  {
    if bs == [] then None
    else if !Decides(spaces, m, bs[0], room) then LastLevel(spaces, m, bs[1..], room, inside)
    else
      var later := LastLevel(spaces, m, bs[1..], room, VerdictOf(bs[0], m).Add?);
      if later.Some? || inside || VerdictOf(bs[0], m).Remove? then later else bs[0].powerLevel
  }

  /** The fold keeps the power level if it sets none, and otherwise ends with the last one it sets. */
  lemma {:induction false} LevelOfFold(spaces: Spaces, m: Member, bs: seq<PolicyBinding>, room: string, v: RoomView)
    ensures var v', last := DecideAll(spaces, m, bs, room, v), LastLevel(spaces, m, bs, room, v.member);
            && v'.power == (if last.Some? then last else v.power)
            && v'.levels >= v.levels
            && (v'.levels > v.levels <==> last.Some?)
    decreases |bs|
  {
    if bs == [] {
    } else {
      LevelOfFold(spaces, m, bs[1..], room, Decide(spaces, m, bs[0], room, v));
    }
  }

  /** Where every deciding binding wants a present user in, none of them sets a level. */
  lemma {:induction false} NoLevelForMembers(spaces: Spaces, m: Member, bs: seq<PolicyBinding>, room: string)
    requires AllWant(spaces, m, bs, room, true)
    ensures LastLevel(spaces, m, bs, room, true) == None
    decreases |bs|
  {
    if bs == [] {
    } else {
      assert bs == [bs[0]] + bs[1..];
      NoLevelForMembers(spaces, m, bs[1..], room);
    }
  }

  // ----- Conflicts -----

  /** On a conflict-free room all deciding bindings want the same thing, and vice versa. */
  lemma ConflictFreeMeansAgreed(spaces: Spaces, m: Member, bs: seq<PolicyBinding>, room: string)
    ensures ConflictFree(spaces, m, bs, room) <==> AllWant(spaces, m, bs, room, true) || AllWant(spaces, m, bs, room, false)
  {
    if !AllWant(spaces, m, bs, room, true) && !AllWant(spaces, m, bs, room, false) {
      var b :| b in bs && Decides(spaces, m, b, room) && !VerdictOf(b, m).Add?;
      var c :| c in bs && Decides(spaces, m, c, room) && VerdictOf(c, m).Add?;
      assert VerdictOf(b, m) != VerdictOf(c, m);
    }
  }

  /** After all decisions, the room agrees with every binding exactly when it is conflict-free. */
  lemma {:induction false} SettledMeansConflictFree(
    spaces: Spaces, m: Member, bs: seq<PolicyBinding>, room: string, v: RoomView)
    ensures AllWant(spaces, m, bs, room, DecideAll(spaces, m, bs, room, v).member) <==> ConflictFree(spaces, m, bs, room)
  {
    ConflictFreeMeansAgreed(spaces, m, bs, room);
    var v' := DecideAll(spaces, m, bs, room, v);
    if i :| 0 <= i < |bs| && Decides(spaces, m, bs[i], room) {
      var k := LastDeciding(spaces, m, bs, room, i);
      LastDecides(spaces, m, bs, room, v, k);
      assert bs[k] in bs;
    }
  }

  lemma LastDeciding(spaces: Spaces, m: Member, bs: seq<PolicyBinding>, room: string, i: nat) returns (k: nat)
    requires i < |bs| && Decides(spaces, m, bs[i], room)
    ensures i <= k < |bs| && Decides(spaces, m, bs[k], room)
    ensures forall j | k < j < |bs| :: !Decides(spaces, m, bs[j], room)
    decreases |bs| - i
  {
    k := i;
    if j :| i < j < |bs| && Decides(spaces, m, bs[j], room) {
      k := LastDeciding(spaces, m, bs, room, j);
    }
  }
}
