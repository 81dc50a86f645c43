/** What a bulk run does to a user whose roles could not be fetched. */
module UnknownRoles {
  import opened Wrappers
  import opened Policy
  import opened Upstream
  import opened Rooms
  import opened Reconcile
  import opened Decisions
  import opened ReconcileResults
  import opened Bulk
  import opened Requirements

  /** The member as reconciliation sees it without the roles. */
  function Roleless(m: Member): Member {
    m.(roles := [])
  }

  /**
   The user owes the room to a role: the last deciding binding is a role the user has, and without it
   the user would be out, because that binding then removes or because the bindings before it, without
   any role, leave the user out.
   */
  predicate OwedToRole(spaces: Spaces, m: Member, bs: seq<PolicyBinding>, room: string, inside: bool) {
    bs != [] &&
    var b, init := bs[|bs| - 1], bs[..|bs| - 1];
    if !Decides(spaces, m, b, room) then OwedToRole(spaces, m, init, room, inside)
    else
      && b.subject.Role? && UserMatchesBinding(b, m)
      && (b.allowRemove || !Belongs(spaces, m.groups, [], init, room, inside))
  }

  /** Forgetting the roles makes a difference exactly where the room is owed to a role, and then the user is out. */
  lemma {:induction false} ForgettingRoles(spaces: Spaces, m: Member, bs: seq<PolicyBinding>, room: string, inside: bool)
    ensures Belongs(spaces, m.groups, [], bs, room, inside)
       <==> Belongs(spaces, m.groups, m.roles, bs, room, inside) && !OwedToRole(spaces, m, bs, room, inside)
    ensures OwedToRole(spaces, m, bs, room, inside) ==> Belongs(spaces, m.groups, m.roles, bs, room, inside)
    decreases |bs|
  {
    if bs == [] {
    } else {
      ForgettingRoles(spaces, m, bs[..|bs| - 1], room, inside);
    }
  }

  /** The lookup of the roles fails, and no other call of the run does. */
  ghost predicate OnlyRolesFail(s: Script, w: World, bs: seq<PolicyBinding>, domain: string, u: DirectoryUser) {
    && Succeeds(s, w, GetGroups(u.id))
    && !Succeeds(s, Attempt(s, w, GetGroups(u.id)), GetRoles(u.id))
    && |RunUser(s, w, bs, domain, u).warnings| == 1
  }

  /**
   When the roles are the only thing that could not be fetched, the run leaves the user in a room
   exactly if the run with the roles would, and the room is not owed to a role.
   */
  lemma UnknownRolesMatterIff(s: Script, w: World, bs: seq<PolicyBinding>, domain: string, u: DirectoryUser, room: string)
    requires u.enabled && OnlyRolesFail(s, w, bs, domain, u)
    ensures var m := MemberFor(u, domain, u.roles);
            var inside := (room, m.matrixId) in w.mx.members;
            (room, m.matrixId) in RunUser(s, w, bs, domain, u).w.mx.members
            <==> (room, m.matrixId) in RunUser(UP, w, bs, domain, u).w.mx.members
                 && !OwedToRole(w.mx.spaces, m, bs, room, inside)
  {
    var m := MemberFor(u, domain, u.roles);
    WithoutRoles(s, w, bs, domain, u, room);
    WithRoles(w, bs, domain, u, room);
    ForgettingRoles(w.mx.spaces, m, bs, room, (room, m.matrixId) in w.mx.members);
  }

  lemma WithoutRoles(s: Script, w: World, bs: seq<PolicyBinding>, domain: string, u: DirectoryUser, room: string)
    requires u.enabled && OnlyRolesFail(s, w, bs, domain, u)
    ensures var m := MemberFor(u, domain, u.roles);
            (room, m.matrixId) in RunUser(s, w, bs, domain, u).w.mx.members
            <==> Belongs(w.mx.spaces, u.groups, [], bs, room, (room, m.matrixId) in w.mx.members)
  {
    var w2 := Attempt(s, Attempt(s, w, GetGroups(u.id)), GetRoles(u.id));
    OnlyRolesFailed(s, w, bs, domain, u);
    RunGivesWhatBelongs(s, w2, Roleless(MemberFor(u, domain, u.roles)), bs, room);
  }

  lemma WithRoles(w: World, bs: seq<PolicyBinding>, domain: string, u: DirectoryUser, room: string)
    requires u.enabled
    ensures var m := MemberFor(u, domain, u.roles);
            (room, m.matrixId) in RunUser(UP, w, bs, domain, u).w.mx.members
            <==> Belongs(w.mx.spaces, u.groups, u.roles, bs, room, (room, m.matrixId) in w.mx.members)
  {
    var w2 := Attempt(UP, Attempt(UP, w, GetGroups(u.id)), GetRoles(u.id));
    var m := MemberFor(u, domain, u.roles);
    UpNeverWarns(w2, m, bs);
    RunGivesWhatBelongs(UP, w2, m, bs, room);
    assert RunUser(UP, w, bs, domain, u).w == After(UP, w2, m, bs);
  }

  lemma OnlyRolesFailed(s: Script, w: World, bs: seq<PolicyBinding>, domain: string, u: DirectoryUser)
    requires u.enabled && OnlyRolesFail(s, w, bs, domain, u)
    ensures var w1 := Attempt(s, w, GetGroups(u.id));
            var w2 := Attempt(s, w1, GetRoles(u.id));
            var m := Roleless(MemberFor(u, domain, u.roles));
            && WarningFree(s, w2, m, bs) && RunUser(s, w, bs, domain, u).w == After(s, w2, m, bs)
  {
    var w1 := Attempt(s, w, GetGroups(u.id));
    var w2 := Attempt(s, w1, GetRoles(u.id));
    var m := MemberFor(u, domain, []);
    var ws := Prefixed(u.username, ReconcileAll(s, w2, m, bs).warnings);
    assert |RunUser(s, w, bs, domain, u).warnings| == 1 + |ws|;
  }

  /** It does happen: one failed lookup of roles and the user is thrown out of a room the user's role gives access to. */
  lemma UnknownRolesMayRemove(s: Script, w: World)
    requires w.trace == [] && w.mx == Matrix({("!r", "@u:d")}, map[], map[])
    requires !s(1) && forall n: nat | n != 1 :: s(n)
    ensures var b := PolicyBinding("1", Role("staff"), Room("!r"), None, true, "", "");
            var u := DirectoryUser("k", "u", true, [], ["staff"]);
            && ("!r", "@u:d") in RunUser(UP, w, [b], "d", u).w.mx.members
            && ("!r", "@u:d") !in RunUser(s, w, [b], "d", u).w.mx.members
  {
    var b := PolicyBinding("1", Role("staff"), Room("!r"), None, true, "", "");
    var u := DirectoryUser("k", "u", true, [], ["staff"]);
    var m := MemberFor(u, "d", u.roles);
    var w2 := Attempt(s, Attempt(s, w, GetGroups("k")), GetRoles("k"));
    assert MatrixId(u, "d") == "@u:d";
    assert |w2.trace| == 2;
    ScriptsAgree(s, UP, w2, Roleless(m), [b]);
    UpNeverWarns(w2, Roleless(m), [b]);
    assert OnlyRolesFail(s, w, [b], "d", u);
    UnknownRolesMatterIff(s, w, [b], "d", u, "!r");
    assert [b][..0] == [] && Decides(w.mx.spaces, m, b, "!r");
    assert OwedToRole(w.mx.spaces, m, [b], "!r", true);
    WithRoles(w, [b], "d", u, "!r");
  }
}
