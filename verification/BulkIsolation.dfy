/** In a bulk run, what fails for one user or room leaves the others as they would be without it. */
module BulkIsolation {
  import opened Policy
  import opened Upstream
  import opened Rooms
  import opened Reconcile
  import opened ReconcileResults
  import opened Requirements
  import opened Isolation
  import opened Bulk
  import opened BulkResults
  import opened BulkSoundness

  /** From `w` to `w'` no call failed that concerns the user's place in the room, or the user's groups and roles. */
  ghost predicate Quiet(w: World, w': World, spaces: Spaces, u: DirectoryUser, user: string, room: string) {
    && Untroubled(w, w', spaces, user, room)
    && forall k | |w.trace| <= k < |w'.trace| && (w'.trace[k].call == GetGroups(u.id) || w'.trace[k].call == GetRoles(u.id)) ::
         w'.trace[k].ok
  }

  lemma QuietParts(w: World, w1: World, w2: World, spaces: Spaces, u: DirectoryUser, user: string, room: string)
    requires Quiet(w, w2, spaces, u, user, room) && w.trace <= w1.trace <= w2.trace
    ensures Quiet(w, w1, spaces, u, user, room) && Quiet(w1, w2, spaces, u, user, room)
  {
    Parts(w, w1, w2, spaces, user, room);
    assert forall k | 0 <= k < |w1.trace| :: w1.trace[k] == w2.trace[k];
  }

  /** The room is as it should be for the user, given whether the user was in it before. */
  ghost predicate Right(w: World, w': World, bs: seq<PolicyBinding>, u: DirectoryUser, user: string, room: string) {
    (room, user) in w'.mx.members
    <==> Belongs(w.mx.spaces, u.groups, u.roles, bs, room, (room, user) in w.mx.members)
  }

  /** The two lookups come first. */
  lemma LookupsComeFirst(s: Script, w: World, bs: seq<PolicyBinding>, domain: string, u: DirectoryUser) returns (w2: World, known: bool)
    requires u.enabled
    ensures var t := RunUser(s, w, bs, domain, u).w.trace;
            && |w.trace| < |t| && w.trace <= t && t[|w.trace|] == Event(GetGroups(u.id), Succeeds(s, w, GetGroups(u.id)))
            && (Succeeds(s, w, GetGroups(u.id)) ==> w2.trace <= t)
    ensures w2.trace == w.trace + [Event(GetGroups(u.id), Succeeds(s, w, GetGroups(u.id)))] + [Event(GetRoles(u.id), known)]
    ensures w2.mx == w.mx
    ensures Succeeds(s, w, GetGroups(u.id)) ==>
      RunUser(s, w, bs, domain, u).w
      == After(s, w2, Member(u.id, "@" + u.username + ":" + domain, u.groups, if known then u.roles else []), bs)
  {
    var w1 := Attempt(s, w, GetGroups(u.id));
    w2, known := Attempt(s, w1, GetRoles(u.id)), Succeeds(s, w1, GetRoles(u.id));
    AttemptAddsOne(s, w, GetGroups(u.id));
    AttemptAddsOne(s, w1, GetRoles(u.id));
    UserIsReconciledAsFetched(s, w, bs, domain, u);
    ReconcileIsSound(s, w2, Member(u.id, "@" + u.username + ":" + domain, u.groups, if known then u.roles else []), bs);
  }

  lemma RunUserIsRight(s: Script, w: World, bs: seq<PolicyBinding>, domain: string, u: DirectoryUser, user: string, room: string)
    requires u.enabled && user == "@" + u.username + ":" + domain
    requires Quiet(w, RunUser(s, w, bs, domain, u).w, w.mx.spaces, u, user, room)
    ensures Right(w, RunUser(s, w, bs, domain, u).w, bs, u, user, room)
  {
    var w' := RunUser(s, w, bs, domain, u).w;
    var w2, known := LookupsComeFirst(s, w, bs, domain, u);
    assert Succeeds(s, w, GetGroups(u.id));
    assert w'.trace[|w.trace| + 1] == w2.trace[|w.trace| + 1] == Event(GetRoles(u.id), known);
    QuietParts(w, w2, w', w.mx.spaces, u, user, room);
    UntroubledRoomIsRight(s, w2, Member(u.id, user, u.groups, u.roles), bs, room);
  }

  lemma LeftAlone(w: World, w': World, user: string, room: string)
    requires View(w', user, room) == View(w, user, room)
    ensures (room, user) in w'.mx.members <==> (room, user) in w.mx.members
  {
  }

  lemma NobodyElseActs(us: seq<DirectoryUser>, u: DirectoryUser, v: DirectoryUser, domain: string)
    requires u.username != v.username
    ensures !ActsFor(v, domain, "@" + u.username + ":" + domain)
  {
    if MatrixId(v, domain) == MatrixId(u, domain) { MatrixIdsAreDistinct(v, u, domain); }
  }

  lemma HandleUserKeepsSpaces(s: Script, t: Tally, bs: seq<PolicyBinding>, domain: string, u: DirectoryUser)
    ensures HandleUser(s, t, bs, domain, u).w.mx.spaces == t.w.mx.spaces
  {
    if u.enabled {
      var w2 := Attempt(s, Attempt(s, t.w, GetGroups(u.id)), GetRoles(u.id));
      var w1 := Attempt(s, t.w, GetGroups(u.id));
      ReconcileKeepsSpaces(s, w2, MemberFor(u, domain, if Succeeds(s, w1, GetRoles(u.id)) then u.roles else []), bs);
    }
  }

  lemma {:induction false} HandleUsersKeepsSpaces(s: Script, t: Tally, bs: seq<PolicyBinding>, domain: string, us: seq<DirectoryUser>)
    ensures HandleUsers(s, t, bs, domain, us).w.mx.spaces == t.w.mx.spaces
    decreases |us|
  {
    if us == [] {
    } else {
      HandleUserKeepsSpaces(s, t, bs, domain, us[0]);
      HandleUsersKeepsSpaces(s, HandleUser(s, t, bs, domain, us[0]), bs, domain, us[1..]);
    }
  }

  /** The first of several users, and how the rest goes on. */
  lemma FirstUser(s: Script, t: Tally, bs: seq<PolicyBinding>, domain: string, us: seq<DirectoryUser>) returns (t1: Tally)
    requires us != []
    ensures t1 == HandleUser(s, t, bs, domain, us[0])
    ensures HandleUsers(s, t, bs, domain, us) == HandleUsers(s, t1, bs, domain, us[1..])
    ensures t.w.trace <= t1.w.trace <= HandleUsers(s, t1, bs, domain, us[1..]).w.trace
    ensures t1.w.mx.spaces == t.w.mx.spaces
  {
    t1 := HandleUser(s, t, bs, domain, us[0]);
    RunUserIsSound(s, t.w, bs, domain, us[0]);
    HandleUsersIsSound(s, t1, bs, domain, us[1..]);
    HandleUserKeepsSpaces(s, t, bs, domain, us[0]);
  }

  lemma {:induction false} UsersAreRight(s: Script, t: Tally, bs: seq<PolicyBinding>, domain: string, us: seq<DirectoryUser>,
                                         u: DirectoryUser, user: string, room: string)
    requires DistinctNames(us) && u in us && u.enabled && user == "@" + u.username + ":" + domain
    requires Quiet(t.w, HandleUsers(s, t, bs, domain, us).w, t.w.mx.spaces, u, user, room)
    ensures Right(t.w, HandleUsers(s, t, bs, domain, us).w, bs, u, user, room)
    decreases |us|
  {
    var t1 := FirstUser(s, t, bs, domain, us);
    var t' := HandleUsers(s, t1, bs, domain, us[1..]);
    QuietParts(t.w, t1.w, t'.w, t.w.mx.spaces, u, user, room);
    assert us == [us[0]] + us[1..];
    if us[0] == u {
      RunUserIsRight(s, t.w, bs, domain, u, user, room);
      forall v | v in us[1..] ensures !ActsFor(v, domain, user) {
        var j :| 0 <= j < |us[1..]| && us[1..][j] == v;
        assert us[0].username != us[j + 1].username;
        NobodyElseActs(us, u, v, domain);
      }
      HandleUsersLeaveAlone(s, t1, bs, domain, us[1..], user, room);
      LeftAlone(t1.w, t'.w, user, room);
    } else {
      var j :| 0 <= j < |us[1..]| && us[1..][j] == u;
      assert us[0].username != us[j + 1].username;
      NobodyElseActs(us, u, us[0], domain);
      HandleUserLeavesAlone(s, t, bs, domain, us[0], user, room);
      LeftAlone(t.w, t1.w, user, room);
      UsersAreRight(s, t1, bs, domain, us[1..], u, user, room);
    }
  }

  /** The first page of several, and how the rest goes on. */
  lemma FirstPageOf(s: Script, t: Tally, bs: seq<PolicyBinding>, domain: string, dir: seq<DirectoryUser>, first: nat)
    returns (t0: Tally, t1: Tally)
    requires HandlePages(s, t, bs, domain, dir, first).BulkDone?
    ensures t0.w == Attempt(s, t.w, SearchUsers(first)) && t1 == HandleUsers(s, t0, bs, domain, PageFrom(dir, first))
    ensures t.w.trace <= t0.w.trace <= t1.w.trace && t1.w.mx.spaces == t0.w.mx.spaces == t.w.mx.spaces
    ensures HandlePages(s, t, bs, domain, dir, first)
         == if |PageFrom(dir, first)| < PAGE_SIZE then BulkDone(t1)
            else HandlePages(s, t1, bs, domain, dir, first + PAGE_SIZE)
  {
    t0 := t.(w := Attempt(s, t.w, SearchUsers(first)));
    t1 := HandleUsers(s, t0, bs, domain, PageFrom(dir, first));
    HandleUsersIsSound(s, t0, bs, domain, PageFrom(dir, first));
    HandleUsersKeepsSpaces(s, t0, bs, domain, PageFrom(dir, first));
  }

  lemma NobodyActsOutside(dir: seq<DirectoryUser>, part: seq<DirectoryUser>, i: nat, from: nat, domain: string, user: string)
    requires DistinctNames(dir) && i < |dir| && user == "@" + dir[i].username + ":" + domain
    requires from + |part| <= |dir| && part == dir[from..from + |part|] && !(from <= i < from + |part|)
    ensures forall v | v in part :: !ActsFor(v, domain, user)
  {
    forall v | v in part ensures !ActsFor(v, domain, user) {
      var j :| 0 <= j < |part| && part[j] == v;
      assert dir[from + j] == v && dir[from + j].username != dir[i].username;
      NobodyElseActs(dir, dir[i], v, domain);
    }
  }

  /** Pages after the one with the user leave the user alone. */
  lemma {:induction false} LaterPagesLeaveAlone(s: Script, t: Tally, bs: seq<PolicyBinding>, domain: string,
                                                dir: seq<DirectoryUser>, first: nat, i: nat, user: string, room: string)
    requires DistinctNames(dir) && i < first <= |dir| && user == "@" + dir[i].username + ":" + domain
    requires HandlePages(s, t, bs, domain, dir, first).BulkDone?
    ensures View(HandlePages(s, t, bs, domain, dir, first).tally.w, user, room) == View(t.w, user, room)
    decreases |dir| - first
  {
    var page := PageFrom(dir, first);
    var t0, t1 := FirstPageOf(s, t, bs, domain, dir, first);
    AttemptOnView(s, t.w, SearchUsers(first), user, room);
    NobodyActsOutside(dir, page, i, first, domain, user);
    HandleUsersLeaveAlone(s, t0, bs, domain, page, user, room);
    if |page| == PAGE_SIZE {
      LaterPagesLeaveAlone(s, t1, bs, domain, dir, first + PAGE_SIZE, i, user, room);
    }
  }

  lemma {:induction false} PagesExtend(s: Script, t: Tally, bs: seq<PolicyBinding>, domain: string,
                                       dir: seq<DirectoryUser>, first: nat)
    ensures t.w.trace <= HandlePages(s, t, bs, domain, dir, first).World().trace
  {
    HandlePagesIsSound(s, t, bs, domain, dir, first);
  }

  lemma {:induction false} PagesAreRight(s: Script, t: Tally, bs: seq<PolicyBinding>, domain: string,
                                         dir: seq<DirectoryUser>, first: nat, i: nat, user: string, room: string)
    requires DistinctNames(dir) && first <= i < |dir| && dir[i].enabled && user == "@" + dir[i].username + ":" + domain
    requires HandlePages(s, t, bs, domain, dir, first).BulkDone?
    requires Quiet(t.w, HandlePages(s, t, bs, domain, dir, first).tally.w, t.w.mx.spaces, dir[i], user, room)
    ensures Right(t.w, HandlePages(s, t, bs, domain, dir, first).tally.w, bs, dir[i], user, room)
    decreases |dir| - first
  {
    var page := PageFrom(dir, first);
    var t0, t1 := FirstPageOf(s, t, bs, domain, dir, first);
    var t' := HandlePages(s, t, bs, domain, dir, first).tally;
    if |page| == PAGE_SIZE { PagesExtend(s, t1, bs, domain, dir, first + PAGE_SIZE); }
    QuietParts(t.w, t1.w, t'.w, t.w.mx.spaces, dir[i], user, room);
    QuietParts(t.w, t0.w, t1.w, t.w.mx.spaces, dir[i], user, room);
    if i < first + |page| {
      assert page[i - first] == dir[i];
      PageIsDistinct(dir, page, first);
      UsersAreRight(s, t0, bs, domain, page, dir[i], user, room);
      if |page| == PAGE_SIZE {
        LaterPagesLeaveAlone(s, t1, bs, domain, dir, first + PAGE_SIZE, i, user, room);
        LeftAlone(t1.w, t'.w, user, room);
      }
    } else {
      NobodyActsOutside(dir, page, i, first, domain, user);
      HandleUsersLeaveAlone(s, t0, bs, domain, page, user, room);
      LeftAlone(t0.w, t1.w, user, room);
      PagesAreRight(s, t1, bs, domain, dir, first + PAGE_SIZE, i, user, room);
    }
  }

  lemma PageIsDistinct(dir: seq<DirectoryUser>, page: seq<DirectoryUser>, first: nat)
    requires DistinctNames(dir) && first + |page| <= |dir| && page == dir[first..first + |page|]
    ensures DistinctNames(page)
  {
  }

  /**
   Whatever else fails: if a bulk run is answered, and none of its calls failed that concern an enabled
   user's groups and roles or the user's place in a room, the user is in that room exactly if the user
   belongs there.
   */
  lemma TroubleForOthersIsHarmless(s: Script, w: World, bs: seq<PolicyBinding>, domain: string, dir: seq<DirectoryUser>,
                                   i: nat, room: string, w': World)
    requires DistinctNames(dir) && i < |dir| && dir[i].enabled
    requires var r := BulkReconcileAll(s, w, true, bs, domain, dir); r.BulkDone? && w' == r.tally.w
    requires Quiet(w, w', w.mx.spaces, dir[i], "@" + dir[i].username + ":" + domain, room)
    ensures Right(w, w', bs, dir[i], "@" + dir[i].username + ":" + domain, room)
  {
    var user := "@" + dir[i].username + ":" + domain;
    var t := Tally(AtPages(s, w), 0, 0, []);
    PagesExtend(s, t, bs, domain, dir, 0);
    QuietParts(w, t.w, w', w.mx.spaces, dir[i], user, room);
    PagesAreRight(s, t, bs, domain, dir, 0, i, user, room);
  }
}
