/** Reconciling every enabled user of the Keycloak directory, page by page. */
module Bulk {
  import opened Policy
  import opened Upstream
  import opened Rooms
  import opened Reconcile

  const MAX_BULK_RECONCILE_USERS := 1000
  const PAGE_SIZE := 100

  datatype DirectoryUser = DirectoryUser(
    id: string, username: string, enabled: bool, groups: seq<string>, roles: seq<string>)

  /** What the loops keep track of; warnings are prefixed with the username. */
  datatype Tally = Tally(w: World, processed: nat, skipped: nat, warnings: seq<(string, Warning)>)

  /** Counting or listing users, or reading the bindings, can fail the whole request. */
  datatype BulkResult = BulkDone(tally: Tally) | BulkFailed(w: World) {
    function World(): World {
      if BulkDone? then tally.w else w
    }
  }

  function MatrixId(u: DirectoryUser, domain: string): string {
    "@" + u.username + ":" + domain
  }

  function MemberFor(u: DirectoryUser, domain: string, roles: seq<string>): Member {
    Member(u.id, MatrixId(u, domain), u.groups, roles)
  }

  function Prefixed(username: string, ws: seq<Warning>): seq<(string, Warning)> {
    seq(|ws|, i requires 0 <= i < |ws| => (username, ws[i]))
  }

  /** One user: skipped when disabled or when the groups cannot be fetched, otherwise reconciled. */
  datatype UserRun = UserRun(w: World, processed: bool, warnings: seq<(string, Warning)>)

  function RunUser(s: Script, w: World, bs: seq<PolicyBinding>, domain: string, u: DirectoryUser): UserRun {
    if !u.enabled then UserRun(w, false, [])
    else
      var w1 := Attempt(s, w, GetGroups(u.id));
      if !Succeeds(s, w, GetGroups(u.id)) then UserRun(w1, false, [(u.username, GroupsUnknown)])
      else
        var known := Succeeds(s, w1, GetRoles(u.id));
        var m := MemberFor(u, domain, if known then u.roles else []);
        var o := ReconcileAll(s, Attempt(s, w1, GetRoles(u.id)), m, bs);
        UserRun(o.w, true, (if known then [] else [(u.username, RolesUnknown)]) + Prefixed(u.username, o.warnings))
  }

  function Count(t: Tally, r: UserRun): Tally {
    Tally(r.w, t.processed + (if r.processed then 1 else 0), t.skipped + (if r.processed then 0 else 1),
          t.warnings + r.warnings)
  }

  function HandleUser(s: Script, t: Tally, bs: seq<PolicyBinding>, domain: string, u: DirectoryUser): Tally {
    Count(t, RunUser(s, t.w, bs, domain, u))
  }

  function HandleUsers(s: Script, t: Tally, bs: seq<PolicyBinding>, domain: string, us: seq<DirectoryUser>): Tally
    decreases |us|
  {
    if us == [] then t else HandleUsers(s, HandleUser(s, t, bs, domain, us[0]), bs, domain, us[1..])
  }

  /** What Keycloak returns for a search from `first`. */
  function PageFrom(dir: seq<DirectoryUser>, first: nat): seq<DirectoryUser> {
    if first >= |dir| then []
    else if first + PAGE_SIZE <= |dir| then dir[first..first + PAGE_SIZE]
    else dir[first..]
  }

  /** One successful turn of the paging loop. */
  function TurnPage(s: Script, t: Tally, bs: seq<PolicyBinding>, domain: string, dir: seq<DirectoryUser>,
                    first: nat): Tally {
    HandleUsers(s, t.(w := Attempt(s, t.w, SearchUsers(first))), bs, domain, PageFrom(dir, first))
  }

  /** An empty page and a short page both end the loop. */
  function HandlePages(s: Script, t: Tally, bs: seq<PolicyBinding>, domain: string, dir: seq<DirectoryUser>,
                       first: nat): BulkResult
    decreases if first < |dir| then |dir| - first else 0
  {
    if !Succeeds(s, t.w, SearchUsers(first)) then BulkFailed(Attempt(s, t.w, SearchUsers(first)))
    else if |PageFrom(dir, first)| < PAGE_SIZE then BulkDone(TurnPage(s, t, bs, domain, dir, first))
    else HandlePages(s, TurnPage(s, t, bs, domain, dir, first), bs, domain, dir, first + PAGE_SIZE)
  }

  /** `synapse` says whether there is a Synapse to work on; `bs` is what the policy table holds. */
  function BulkReconcileAll(s: Script, w: World, synapse: bool, bs: seq<PolicyBinding>, domain: string,
                            dir: seq<DirectoryUser>): BulkResult
  {
    var w1 := Attempt(s, w, CountUsers);
    if !synapse then BulkFailed(w)
    else if !Succeeds(s, w, CountUsers) || |dir| > MAX_BULK_RECONCILE_USERS then BulkFailed(w1)
    else
      var w2 := Attempt(s, w1, ReadBindings);
      if Succeeds(s, w1, ReadBindings) then HandlePages(s, Tally(w2, 0, 0, []), bs, domain, dir, 0) else BulkFailed(w2)
  }

  method ReconcileUser(svc: Services, bs: seq<PolicyBinding>, domain: string, u: DirectoryUser)
    returns (processed: bool, warnings: seq<(string, Warning)>)
    modifies svc
    ensures UserRun(svc.w, processed, warnings) == RunUser(svc.script, old(svc.w), bs, domain, u)
  {
    if !u.enabled {
      return false, [];
    }
    var groups := svc.Perform(GetGroups(u.id));
    if !groups {
      return false, [(u.username, GroupsUnknown)];
    }
    var known := svc.Perform(GetRoles(u.id));
    var m := MemberFor(u, domain, if known then u.roles else []);
    var ws := ReconcileMembership(svc, m, bs);
    processed := true;
    warnings := (if known then [] else [(u.username, RolesUnknown)]) + Prefixed(u.username, ws);
  }

  /** The users of one page, in order. */
  method ReconcilePage(svc: Services, bs: seq<PolicyBinding>, domain: string, page: seq<DirectoryUser>,
                       processed: nat, skipped: nat, soFar: seq<(string, Warning)>)
    returns (usersProcessed: nat, usersSkipped: nat, warnings: seq<(string, Warning)>)
    modifies svc
    ensures Tally(svc.w, usersProcessed, usersSkipped, warnings)
         == HandleUsers(svc.script, Tally(old(svc.w), processed, skipped, soFar), bs, domain, page)
  {
    usersProcessed, usersSkipped, warnings := processed, skipped, soFar;
    ghost var whole := HandleUsers(svc.script, Tally(svc.w, processed, skipped, soFar), bs, domain, page);
    for i := 0 to |page|
      invariant whole == HandleUsers(svc.script, Tally(svc.w, usersProcessed, usersSkipped, warnings), bs, domain, page[i..])
    {
      assert page[i..][1..] == page[i + 1..];
      var done, ws := ReconcileUser(svc, bs, domain, page[i]);
      if done {
        usersProcessed := usersProcessed + 1;
      } else {
        usersSkipped := usersSkipped + 1;
      }
      warnings := warnings + ws;
    }
  }

  /** The paging loop. */
  method ReconcilePages(svc: Services, bs: seq<PolicyBinding>, domain: string, dir: seq<DirectoryUser>)
    returns (ok: bool, usersProcessed: nat, usersSkipped: nat, warnings: seq<(string, Warning)>)
    modifies svc
    ensures var r := HandlePages(svc.script, Tally(old(svc.w), 0, 0, []), bs, domain, dir, 0);
            if ok then r == BulkDone(Tally(svc.w, usersProcessed, usersSkipped, warnings)) else r == BulkFailed(svc.w)
  {
    usersProcessed, usersSkipped, warnings := 0, 0, [];
    ghost var whole := HandlePages(svc.script, Tally(svc.w, 0, 0, []), bs, domain, dir, 0);
    var first := 0;
    while true
      invariant whole == HandlePages(svc.script, Tally(svc.w, usersProcessed, usersSkipped, warnings), bs, domain, dir, first)
      decreases if first < |dir| then |dir| - first else 0
    {
      var listed := svc.Perform(SearchUsers(first));
      if !listed {
        return false, 0, 0, [];
      }
      var page := PageFrom(dir, first);
      if page == [] {
        return true, usersProcessed, usersSkipped, warnings;
      }
      usersProcessed, usersSkipped, warnings :=
        ReconcilePage(svc, bs, domain, page, usersProcessed, usersSkipped, warnings);
      if |page| < PAGE_SIZE {
        return true, usersProcessed, usersSkipped, warnings;
      }
      first := first + |page|;
    }
  }

  /** The request: refused without Synapse, when users cannot be counted or are too many, or without the bindings. */
  method BulkReconcile(svc: Services, synapse: bool, bs: seq<PolicyBinding>, domain: string, dir: seq<DirectoryUser>)
    returns (ok: bool, usersProcessed: nat, usersSkipped: nat, warnings: seq<(string, Warning)>)
    modifies svc
    ensures var r := BulkReconcileAll(svc.script, old(svc.w), synapse, bs, domain, dir);
            if ok then r == BulkDone(Tally(svc.w, usersProcessed, usersSkipped, warnings)) else r == BulkFailed(svc.w)
  {
    if !synapse {
      return false, 0, 0, [];
    }
    var counted := svc.Perform(CountUsers);
    if !counted || |dir| > MAX_BULK_RECONCILE_USERS {
      return false, 0, 0, [];
    }
    var listed := svc.Perform(ReadBindings);
    if !listed {
      return false, 0, 0, [];
    }
    ok, usersProcessed, usersSkipped, warnings := ReconcilePages(svc, bs, domain, dir);
  }
}
