/** Offboarding and the bulk run together. */
module StaysOut {
  import opened Wrappers
  import opened Policy
  import opened Upstream
  import opened Rooms
  import opened Lifecycle
  import opened OffboardResults
  import opened Bulk
  import opened BulkResults

  /** What the user listing of a Keycloak returns: accounts that exist, enabled unless they were disabled. */
  ghost predicate Lists(kc: Keycloak, dir: seq<DirectoryUser>) {
    forall u | u in dir ::
      u.id in kc.users && kc.users[u.id] == u.username && (u.enabled <==> u.id !in kc.disabled)
  }

  ghost predicate UniqueNames(kc: Keycloak) {
    forall id, id' | id in kc.users && id' in kc.users && kc.users[id] == kc.users[id'] :: id == id'
  }

  /**
   A user who was offboarded without warnings stays out of every mapped room: a later bulk run over
   what Keycloak then lists, with any bindings and whatever fails in it, does not bring the user back.
   */
  lemma OffboardedStaysOut(
    s: Script, s': Script, w: World, id: string, bs: seq<PolicyBinding>, domain: string, synapse: bool,
    bs': seq<PolicyBinding>, dir: seq<DirectoryUser>, room: string)
    requires Offboard(s, w, id, true, bs, domain).result == Ok([])
    requires UniqueNames(w.kc) && Lists(Offboard(s, w, id, true, bs, domain).w.kc, dir)
    requires exists b :: b in bs && room in Targets(w.mx.spaces, b.target.roomId)
    ensures id in w.kc.users
    ensures var w1 := Offboard(s, w, id, true, bs, domain).w;
            (room, "@" + w.kc.users[id] + ":" + domain)
              !in BulkReconcileAll(s', w1, synapse, bs', domain, dir).World().mx.members
  {
    SuccessMeansOffboarded(s, w, id, true, bs, domain);
    var user, username := "@" + w.kc.users[id] + ":" + domain, w.kc.users[id];
    var w1 := Offboard(s, w, id, true, bs, domain).w;
    var w2 := BulkReconcileAll(s', w1, synapse, bs', domain, dir).World();
    MappedRoomsAreTargets(w.mx.spaces, bs, room);
    assert (room, user) in ScopeOf(w, id, true, bs, domain).places;
    forall u | u in dir ensures !ActsFor(u, domain, user) {
      var same := DirectoryUser(id, username, true, [], []);
      if MatrixId(u, domain) == MatrixId(same, domain) { MatrixIdsAreDistinct(u, same, domain); }
    }
    BulkLeavesOthersAlone(s', w1, synapse, bs', domain, dir, user, room);
    assert View(w2, user, room).member == View(w1, user, room).member;
  }
}
