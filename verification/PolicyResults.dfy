/** How the stored bindings and reconciliation fit together. */
module PolicyResults {
  import opened Policy
  import opened Upstream
  import opened Rooms
  import opened Reconcile
  import opened Decisions
  import opened ReconcileResults
  import opened PolicyTable
  import opened PolicyHistory

  /** Reconciliation never looks at the id or the times of a binding. */
  lemma {:induction false} ReconcileIgnoresIds(s: Script, w: World, m: Member, bs: seq<PolicyBinding>, bs': seq<PolicyBinding>)
    requires |bs| == |bs'| && forall i | 0 <= i < |bs| :: AnonymousBinding(bs[i]) == AnonymousBinding(bs'[i])
    ensures ReconcileAll(s, w, m, bs) == ReconcileAll(s, w, m, bs')
    decreases |bs|
  {
    if bs == [] {
    } else {
      BindingIgnoresId(s, w, m, bs[0], bs'[0]);
      ReconcileIgnoresIds(s, ReconcileBinding(s, w, m, bs[0]).w, m, bs[1..], bs'[1..]);
    }
  }

  lemma BindingIgnoresId(s: Script, w: World, m: Member, b: PolicyBinding, b': PolicyBinding)
    requires AnonymousBinding(b) == AnonymousBinding(b')
    ensures ReconcileBinding(s, w, m, b) == ReconcileBinding(s, w, m, b')
  {
    assert b.subject == AnonymousBinding(b').subject && b.target == AnonymousBinding(b').target;
    assert b.powerLevel == AnonymousBinding(b').powerLevel && b.allowRemove == AnonymousBinding(b').allowRemove;
    var x := Expand(s, w, b.target.roomId);
    JoinsIgnoreId(s, x.w, m, b, b', x.targets);
  }

  lemma {:induction false} JoinsIgnoreId(s: Script, w: World, m: Member, b: PolicyBinding, b': PolicyBinding, rooms: seq<string>)
    requires b.subject == b'.subject && b.powerLevel == b'.powerLevel
    ensures JoinRooms(s, w, m, b, rooms) == JoinRooms(s, w, m, b', rooms)
    decreases |rooms|
  {
    if rooms == [] {
    } else {
      assert JoinOne(s, w, m, b, rooms[0]) == JoinOne(s, w, m, b', rooms[0]);
      JoinsIgnoreId(s, JoinOne(s, w, m, b, rooms[0]).w, m, b, b', rooms[1..]);
    }
  }

  /**
   However the policy table came to hold its rows, reconciliation makes the same calls, gets the
   same answers and ends in the same state, under any fault script.
   */
  lemma SameRowsSameRun(s: Script, w: World, m: Member, rows: seq<BindingRow>, rows': seq<BindingRow>)
    requires ValidTable(rows) && ValidTable(rows') && SameRows(rows, rows')
    ensures ReconcileAll(s, w, m, ListBindings(rows)) == ReconcileAll(s, w, m, ListBindings(rows'))
  {
    SameRowsSameListing(rows, rows');
    ReconcileIgnoresIds(s, w, m, ListBindings(rows), ListBindings(rows'));
  }

  /** On a room that some role binding decides, the outcome is fixed by the last such role binding, whatever groups say. */
  lemma RolesOverrideGroups(s: Script, w: World, m: Member, rows: seq<BindingRow>, room: string, i: nat)
    requires ValidTable(rows)
    requires var bs := ListBindings(rows);
             && WarningFree(s, w, m, bs)
             && i < |bs| && bs[i].subject.Role? && Decides(w.mx.spaces, m, bs[i], room)
             && forall j | i < j < |bs| && bs[j].subject.Role? :: !Decides(w.mx.spaces, m, bs[j], room)
    ensures (room, m.matrixId) in After(s, w, m, ListBindings(rows)).mx.members
       <==> UserMatchesBinding(ListBindings(rows)[i], m)
  {
    var bs := ListBindings(rows);
    forall j | i < j < |bs| ensures bs[j].subject.Role? { GroupsBeforeRoles(rows, i, j); }
    LastDecidingBindingWins(s, w, m, bs, room, i);
  }
}
