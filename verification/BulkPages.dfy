/** Which pages of the user directory a bulk run asks for. */
module BulkPages {
  import opened Policy
  import opened Upstream
  import opened Rooms
  import opened Reconcile
  import opened Bulk
  import opened BulkResults

  /** The offsets of the user searches, in order. */
  function Searches(t: seq<Event>): seq<nat> {
    if t == [] then [] else
      var e := t[|t| - 1];
      Searches(t[..|t| - 1]) + if e.call.SearchUsers? then [e.call.first] else []
  }

  lemma SearchesGrow(s: Script, w: World, call: Call)
    ensures Searches(Attempt(s, w, call).trace) == Searches(w.trace) + if call.SearchUsers? then [call.first] else []
  {
    assert Attempt(s, w, call).trace[..|w.trace|] == w.trace;
  }

  /** A stretch of room calls searches for nobody. */
  lemma {:induction false} StretchSearchesNothing(t: seq<Event>, t': seq<Event>)
    requires t <= t' && |Others(t')| == |Others(t)|
    ensures Searches(t') == Searches(t)
    decreases |t'|
  {
    if |t| == |t'| {
      assert t == t';
    } else {
      OthersGrow(t, t'[..|t'| - 1]);
      StretchSearchesNothing(t, t'[..|t'| - 1]);
    }
  }

  lemma UserSearchesNothing(s: Script, w: World, bs: seq<PolicyBinding>, domain: string, u: DirectoryUser)
    ensures Searches(RunUser(s, w, bs, domain, u).w.trace) == Searches(w.trace)
  {
    var w1 := Attempt(s, w, GetGroups(u.id));
    var w2 := Attempt(s, w1, GetRoles(u.id));
    SearchesGrow(s, w, GetGroups(u.id));
    SearchesGrow(s, w1, GetRoles(u.id));
    var m := MemberFor(u, domain, if Succeeds(s, w1, GetRoles(u.id)) then u.roles else []);
    ReconcileIsHonest(s, w2, m, bs);
    StretchSearchesNothing(w2.trace, ReconcileAll(s, w2, m, bs).w.trace);
  }

  lemma {:induction false} UsersSearchNothing(s: Script, t: Tally, bs: seq<PolicyBinding>, domain: string,
                                              us: seq<DirectoryUser>)
    ensures Searches(HandleUsers(s, t, bs, domain, us).w.trace) == Searches(t.w.trace)
    decreases |us|
  {
    if us == [] {
    } else {
      UserSearchesNothing(s, t.w, bs, domain, us[0]);
      UsersSearchNothing(s, HandleUser(s, t, bs, domain, us[0]), bs, domain, us[1..]);
    }
  }

  /** The offsets 100 apart from `first` on, up to the first that is not followed by a full page. */
  function Hundreds(first: nat, users: nat): seq<nat>
    decreases if first < users then users - first else 0
  {
    [first] + if first + 100 <= users then Hundreds(first + 100, users) else []
  }

  /** Whatever fails: a run that gets through its pages asks for them a hundred users apart, and for no more. */
  lemma {:induction false} PagesAreHundreds(s: Script, t: Tally, bs: seq<PolicyBinding>, domain: string,
                                            dir: seq<DirectoryUser>, first: nat)
    ensures var r := HandlePages(s, t, bs, domain, dir, first);
            r.BulkDone? ==> Searches(r.tally.w.trace) == Searches(t.w.trace) + Hundreds(first, |dir|)
    decreases if first < |dir| then |dir| - first else 0
  {
    var r := HandlePages(s, t, bs, domain, dir, first);
    var t1 := TurnPage(s, t, bs, domain, dir, first);
    SearchesGrow(s, t.w, SearchUsers(first));
    UsersSearchNothing(s, t.(w := Attempt(s, t.w, SearchUsers(first))), bs, domain, PageFrom(dir, first));
    if Succeeds(s, t.w, SearchUsers(first)) && |PageFrom(dir, first)| == PAGE_SIZE {
      PagesAreHundreds(s, t1, bs, domain, dir, first + PAGE_SIZE);
      if r.BulkDone? {
        AppendTwice(Searches(t.w.trace), [first], Hundreds(first + 100, |dir|), Searches(t1.w.trace), Searches(r.tally.w.trace));
      }
    }
  }

  /** When nothing fails, the request is answered exactly if there is Synapse and at most a thousand users. */
  lemma FailureFreeAnswersIff(w: World, synapse: bool, bs: seq<PolicyBinding>, domain: string, dir: seq<DirectoryUser>)
    ensures BulkReconcileAll(UP, w, synapse, bs, domain, dir).BulkDone? <==> synapse && |dir| <= 1000
  {
    UpFinishesPages(Tally(AtPages(UP, w), 0, 0, []), bs, domain, dir, 0);
  }

  lemma {:induction false} UpFinishesPages(t: Tally, bs: seq<PolicyBinding>, domain: string, dir: seq<DirectoryUser>, first: nat)
    ensures HandlePages(UP, t, bs, domain, dir, first).BulkDone?
    decreases if first < |dir| then |dir| - first else 0
  {
    if |PageFrom(dir, first)| < PAGE_SIZE {
    } else {
      UpFinishesPages(TurnPage(UP, t, bs, domain, dir, first), bs, domain, dir, first + PAGE_SIZE);
    }
  }
}
