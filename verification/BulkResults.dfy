/** What a bulk run guarantees: every user counted and handled once, and the order of users does not matter. */
module BulkResults {
  import opened Policy
  import opened Upstream
  import opened Rooms
  import opened Reconcile
  import opened ReconcileResults
  import opened Requirements
  import opened Bulk

  // ----- Counting, whatever fails -----

  function EnabledIds(us: seq<DirectoryUser>): seq<string> {
    if us == [] then [] else (if us[0].enabled then [us[0].id] else []) + EnabledIds(us[1..])
  }

  /** The users whose groups were asked for, in order. */
  function Lookups(t: seq<Event>): seq<string> {
    if t == [] then [] else
      var e := t[|t| - 1];
      Lookups(t[..|t| - 1]) + if e.call.GetGroups? then [e.call.id] else []
  }

  /** The users whose groups were fetched, in order. */
  function Fetched(t: seq<Event>): seq<string> {
    if t == [] then [] else
      var e := t[|t| - 1];
      Fetched(t[..|t| - 1]) + if e.call.GetGroups? && e.ok then [e.call.id] else []
  }

  /** The rooms expanded, in order, each with the user whose groups were fetched last before. */
  function Handed(t: seq<Event>): seq<(string, string)> {
    if t == [] then [] else
      var init, e := t[..|t| - 1], t[|t| - 1];
      var ids := Fetched(init);
      Handed(init) + if e.call.SpaceChildren? && ids != [] then [(ids[|ids| - 1], e.call.room)] else []
  }

  /** One user with each of the rooms, in order. */
  function Paired(id: string, rooms: seq<string>): seq<(string, string)> {
    seq(|rooms|, i requires 0 <= i < |rooms| => (id, rooms[i]))
  }

  /** The visits of complete reconcile runs, one for each user, in order. */
  function HandedTo(ids: seq<string>, rooms: seq<string>): seq<(string, string)> {
    if ids == [] then [] else Paired(ids[0], rooms) + HandedTo(ids[1..], rooms)
  }

  lemma {:induction false} HandedToSum(ids: seq<string>, jds: seq<string>, rooms: seq<string>)
    ensures HandedTo(ids + jds, rooms) == HandedTo(ids, rooms) + HandedTo(jds, rooms)
  {
    if ids == [] {
      assert ids + jds == jds;
    } else {
      assert (ids + jds)[1..] == ids[1..] + jds;
      HandedToSum(ids[1..], jds, rooms);
      AppendTwice(Paired(ids[0], rooms), HandedTo(ids[1..], rooms), HandedTo(jds, rooms),
                  HandedTo(ids, rooms), HandedTo(ids, rooms) + HandedTo(jds, rooms));
    }
  }

  lemma LookupsGrow(t: seq<Event>, e: Event)
    ensures Lookups(t + [e]) == Lookups(t) + if e.call.GetGroups? then [e.call.id] else []
    ensures Fetched(t + [e]) == Fetched(t) + if e.call.GetGroups? && e.ok then [e.call.id] else []
    ensures !e.call.SpaceChildren? ==> Handed(t + [e]) == Handed(t)
  {
    assert (t + [e])[..|t|] == t;
  }

  lemma {:induction false} OthersGrow(t: seq<Event>, t': seq<Event>)
    requires t <= t'
    ensures |Others(t)| <= |Others(t')|
    decreases |t'|
  {
    if |t| == |t'| {
      assert t == t';
    } else {
      OthersGrow(t, t'[..|t'| - 1]);
    }
  }

  lemma LastOfSum<T>(a: seq<T>, x: T, b: seq<T>, c: seq<T>)
    requires a + [x] == b + c && |a| >= |b|
    ensures c != [] && a == b + c[..|c| - 1] && x == c[|c| - 1]
  {
    assert a == (a + [x])[..|a|] && x == (a + [x])[|a|];
  }

  lemma {:induction false} StretchLooksUpNobody(t: seq<Event>, t': seq<Event>)
    requires t <= t' && |Others(t')| == |Others(t)|
    ensures Lookups(t') == Lookups(t) && Fetched(t') == Fetched(t)
    decreases |t'|
  {
    if |t| == |t'| {
      assert t == t';
    } else {
      OthersGrow(t, t'[..|t'| - 1]);
      StretchLooksUpNobody(t, t'[..|t'| - 1]);
    }
  }

  /** One more event while `id` is the last user whose groups were fetched. */
  lemma HandedStep(t: seq<Event>, e: Event, id: string)
    requires Fetched(t) != [] && Fetched(t)[|Fetched(t)| - 1] == id
    ensures Handed(t + [e]) == Handed(t) + if e.call.SpaceChildren? then [(id, e.call.room)] else []
    ensures Expansions(t + [e]) == Expansions(t) + if e.call.SpaceChildren? then [e.call.room] else []
    ensures |Others(t + [e])| == |Others(t)| + if RoomCall(e.call) then 0 else 1
  {
    assert (t + [e])[..|t|] == t;
  }

  lemma PairedGrows(id: string, rooms: seq<string>)
    requires rooms != []
    ensures Paired(id, rooms) == Paired(id, rooms[..|rooms| - 1]) + [(id, rooms[|rooms| - 1])]
  {
  }

  /** A stretch of room calls after the groups of `id` were fetched: its expansions are all for `id`. */
  lemma {:induction false} StretchIsHanded(t: seq<Event>, t': seq<Event>, id: string, rooms: seq<string>)
    requires t <= t' && |Others(t')| == |Others(t)| && Expansions(t') == Expansions(t) + rooms
    requires Fetched(t) != [] && Fetched(t)[|Fetched(t)| - 1] == id
    ensures Handed(t') == Handed(t) + Paired(id, rooms)
    decreases |t'|
  {
    if |t| == |t'| {
      assert t == t' && rooms == [];
    } else {
      var init, e := t'[..|t'| - 1], t'[|t'| - 1];
      assert t' == init + [e];
      ExpansionsStay(t, init);
      StretchBefore(t, init, e);
      HandedStep(init, e, id);
      if e.call.SpaceChildren? {
        LastOfSum(Expansions(init), e.call.room, Expansions(t), rooms);
        StretchIsHanded(t, init, id, rooms[..|rooms| - 1]);
        PairedGrows(id, rooms);
      } else {
        StretchIsHanded(t, init, id, rooms);
      }
    }
  }

  lemma StretchBefore(t: seq<Event>, init: seq<Event>, e: Event)
    requires t <= init && |Others(init + [e])| == |Others(t)|
    ensures |Others(init)| == |Others(t)| && Fetched(init) == Fetched(t)
  {
    assert (init + [e])[..|init|] == init;
    OthersGrow(t, init);
    StretchLooksUpNobody(t, init);
  }

  lemma {:induction false} ExpansionsStay(t: seq<Event>, t': seq<Event>)
    requires t <= t'
    ensures |Expansions(t)| <= |Expansions(t')|
    decreases |t'|
  {
    if |t| == |t'| {
      assert t == t';
    } else {
      ExpansionsStay(t, t'[..|t'| - 1]);
    }
  }

  /**
   From `t` to `t'` the given users were counted, the enabled ones looked up once each, and those in
   `ids`, whose groups were fetched, processed: each was handed over for a visit to every room of `bs`.
   */
  ghost predicate Counted(t: Tally, t': Tally, us: seq<DirectoryUser>, bs: seq<PolicyBinding>, ids: seq<string>) {
    && t'.processed + t'.skipped == t.processed + t.skipped + |us|
    && t'.processed == t.processed + |ids|
    && Lookups(t'.w.trace) == Lookups(t.w.trace) + EnabledIds(us)
    && Fetched(t'.w.trace) == Fetched(t.w.trace) + ids
    && Handed(t'.w.trace) == Handed(t.w.trace) + HandedTo(ids, BindingRooms(bs))
  }

  lemma CountedThen(t: Tally, t1: Tally, t2: Tally, us: seq<DirectoryUser>, vs: seq<DirectoryUser>,
                    bs: seq<PolicyBinding>, ids: seq<string>, jds: seq<string>)
    requires Counted(t, t1, us, bs, ids) && Counted(t1, t2, vs, bs, jds)
    ensures Counted(t, t2, us + vs, bs, ids + jds)
  {
    EnabledIdsOfSum(us, vs);
    HandedToSum(ids, jds, BindingRooms(bs));
    AppendTwice(Lookups(t.w.trace), EnabledIds(us), EnabledIds(vs), Lookups(t1.w.trace), Lookups(t2.w.trace));
    AppendTwice(Fetched(t.w.trace), ids, jds, Fetched(t1.w.trace), Fetched(t2.w.trace));
    AppendTwice(Handed(t.w.trace), HandedTo(ids, BindingRooms(bs)), HandedTo(jds, BindingRooms(bs)),
                Handed(t1.w.trace), Handed(t2.w.trace));
  }

  lemma RunIsHanded(s: Script, w: World, m: Member, bs: seq<PolicyBinding>, id: string)
    requires Fetched(w.trace) != [] && Fetched(w.trace)[|Fetched(w.trace)| - 1] == id
    ensures var t := ReconcileAll(s, w, m, bs).w.trace;
            && Lookups(t) == Lookups(w.trace) && Fetched(t) == Fetched(w.trace)
            && Handed(t) == Handed(w.trace) + Paired(id, BindingRooms(bs))
  {
    ReconcileIsHonest(s, w, m, bs);
    ReconcileExpandsAll(s, w, m, bs);
    StretchLooksUpNobody(w.trace, ReconcileAll(s, w, m, bs).w.trace);
    StretchIsHanded(w.trace, ReconcileAll(s, w, m, bs).w.trace, id, BindingRooms(bs));
  }

  /** What asking for groups and roles adds to the trace. */
  lemma AskingIsCounted(s: Script, w: World, id: string)
    ensures var w1 := Attempt(s, w, GetGroups(id));
            var w2 := Attempt(s, w1, GetRoles(id));
            var got := if Succeeds(s, w, GetGroups(id)) then [id] else [];
            && Lookups(w1.trace) == Lookups(w2.trace) == Lookups(w.trace) + [id]
            && Fetched(w1.trace) == Fetched(w2.trace) == Fetched(w.trace) + got
            && Handed(w1.trace) == Handed(w2.trace) == Handed(w.trace)
  {
    var w1 := Attempt(s, w, GetGroups(id));
    LookupsGrow(w.trace, Event(GetGroups(id), Succeeds(s, w, GetGroups(id))));
    LookupsGrow(w1.trace, Event(GetRoles(id), Succeeds(s, w1, GetRoles(id))));
  }

  lemma ProcessedIsCounted(s: Script, t: Tally, bs: seq<PolicyBinding>, domain: string, u: DirectoryUser)
    requires u.enabled && Succeeds(s, t.w, GetGroups(u.id))
    ensures Counted(t, HandleUser(s, t, bs, domain, u), [u], bs, [u.id])
  {
    var w1 := Attempt(s, t.w, GetGroups(u.id));
    var w2 := Attempt(s, w1, GetRoles(u.id));
    var m := MemberFor(u, domain, if Succeeds(s, w1, GetRoles(u.id)) then u.roles else []);
    AskingIsCounted(s, t.w, u.id);
    RunIsHanded(s, w2, m, bs, u.id);
    OneUser(u, BindingRooms(bs));
    assert HandleUser(s, t, bs, domain, u).w == ReconcileAll(s, w2, m, bs).w;
  }

  lemma OneUser(u: DirectoryUser, rooms: seq<string>)
    ensures HandedTo([u.id], rooms) == Paired(u.id, rooms)
    ensures EnabledIds([u]) == if u.enabled then [u.id] else []
  {
    assert [u.id][1..] == [] && [u][1..] == [];
    assert Paired(u.id, rooms) + [] == Paired(u.id, rooms);
  }

  lemma SkippedIsCounted(s: Script, t: Tally, bs: seq<PolicyBinding>, domain: string, u: DirectoryUser)
    requires !u.enabled || !Succeeds(s, t.w, GetGroups(u.id))
    ensures Counted(t, HandleUser(s, t, bs, domain, u), [u], bs, [])
  {
    AskingIsCounted(s, t.w, u.id);
    OneUser(u, BindingRooms(bs));
  }

  lemma HandleUserCounts(s: Script, t: Tally, bs: seq<PolicyBinding>, domain: string, u: DirectoryUser)
    returns (ids: seq<string>)
    ensures Counted(t, HandleUser(s, t, bs, domain, u), [u], bs, ids)
  {
    if u.enabled && Succeeds(s, t.w, GetGroups(u.id)) {
      ids := [u.id];
      ProcessedIsCounted(s, t, bs, domain, u);
    } else {
      ids := [];
      SkippedIsCounted(s, t, bs, domain, u);
    }
  }

  lemma {:induction false} HandleUsersCounts(s: Script, t: Tally, bs: seq<PolicyBinding>, domain: string,
                                             us: seq<DirectoryUser>)
    returns (ids: seq<string>)
    ensures Counted(t, HandleUsers(s, t, bs, domain, us), us, bs, ids)
    decreases |us|
  {
    if us == [] {
      ids := [];
    } else {
      var t1 := HandleUser(s, t, bs, domain, us[0]);
      var first := HandleUserCounts(s, t, bs, domain, us[0]);
      var rest := HandleUsersCounts(s, t1, bs, domain, us[1..]);
      CountedThen(t, t1, HandleUsers(s, t1, bs, domain, us[1..]), [us[0]], us[1..], bs, first, rest);
      assert us == [us[0]] + us[1..];
      ids := first + rest;
    }
  }

  lemma {:induction false} EnabledIdsOfSum(us: seq<DirectoryUser>, vs: seq<DirectoryUser>)
    ensures EnabledIds(us + vs) == EnabledIds(us) + EnabledIds(vs)
  {
    if us == [] {
      assert us + vs == vs;
    } else {
      var head := if us[0].enabled then [us[0].id] else [];
      assert (us + vs)[1..] == us[1..] + vs;
      EnabledIdsOfSum(us[1..], vs);
      AppendTwice(head, EnabledIds(us[1..]), EnabledIds(vs), EnabledIds(us), EnabledIds(us) + EnabledIds(vs));
    }
  }

  lemma PageThenRest(dir: seq<DirectoryUser>, first: nat)
    requires first <= |dir|
    ensures var page := PageFrom(dir, first);
            first + |page| <= |dir| && dir[first..] == page + dir[first + |page|..]
            && (|page| < PAGE_SIZE ==> dir[first + |page|..] == [])
  {
  }

  lemma TurnPageCounts(s: Script, t: Tally, bs: seq<PolicyBinding>, domain: string, dir: seq<DirectoryUser>, first: nat)
    returns (ids: seq<string>)
    ensures Counted(t, TurnPage(s, t, bs, domain, dir, first), PageFrom(dir, first), bs, ids)
  {
    var call := SearchUsers(first);
    var t0 := t.(w := Attempt(s, t.w, call));
    LookupsGrow(t.w.trace, Event(call, Succeeds(s, t.w, call)));
    ids := HandleUsersCounts(s, t0, bs, domain, PageFrom(dir, first));
  }

  lemma {:induction false} HandlePagesCounts(s: Script, t: Tally, bs: seq<PolicyBinding>, domain: string,
                                             dir: seq<DirectoryUser>, first: nat)
    returns (ids: seq<string>)
    requires first <= |dir|
    ensures var r := HandlePages(s, t, bs, domain, dir, first);
            r.BulkDone? ==> Counted(t, r.tally, dir[first..], bs, ids)
    decreases |dir| - first
  {
    var page := PageFrom(dir, first);
    ids := TurnPageCounts(s, t, bs, domain, dir, first);
    PageThenRest(dir, first);
    if |page| < PAGE_SIZE {
      assert dir[first..] == page;
    } else {
      var t1 := TurnPage(s, t, bs, domain, dir, first);
      var rest := HandlePagesCounts(s, t1, bs, domain, dir, first + PAGE_SIZE);
      var r := HandlePages(s, t1, bs, domain, dir, first + PAGE_SIZE);
      if r.BulkDone? { CountedThen(t, t1, r.tally, page, dir[first + PAGE_SIZE..], bs, ids, rest); }
      ids := ids + rest;
    }
  }

  /**
   Whatever fails, a request that answers has counted every user of the directory and asked for the
   groups of each enabled user exactly once and in order. The users processed are those whose groups
   were fetched, `ids`; each of them was handed to reconciliation, which set out to visit the rooms of
   all bindings in order, and nobody else was.
   */
  lemma EveryUserOnce(s: Script, w: World, synapse: bool, bs: seq<PolicyBinding>, domain: string, dir: seq<DirectoryUser>)
    returns (ids: seq<string>)
    ensures var r := BulkReconcileAll(s, w, synapse, bs, domain, dir);
            r.BulkDone? ==>
              && r.tally.processed + r.tally.skipped == |dir|
              && r.tally.processed == |ids|
              && Lookups(r.tally.w.trace) == Lookups(w.trace) + EnabledIds(dir)
              && Fetched(r.tally.w.trace) == Fetched(w.trace) + ids
              && Handed(r.tally.w.trace) == Handed(w.trace) + HandedTo(ids, BindingRooms(bs))
  {
    var t0, t := Tally(w, 0, 0, []), Tally(AtPages(s, w), 0, 0, []);
    AtPagesCounts(s, w);
    ids := HandlePagesCounts(s, t, bs, domain, dir, 0);
    assert dir[0..] == dir;
  }

  /** The state when the paging starts. */
  function AtPages(s: Script, w: World): World {
    Attempt(s, Attempt(s, w, CountUsers), ReadBindings)
  }

  lemma AtPagesCounts(s: Script, w: World)
    ensures var w' := AtPages(s, w);
            Lookups(w'.trace) == Lookups(w.trace) && Fetched(w'.trace) == Fetched(w.trace) && Handed(w'.trace) == Handed(w.trace)
  {
    var w1 := Attempt(s, w, CountUsers);
    LookupsGrow(w.trace, Event(CountUsers, Succeeds(s, w, CountUsers)));
    LookupsGrow(w1.trace, Event(ReadBindings, Succeeds(s, w1, ReadBindings)));
  }

  // ----- Who is left alone, whatever fails -----

  /** A user the bulk run acts for. */
  predicate ActsFor(u: DirectoryUser, domain: string, user: string) {
    u.enabled && MatrixId(u, domain) == user
  }

  lemma HandleUserLeavesAlone(s: Script, t: Tally, bs: seq<PolicyBinding>, domain: string, u: DirectoryUser,
                              user: string, room: string)
    requires !ActsFor(u, domain, user)
    ensures View(HandleUser(s, t, bs, domain, u).w, user, room) == View(t.w, user, room)
  {
    if u.enabled {
      var w1 := Attempt(s, t.w, GetGroups(u.id));
      var w2 := Attempt(s, w1, GetRoles(u.id));
      AttemptOnView(s, t.w, GetGroups(u.id), user, room);
      AttemptOnView(s, w1, GetRoles(u.id), user, room);
      var m := MemberFor(u, domain, if Succeeds(s, w1, GetRoles(u.id)) then u.roles else []);
      ReconcileTouchesDecidedRoomsOnly(s, w2, m, bs, user, room);
    }
  }

  lemma {:induction false} HandleUsersLeaveAlone(s: Script, t: Tally, bs: seq<PolicyBinding>, domain: string,
                                                 us: seq<DirectoryUser>, user: string, room: string)
    requires forall u | u in us :: !ActsFor(u, domain, user)
    ensures View(HandleUsers(s, t, bs, domain, us).w, user, room) == View(t.w, user, room)
    decreases |us|
  {
    if us == [] {
    } else {
      HandleUserLeavesAlone(s, t, bs, domain, us[0], user, room);
      HandleUsersLeaveAlone(s, HandleUser(s, t, bs, domain, us[0]), bs, domain, us[1..], user, room);
    }
  }

  lemma {:induction false} HandlePagesLeaveAlone(s: Script, t: Tally, bs: seq<PolicyBinding>, domain: string,
                                                 dir: seq<DirectoryUser>, first: nat, user: string, room: string)
    requires forall u | u in dir :: !ActsFor(u, domain, user)
    ensures View(HandlePages(s, t, bs, domain, dir, first).World(), user, room) == View(t.w, user, room)
    decreases if first < |dir| then |dir| - first else 0
  {
    AttemptOnView(s, t.w, SearchUsers(first), user, room);
    HandleUsersLeaveAlone(s, t.(w := Attempt(s, t.w, SearchUsers(first))), bs, domain, PageFrom(dir, first), user, room);
    if |PageFrom(dir, first)| == PAGE_SIZE {
      HandlePagesLeaveAlone(s, TurnPage(s, t, bs, domain, dir, first), bs, domain, dir, first + PAGE_SIZE, user, room);
    }
  }

  lemma AtPagesKeepsViews(s: Script, w: World, user: string, room: string)
    ensures AtPages(s, w).mx == w.mx
    ensures View(Attempt(s, w, CountUsers), user, room) == View(AtPages(s, w), user, room) == View(w, user, room)
  {
    AttemptOnView(s, w, CountUsers, user, room);
    AttemptOnView(s, Attempt(s, w, CountUsers), ReadBindings, user, room);
  }

  /**
   Whatever fails, even when the request fails half-way: whoever is no enabled user of the directory
   is joined to no room, kicked from none, and keeps every power level.
   */
  lemma BulkLeavesOthersAlone(s: Script, w: World, synapse: bool, bs: seq<PolicyBinding>, domain: string, dir: seq<DirectoryUser>,
                              user: string, room: string)
    requires forall u | u in dir :: !ActsFor(u, domain, user)
    ensures View(BulkReconcileAll(s, w, synapse, bs, domain, dir).World(), user, room) == View(w, user, room)
  {
    AtPagesKeepsViews(s, w, user, room);
    HandlePagesLeaveAlone(s, Tally(AtPages(s, w), 0, 0, []), bs, domain, dir, 0, user, room);
  }

  // ----- Final state without failures -----

  ghost predicate DistinctNames(us: seq<DirectoryUser>) {
    forall i, j | 0 <= i < j < |us| :: us[i].username != us[j].username
  }

  lemma MatrixIdsAreDistinct(u: DirectoryUser, v: DirectoryUser, domain: string)
    requires MatrixId(u, domain) == MatrixId(v, domain)
    ensures u.username == v.username
  {
    var tail := ":" + domain;
    assert MatrixId(u, domain) == "@" + (u.username + tail) && MatrixId(v, domain) == "@" + (v.username + tail);
    assert MatrixId(u, domain)[1..|u.username| + 1] == u.username;
    assert MatrixId(v, domain)[1..|v.username| + 1] == v.username;
    assert |MatrixId(u, domain)| == |u.username| + |tail| + 1;
    assert |MatrixId(v, domain)| == |v.username| + |tail| + 1;
  }

  /** From `w` to `w'`, `user` was settled in `room` by the run for `user` among `us`, if there is one. */
  ghost predicate Settled(w: World, w': World, bs: seq<PolicyBinding>, domain: string, us: seq<DirectoryUser>,
                          user: string, room: string)
  {
    && w'.mx.spaces == w.mx.spaces
    && (forall u | u in us && ActsFor(u, domain, user) ::
         View(w', user, room)
         == DecideAll(w.mx.spaces, MemberFor(u, domain, u.roles), bs, room, View(w, user, room)))
    && ((forall u | u in us :: !ActsFor(u, domain, user)) ==> View(w', user, room) == View(w, user, room))
  }

  lemma SettledThen(w: World, w1: World, w2: World, bs: seq<PolicyBinding>, domain: string,
                    us: seq<DirectoryUser>, vs: seq<DirectoryUser>, user: string, room: string)
    requires DistinctNames(us + vs)
    requires Settled(w, w1, bs, domain, us, user, room) && Settled(w1, w2, bs, domain, vs, user, room)
    ensures Settled(w, w2, bs, domain, us + vs, user, room)
  {
    forall i, j | 0 <= i < |us| && 0 <= j < |vs| && ActsFor(us[i], domain, user)
      ensures !ActsFor(vs[j], domain, user)
    {
      assert us[i] == (us + vs)[i] && vs[j] == (us + vs)[|us| + j];
      if ActsFor(vs[j], domain, user) { MatrixIdsAreDistinct(us[i], vs[j], domain); }
    }
  }

  lemma AskingKeycloakKeepsViews(w: World, u: DirectoryUser, user: string, room: string)
    ensures var w' := Attempt(UP, Attempt(UP, w, GetGroups(u.id)), GetRoles(u.id));
            w'.mx == w.mx && View(w', user, room) == View(w, user, room)
  {
    AttemptOnView(UP, w, GetGroups(u.id), user, room);
    AttemptOnView(UP, Attempt(UP, w, GetGroups(u.id)), GetRoles(u.id), user, room);
  }

  lemma HandleUserSettles(t: Tally, bs: seq<PolicyBinding>, domain: string, u: DirectoryUser, user: string, room: string)
    ensures Settled(t.w, HandleUser(UP, t, bs, domain, u).w, bs, domain, [u], user, room)
  {
    if u.enabled {
      var w2 := Attempt(UP, Attempt(UP, t.w, GetGroups(u.id)), GetRoles(u.id));
      var m := MemberFor(u, domain, u.roles);
      AskingKeycloakKeepsViews(t.w, u, user, room);
      ReconcileKeepsSpaces(UP, w2, m, bs);
      assert HandleUser(UP, t, bs, domain, u).w == ReconcileAll(UP, w2, m, bs).w;
      if m.matrixId == user { ReconcileRefinesDecisions(UP, w2, m, bs, room); }
      else { ReconcileTouchesDecidedRoomsOnly(UP, w2, m, bs, user, room); }
    }
  }

  /** Users are independent: each ends where a run for that user alone, from the start, would end. */
  lemma {:induction false} HandleUsersSettles(t: Tally, bs: seq<PolicyBinding>, domain: string, us: seq<DirectoryUser>,
                                              user: string, room: string)
    requires DistinctNames(us)
    ensures Settled(t.w, HandleUsers(UP, t, bs, domain, us).w, bs, domain, us, user, room)
    decreases |us|
  {
    if us == [] {
    } else {
      var t1 := HandleUser(UP, t, bs, domain, us[0]);
      HandleUserSettles(t, bs, domain, us[0], user, room);
      HandleUsersSettles(t1, bs, domain, us[1..], user, room);
      assert us == [us[0]] + us[1..];
      SettledThen(t.w, t1.w, HandleUsers(UP, t1, bs, domain, us[1..]).w, bs, domain, [us[0]], us[1..], user, room);
    }
  }

  lemma TurnPageSettles(t: Tally, bs: seq<PolicyBinding>, domain: string, dir: seq<DirectoryUser>, first: nat,
                        user: string, room: string)
    requires DistinctNames(PageFrom(dir, first))
    ensures Settled(t.w, TurnPage(UP, t, bs, domain, dir, first).w, bs, domain, PageFrom(dir, first), user, room)
  {
    AttemptOnView(UP, t.w, SearchUsers(first), user, room);
    HandleUsersSettles(t.(w := Attempt(UP, t.w, SearchUsers(first))), bs, domain, PageFrom(dir, first), user, room);
  }

  lemma PartsAreDistinct(dir: seq<DirectoryUser>, first: nat)
    requires DistinctNames(dir) && first <= |dir|
    ensures DistinctNames(PageFrom(dir, first)) && DistinctNames(dir[first..])
  {
  }

  lemma SettledTogether(w: World, w1: World, w2: World, bs: seq<PolicyBinding>, domain: string, us: seq<DirectoryUser>,
                        vs: seq<DirectoryUser>, all: seq<DirectoryUser>, user: string, room: string)
    requires all == us + vs && DistinctNames(all)
    requires Settled(w, w1, bs, domain, us, user, room) && Settled(w1, w2, bs, domain, vs, user, room)
    ensures Settled(w, w2, bs, domain, all, user, room)
  {
    SettledThen(w, w1, w2, bs, domain, us, vs, user, room);
  }

  /** The tally after a page, when nothing fails, and how the paging goes on from there. */
  lemma FirstPage(t: Tally, bs: seq<PolicyBinding>, domain: string, dir: seq<DirectoryUser>, first: nat,
                  user: string, room: string)
    returns (t1: Tally)
    requires DistinctNames(PageFrom(dir, first))
    ensures Settled(t.w, t1.w, bs, domain, PageFrom(dir, first), user, room)
    ensures HandlePages(UP, t, bs, domain, dir, first)
         == if |PageFrom(dir, first)| < PAGE_SIZE then BulkDone(t1)
            else HandlePages(UP, t1, bs, domain, dir, first + PAGE_SIZE)
  {
    t1 := TurnPage(UP, t, bs, domain, dir, first);
    TurnPageSettles(t, bs, domain, dir, first, user, room);
  }

  lemma {:induction false} HandlePagesSettles(t: Tally, bs: seq<PolicyBinding>, domain: string, dir: seq<DirectoryUser>,
                                              first: nat, user: string, room: string)
    requires DistinctNames(dir) && first <= |dir|
    ensures var r := HandlePages(UP, t, bs, domain, dir, first);
            r.BulkDone? && Settled(t.w, r.tally.w, bs, domain, dir[first..], user, room)
    decreases |dir| - first
  {
    var page := PageFrom(dir, first);
    PartsAreDistinct(dir, first);
    PageThenRest(dir, first);
    var t1 := FirstPage(t, bs, domain, dir, first, user, room);
    if |page| < PAGE_SIZE {
      assert dir[first..] == page;
    } else {
      HandlePagesSettles(t1, bs, domain, dir, first + PAGE_SIZE, user, room);
      var r := HandlePages(UP, t1, bs, domain, dir, first + PAGE_SIZE);
      SettledTogether(t.w, t1.w, r.tally.w, bs, domain, page, dir[first + PAGE_SIZE..], dir[first..], user, room);
    }
  }

  lemma SettledFrom(w: World, w1: World, w2: World, bs: seq<PolicyBinding>, domain: string, us: seq<DirectoryUser>,
                    user: string, room: string)
    requires Settled(w1, w2, bs, domain, us, user, room)
    requires w1.mx.spaces == w.mx.spaces && View(w1, user, room) == View(w, user, room)
    ensures Settled(w, w2, bs, domain, us, user, room)
  {
  }

  lemma UpReachesPages(w: World, bs: seq<PolicyBinding>, domain: string, dir: seq<DirectoryUser>)
    requires |dir| <= MAX_BULK_RECONCILE_USERS
    ensures BulkReconcileAll(UP, w, true, bs, domain, dir)
         == HandlePages(UP, Tally(AtPages(UP, w), 0, 0, []), bs, domain, dir, 0)
  {
  }

  lemma BulkSettles(w: World, bs: seq<PolicyBinding>, domain: string, dir: seq<DirectoryUser>, user: string, room: string)
    requires DistinctNames(dir) && |dir| <= MAX_BULK_RECONCILE_USERS
    ensures var r := BulkReconcileAll(UP, w, true, bs, domain, dir);
            r.BulkDone? && Settled(w, r.tally.w, bs, domain, dir, user, room)
  {
    var w1 := AtPages(UP, w);
    UpReachesPages(w, bs, domain, dir);
    AtPagesKeepsViews(UP, w, user, room);
    HandlePagesSettles(Tally(w1, 0, 0, []), bs, domain, dir, 0, user, room);
    assert dir[0..] == dir;
    SettledFrom(w, w1, BulkReconcileAll(UP, w, true, bs, domain, dir).tally.w, bs, domain, dir, user, room);
  }

  /** Without failures, every enabled user ends exactly where reconciling that user alone would end; others are unchanged. */
  lemma BulkIsUserByUser(w: World, bs: seq<PolicyBinding>, domain: string, dir: seq<DirectoryUser>, user: string, room: string)
    requires DistinctNames(dir) && |dir| <= MAX_BULK_RECONCILE_USERS
    ensures var r := BulkReconcileAll(UP, w, true, bs, domain, dir);
            && r.BulkDone?
            && (forall u | u in dir && u.enabled && user == "@" + u.username + ":" + domain ::
                 View(r.tally.w, user, room) == View(After(UP, w, Member(u.id, user, u.groups, u.roles), bs), user, room))
            && ((forall u | u in dir :: !(u.enabled && user == "@" + u.username + ":" + domain)) ==>
                 View(r.tally.w, user, room) == View(w, user, room))
  {
    BulkSettles(w, bs, domain, dir, user, room);
    forall u | u in dir && ActsFor(u, domain, user)
      ensures View(After(UP, w, Member(u.id, user, u.groups, u.roles), bs), user, room)
           == DecideAll(w.mx.spaces, MemberFor(u, domain, u.roles), bs, room, View(w, user, room))
    {
      ReconcileRefinesDecisions(UP, w, Member(u.id, user, u.groups, u.roles), bs, room);
    }
  }

  /** Without failures, every enabled user of the directory ends up in exactly the rooms where the user belongs. */
  lemma BulkGivesWhatBelongs(w: World, bs: seq<PolicyBinding>, domain: string, dir: seq<DirectoryUser>, u: DirectoryUser,
                             room: string)
    requires DistinctNames(dir) && |dir| <= 1000 && u in dir && u.enabled
    ensures var user := "@" + u.username + ":" + domain;
            var r := BulkReconcileAll(UP, w, true, bs, domain, dir);
            && r.BulkDone?
            && ((room, user) in r.tally.w.mx.members
                <==> Belongs(w.mx.spaces, u.groups, u.roles, bs, room, (room, user) in w.mx.members))
  {
    var user := "@" + u.username + ":" + domain;
    var m := Member(u.id, user, u.groups, u.roles);
    BulkIsUserByUser(w, bs, domain, dir, user, room);
    UpNeverWarns(w, m, bs);
    RunGivesWhatBelongs(UP, w, m, bs, room);
    var w' := BulkReconcileAll(UP, w, true, bs, domain, dir).tally.w;
    assert View(w', user, room).member == View(After(UP, w, m, bs), user, room).member;
  }

  // ----- One user, whatever fails -----

  /**
   Whatever fails: a user who is disabled, or whose groups cannot be fetched, is skipped and nothing is
   changed. Any other is reconciled with those groups, and with the roles if they could be fetched.
   */
  lemma UserIsReconciledAsFetched(s: Script, w: World, bs: seq<PolicyBinding>, domain: string, u: DirectoryUser)
    ensures var w1 := Attempt(s, w, GetGroups(u.id));
            var w2 := Attempt(s, w1, GetRoles(u.id));
            var r := RunUser(s, w, bs, domain, u);
            && (r.processed <==> u.enabled && Succeeds(s, w, GetGroups(u.id)))
            && (!r.processed ==> SameSystems(w, r.w) && r.w.log == w.log)
            && (r.processed ==>
                 var roles := if Succeeds(s, w1, GetRoles(u.id)) then u.roles else [];
                 r.w == After(s, w2, Member(u.id, "@" + u.username + ":" + domain, u.groups, roles), bs))
  {
  }

  // ----- The order of users -----

  lemma SameViewsSameRooms(mx: World, mx': World)
    requires forall user, room :: View(mx, user, room) == View(mx', user, room)
    ensures mx.mx.members == mx'.mx.members && mx.mx.power == mx'.mx.power
  {
    forall p: (string, string)
      ensures p in mx.mx.members <==> p in mx'.mx.members
      ensures p in mx.mx.power <==> p in mx'.mx.power
      ensures p in mx.mx.power ==> mx.mx.power[p] == mx'.mx.power[p]
    {
      assert View(mx, p.1, p.0) == View(mx', p.1, p.0) && p == (p.0, p.1);
    }
  }

  /** Hence the order of users is irrelevant: taking them one by one in any order gives the same rooms and power levels. */
  lemma AnyOrderOfUsers(w: World, bs: seq<PolicyBinding>, domain: string, dir: seq<DirectoryUser>, order: seq<DirectoryUser>)
    requires DistinctNames(dir) && |dir| <= MAX_BULK_RECONCILE_USERS
    requires DistinctNames(order) && forall u :: u in order <==> u in dir
    ensures var bulk := BulkReconcileAll(UP, w, true, bs, domain, dir);
            var single := HandleUsers(UP, Tally(w, 0, 0, []), bs, domain, order);
            && bulk.BulkDone?
            && bulk.tally.w.mx.members == single.w.mx.members
            && bulk.tally.w.mx.power == single.w.mx.power
  {
    var bulk := BulkReconcileAll(UP, w, true, bs, domain, dir);
    var single := HandleUsers(UP, Tally(w, 0, 0, []), bs, domain, order);
    BulkSettles(w, bs, domain, dir, "", "");
    forall user, room ensures View(bulk.tally.w, user, room) == View(single.w, user, room) {
      BulkSettles(w, bs, domain, dir, user, room);
      HandleUsersSettles(Tally(w, 0, 0, []), bs, domain, order, user, room);
    }
    SameViewsSameRooms(bulk.tally.w, single.w);
  }
}
