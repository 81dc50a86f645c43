/** In which order offboarding acts, and what its set of seen rooms is worth. */
module OffboardOrder {
  import opened Policy
  import opened Upstream
  import opened Rooms
  import opened Lifecycle
  import opened OffboardResults

  // ----- Order of steps -----

  /** The calls that take the user's access to rooms or account away for good. */
  predicate Removal(call: Call) {
    call.KickUser? || call.DeactivateAccount?
  }

  function Removals(t: seq<Event>): nat {
    if t == [] then 0 else Removals(t[..|t| - 1]) + if Removal(t[|t| - 1].call) then 1 else 0
  }

  lemma GentleAttempt(s: Script, w: World, call: Call)
    requires !Removal(call)
    ensures Removals(Attempt(s, w, call).trace) == Removals(w.trace)
  {
    assert Attempt(s, w, call).trace[..|w.trace|] == w.trace;
  }

  lemma GentleActAndLog(s: Script, w: World, call: Call, draft: AuditEntry)
    requires !Removal(call)
    ensures Removals(ActAndLog(s, w, call, draft).w.trace) == Removals(w.trace)
  {
    GentleAttempt(s, w, call);
    GentleAttempt(s, Attempt(s, w, call), WriteAudit(draft.(success := Succeeds(s, w, call))));
  }

  lemma {:induction false} GentleFinishAll(s: Script, w: World, m: Member, xs: seq<Session>)
    ensures Removals(FinishAll(s, w, OFFBOARD, m, xs).w.trace) == Removals(w.trace)
    decreases |xs|
  {
    if xs == [] {
    } else {
      GentleActAndLog(s, w, FinishSession(xs[0]), SessionDraft(OFFBOARD, m, xs[0]));
      GentleFinishAll(s, FinishOne(s, w, OFFBOARD, m, xs[0]).w, m, xs[1..]);
    }
  }

  lemma GentleListing(s: Script, w: World, account: string)
    ensures Removals(ListActive(s, w, account).w.trace) == Removals(w.trace)
  {
    var w1 := Attempt(s, w, ListSessions(account));
    var w2 := Attempt(s, w1, FetchSessions(account, Compat));
    GentleAttempt(s, w, ListSessions(account));
    GentleAttempt(s, w1, FetchSessions(account, Compat));
    GentleAttempt(s, w2, FetchSessions(account, OAuth2));
  }

  lemma GentleWithdraw(s: Script, w: World, m: Member, username: string)
    ensures Removals(Withdraw(s, w, m, username).w.trace) == Removals(w.trace)
  {
    var w1 := Attempt(s, w, LookupAccount(username));
    GentleAttempt(s, w, LookupAccount(username));
    if username in w1.mas.accounts {
      var l := ListActive(s, w1, w1.mas.accounts[username]);
      GentleListing(s, w1, w1.mas.accounts[username]);
      GentleFinishAll(s, l.w, m, l.sessions);
    }
    GentleActAndLog(s, RevokeSessions(s, w, OFFBOARD, m, username).w, LogoutUser(m.keycloakId), LogoutDraft(OFFBOARD, m));
  }

  lemma {:induction false} NothingRemovedBetween(t: seq<Event>, t': seq<Event>)
    requires t <= t'
    ensures Removals(t) <= Removals(t')
    ensures Removals(t) == Removals(t') ==> forall k | |t| <= k < |t'| :: !Removal(t'[k].call)
    decreases |t'|
  {
    if |t| == |t'| {
      assert t == t';
    } else {
      NothingRemovedBetween(t, t'[..|t'| - 1]);
    }
  }

  /** Up to the disable call nothing is removed; that call is the last but one event of the gate's trace. */
  lemma GateOrder(s: Script, w: World, m: Member, username: string)
    ensures var t := ReachGate(s, w, m, username).disable.w.trace;
            && |w.trace| + 2 <= |t|
            && w.trace <= t
            && t[|t| - 2] == Event(DisableUser(m.keycloakId), ReachGate(s, w, m, username).disable.ok)
            && forall k | |w.trace| <= k < |t| :: !Removal(t[k].call)
  {
    var out := Withdraw(s, w, m, username);
    var draft := DisableDraft(OFFBOARD, m, username);
    var t := ReachGate(s, w, m, username).disable.w.trace;
    WithdrawIsSound(s, w, m, username);
    GentleWithdraw(s, w, m, username);
    GentleActAndLog(s, out.w, DisableUser(m.keycloakId), draft);
    NothingRemovedBetween(w.trace, t);
  }

  /**
   At every point of every run: a room kick or an account deactivation comes only after this run
   has disabled the Keycloak account.
   */
  lemma NothingRemovedBeforeDisable(s: Script, w: World, id: string, synapse: bool, bs: seq<PolicyBinding>, domain: string,
                                    k: nat)
    requires var t := Offboard(s, w, id, synapse, bs, domain).w.trace;
             |w.trace| <= k < |t| && Removal(t[k].call)
    ensures var t := Offboard(s, w, id, synapse, bs, domain).w.trace;
            exists j :: |w.trace| <= j < k && t[j] == Event(DisableUser(id), true)
  {
    var t := Offboard(s, w, id, synapse, bs, domain).w.trace;
    assert Succeeds(s, w, GetUser(id));
    var w0, username := Attempt(s, w, GetUser(id)), w.kc.users[id];
    var m := MemberOf(id, username, domain);
    var g := ReachGate(s, w0, m, username);
    GateOrder(s, w0, m, username);
    var gt := g.disable.w.trace;
    GateIsPrefix(s, g, m, username, synapse, bs);
    assert gt <= t;
    assert k >= |gt|;
    assert t[|gt| - 2] == gt[|gt| - 2];
  }

  lemma GateIsPrefix(s: Script, g: Gate, m: Member, username: string, synapse: bool, bs: seq<PolicyBinding>)
    ensures g.disable.w.trace <= PassGate(s, g, m, username, synapse, bs).w.trace
  {
    if StepResult(g.disable).Ok? {
      var rooms := CleanRooms(s, g.disable.w, m, synapse, bs);
      CleanRoomsIsSound(s, g.disable.w, m, synapse, bs);
      CloseAccountIsSound(s, rooms.w, m, username, g.warnings + rooms.warnings);
    }
  }

  // ----- The set of rooms seen -----

  /** The same clean-up without remembering which rooms were seen. */
  function KickEveryBinding(s: Script, w: World, m: Member, bs: seq<PolicyBinding>): Outcome
    decreases |bs|
  {
    if bs == [] then Outcome(w, [])
    else
      var o := KickMapped(s, w, OFFBOARD, m, bs[0]);
      var rest := KickEveryBinding(s, o.w, m, bs[1..]);
      Outcome(rest.w, o.warnings + rest.warnings)
  }

  lemma {:induction false} KickEveryBindingStep(s: Script, w: World, m: Member, bs: seq<PolicyBinding>, sc: Scope)
    requires forall r | r in MappedRooms(w.mx.spaces, bs) :: (r, m.matrixId) in sc.places
    ensures var o := KickEveryBinding(s, w, m, bs);
            && Within(w, o.w, sc)
            && (o.warnings == [] ==> forall b, r | b in bs && r in Targets(w.mx.spaces, b.target.roomId) ::
                 (r, m.matrixId) !in o.w.mx.members)
    decreases |bs|
  {
    if bs == [] {
    } else {
      assert bs == [bs[0]] + bs[1..];
      var o := KickMapped(s, w, OFFBOARD, m, bs[0]);
      KickMappedStep(s, w, m, bs[0], sc);
      KickEveryBindingStep(s, o.w, m, bs[1..], sc);
      WithinThen(w, o.w, KickEveryBinding(s, o.w, m, bs[1..]).w, sc);
    }
  }

  /** Skipping rooms seen before does not change who is left in which room. */
  lemma SeenRoomsMayBeSkipped(s: Script, s': Script, w: World, m: Member, bs: seq<PolicyBinding>)
    requires KickAllMapped(s, w, OFFBOARD, m, bs, {}).warnings == []
    requires KickEveryBinding(s', w, m, bs).warnings == []
    ensures KickAllMapped(s, w, OFFBOARD, m, bs, {}).w.mx == KickEveryBinding(s', w, m, bs).w.mx
  {
    var places := set r | r in MappedRooms(w.mx.spaces, bs) :: (r, m.matrixId);
    var sc := Scope("", {}, {}, places);
    var mx, mx' := KickAllMapped(s, w, OFFBOARD, m, bs, {}).w.mx, KickEveryBinding(s', w, m, bs).w.mx;
    KickAllMappedStep(s, w, m, bs, {}, sc);
    KickEveryBindingStep(s', w, m, bs, sc);
    forall p | p in places ensures p !in mx.members && p !in mx'.members {
      MappedRoomsAreTargets(w.mx.spaces, bs, p.0);
    }
    assert mx.members == w.mx.members - places == mx'.members;
  }

  /** The rooms of the bindings that were not seen before, in order of first mention. */
  function UnseenRooms(bs: seq<PolicyBinding>, seen: set<string>): seq<string>
    decreases |bs|
  {
    if bs == [] then []
    else if bs[0].target.roomId in seen then UnseenRooms(bs[1..], seen)
    else [bs[0].target.roomId] + UnseenRooms(bs[1..], seen + {bs[0].target.roomId})
  }

  lemma {:induction false} UnseenRoomsAreExact(bs: seq<PolicyBinding>, seen: set<string>)
    ensures forall r :: r in UnseenRooms(bs, seen) <==> r !in seen && exists b :: b in bs && b.target.roomId == r
    ensures forall i, j | 0 <= i < j < |UnseenRooms(bs, seen)| :: UnseenRooms(bs, seen)[i] != UnseenRooms(bs, seen)[j]
    decreases |bs|
  {
    if bs == [] {
    } else {
      var room := bs[0].target.roomId;
      var seen' := if room in seen then seen else seen + {room};
      UnseenRoomsAreExact(bs[1..], seen');
      assert bs[0] in bs && forall b :: b in bs <==> b == bs[0] || b in bs[1..];
      if room !in seen {
        assert room !in UnseenRooms(bs[1..], seen');
      }
    }
  }

  lemma KickMappedExpandsOne(s: Script, w: World, m: Member, b: PolicyBinding)
    ensures Expansions(KickMapped(s, w, OFFBOARD, m, b).w.trace) == Expansions(w.trace) + [b.target.roomId]
  {
    var x := Expand(s, w, b.target.roomId);
    ExpansionsGrow(s, w, SpaceChildren(b.target.roomId));
    KicksExpandNothing(s, x.w, m, "kick_room_on_" + OFFBOARD, SubjectText(b.subject), Reversed(x.targets));
  }

  /**
   Whatever fails, the rooms expanded are the distinct rooms of the bindings, each exactly once
   (`UnseenRoomsAreExact`).
   */
  lemma {:induction false} EachRoomExpandedOnce(s: Script, w: World, m: Member, bs: seq<PolicyBinding>, seen: set<string>)
    ensures Expansions(KickAllMapped(s, w, OFFBOARD, m, bs, seen).w.trace) == Expansions(w.trace) + UnseenRooms(bs, seen)
    decreases |bs|
  {
    if bs == [] {
    } else {
      var room := bs[0].target.roomId;
      if room in seen {
        EachRoomExpandedOnce(s, w, m, bs[1..], seen);
      } else {
        var w1 := KickMapped(s, w, OFFBOARD, m, bs[0]).w;
        KickMappedExpandsOne(s, w, m, bs[0]);
        EachRoomExpandedOnce(s, w1, m, bs[1..], seen + {room});
        AppendTwice(Expansions(w.trace), [room], UnseenRooms(bs[1..], seen + {room}), Expansions(w1.trace),
                    Expansions(KickAllMapped(s, w1, OFFBOARD, m, bs[1..], seen + {room}).w.trace));
      }
    }
  }

  /** Whatever fails, a clean-up of all mapped rooms kicks the user from a room at most once, and never joins anyone. */
  lemma {:induction false} EachRoomKickedOnce(s: Script, w: World, m: Member, bs: seq<PolicyBinding>, seen: set<string>,
                                              user: string, room: string)
    ensures var v, v' := View(w, user, room), View(KickAllMapped(s, w, OFFBOARD, m, bs, seen).w, user, room);
            v' == v || (user == m.matrixId && v' == Kicked(v))
    decreases |bs|
  {
    if bs == [] {
    } else {
      var next := bs[0].target.roomId;
      if next in seen {
        EachRoomKickedOnce(s, w, m, bs[1..], seen, user, room);
      } else {
        var x := Expand(s, w, next);
        AttemptOnView(s, w, SpaceChildren(next), user, room);
        KickRoomsOnView(s, x.w, m, "kick_room_on_" + OFFBOARD, SubjectText(bs[0].subject), Reversed(x.targets), user, room);
        EachRoomKickedOnce(s, KickMapped(s, w, OFFBOARD, m, bs[0]).w, m, bs[1..], seen + {next}, user, room);
      }
    }
  }

  lemma KickMappedVisits(s: Script, w: World, m: Member, b: PolicyBinding)
    ensures Reads(KickMapped(s, w, OFFBOARD, m, b).w.trace)
         == Reads(w.trace) + Reversed(Expand(s, w, b.target.roomId).targets)
  {
    var x := Expand(s, w, b.target.roomId);
    TraceGrows(w.trace, Event(SpaceChildren(b.target.roomId), Succeeds(s, w, SpaceChildren(b.target.roomId))));
    KickRoomsInOrder(s, x.w, m, "kick_room_on_" + OFFBOARD, SubjectText(b.subject), Reversed(x.targets));
  }

  /** Whatever fails, the rooms of a space are visited children first, the last child first, and the space itself last. */
  lemma SpaceIsVisitedLast(s: Script, w: World, m: Member, b: PolicyBinding)
    ensures var children := if Succeeds(s, w, SpaceChildren(b.target.roomId))
                            then SpaceChildrenOf(w.mx.spaces, b.target.roomId) else [];
            Reads(KickMapped(s, w, OFFBOARD, m, b).w.trace) == Reads(w.trace) + (Reversed(children) + [b.target.roomId])
  {
    var children := if Succeeds(s, w, SpaceChildren(b.target.roomId))
                    then SpaceChildrenOf(w.mx.spaces, b.target.roomId) else [];
    KickMappedVisits(s, w, m, b);
    ReversedOfCons(b.target.roomId, children);
    assert Expand(s, w, b.target.roomId).targets == [b.target.roomId] + children;
  }

  lemma {:induction false} ReversedOfCons<T>(x: T, s: seq<T>)
    ensures Reversed([x] + s) == Reversed(s) + [x]
  {
    if s == [] {
      assert [x] + s == [x];
    } else {
      var t := [x] + s;
      assert t[..|t| - 1] == [x] + s[..|s| - 1];
      ReversedOfCons(x, s[..|s| - 1]);
    }
  }
}
