/** The dry run of reconciliation, and when it tells the truth. */
module Preview {
  import opened Wrappers
  import opened Policy
  import opened Upstream
  import opened Rooms
  import opened Reconcile
  import opened Decisions
  import opened ReconcileResults
  import Requirements
  import opened Isolation

  datatype RoomAction = RoomAction(room: string, subject: string, powerLevel: Option<int>)

  datatype ReconcilePreview = ReconcilePreview(
    joins: seq<RoomAction>, kicks: seq<RoomAction>, alreadyCorrect: seq<RoomAction>, warnings: seq<Warning>)
  {
    function Plus(p: ReconcilePreview): ReconcilePreview {
      ReconcilePreview(joins + p.joins, kicks + p.kicks, alreadyCorrect + p.alreadyCorrect, warnings + p.warnings)
    }
  }

  const EMPTY := ReconcilePreview([], [], [], [])

  datatype Previewed = Previewed(w: World, p: ReconcilePreview)

  function PreviewOne(s: Script, w: World, m: Member, b: PolicyBinding, room: string): Previewed {
    var read := RoomMembers(room);
    var w1 := Attempt(s, w, read);
    var inRoom := (room, m.matrixId) in w1.mx.members;
    var action := RoomAction(room, SubjectText(b.subject), b.powerLevel);
    Previewed(w1,
      if !Succeeds(s, w, read) then EMPTY.(warnings := [MembersUnknown(room)])
      else if UserMatchesBinding(b, m) && !inRoom then EMPTY.(joins := [action])
      else if b.allowRemove && !UserMatchesBinding(b, m) && inRoom then EMPTY.(kicks := [action])
      else if UserMatchesBinding(b, m) && inRoom then EMPTY.(alreadyCorrect := [action])
      else EMPTY)
  }

  function PreviewRooms(s: Script, w: World, m: Member, b: PolicyBinding, rooms: seq<string>): Previewed
    decreases |rooms|
  {
    if rooms == [] then Previewed(w, EMPTY)
    else
      var o := PreviewOne(s, w, m, b, rooms[0]);
      var rest := PreviewRooms(s, o.w, m, b, rooms[1..]);
      Previewed(rest.w, o.p.Plus(rest.p))
  }

  lemma PlusAssociates(p: ReconcilePreview, q: ReconcilePreview, r: ReconcilePreview)
    ensures p.Plus(q).Plus(r) == p.Plus(q.Plus(r))
    ensures p.Plus(EMPTY) == p && EMPTY.Plus(p) == p
  {
  }

  method PreviewTarget(svc: Services, m: Member, b: PolicyBinding, room: string) returns (p: ReconcilePreview)
    modifies svc
    ensures Previewed(svc.w, p) == PreviewOne(svc.script, old(svc.w), m, b, room)
  {
    p := EMPTY;
    var read := svc.Perform(RoomMembers(room));
    if !read {
      return EMPTY.(warnings := [MembersUnknown(room)]);
    }
    var inRoom := (room, m.matrixId) in svc.w.mx.members;
    var action := RoomAction(room, SubjectText(b.subject), b.powerLevel);
    var matches := UserMatchesBinding(b, m);
    if matches && !inRoom {
      p := p.(joins := [action]);
    } else if b.allowRemove && !matches && inRoom {
      p := p.(kicks := [action]);
    } else if matches && inRoom {
      p := p.(alreadyCorrect := [action]);
    }
  }

  method PreviewTargets(svc: Services, m: Member, b: PolicyBinding, targets: seq<string>) returns (p: ReconcilePreview)
    modifies svc
    ensures Previewed(svc.w, p) == PreviewRooms(svc.script, old(svc.w), m, b, targets)
  {
    p := EMPTY;
    ghost var whole := PreviewRooms(svc.script, svc.w, m, b, targets);
    PlusAssociates(whole.p, EMPTY, EMPTY);
    for i := 0 to |targets|
      invariant var rest := PreviewRooms(svc.script, svc.w, m, b, targets[i..]);
                whole == Previewed(rest.w, p.Plus(rest.p))
    {
      assert targets[i..][1..] == targets[i + 1..];
      var q := PreviewTarget(svc, m, b, targets[i]);
      PlusAssociates(p, q, PreviewRooms(svc.script, svc.w, m, b, targets[i + 1..]).p);
      p := p.Plus(q);
    }
    PlusAssociates(p, EMPTY, EMPTY);
  }

  function PreviewBinding(s: Script, w: World, m: Member, b: PolicyBinding): Previewed {
    var x := Expand(s, w, b.target.roomId);
    var o := PreviewRooms(s, x.w, m, b, x.targets);
    Previewed(o.w, EMPTY.(warnings := x.warnings).Plus(o.p))
  }

  function PreviewAll(s: Script, w: World, m: Member, bs: seq<PolicyBinding>): Previewed
    decreases |bs|
  {
    if bs == [] then Previewed(w, EMPTY)
    else
      var o := PreviewBinding(s, w, m, bs[0]);
      var rest := PreviewAll(s, o.w, m, bs[1..]);
      Previewed(rest.w, o.p.Plus(rest.p))
  }

  method PreviewMembership(svc: Services, m: Member, bindings: seq<PolicyBinding>) returns (p: ReconcilePreview)
    modifies svc
    ensures Previewed(svc.w, p) == PreviewAll(svc.script, old(svc.w), m, bindings)
  {
    p := EMPTY;
    ghost var whole := PreviewAll(svc.script, svc.w, m, bindings);
    PlusAssociates(whole.p, EMPTY, EMPTY);
    for i := 0 to |bindings|
      invariant var rest := PreviewAll(svc.script, svc.w, m, bindings[i..]);
                whole == Previewed(rest.w, p.Plus(rest.p))
    {
      assert bindings[i..][1..] == bindings[i + 1..];
      ghost var w0 := svc.w;
      var targets, ws := ExpandTargets(svc, bindings[i].target.roomId);
      var q := PreviewTargets(svc, m, bindings[i], targets);
      q := EMPTY.(warnings := ws).Plus(q);
      assert Previewed(svc.w, q) == PreviewBinding(svc.script, w0, m, bindings[i]);
      PlusAssociates(p, q, PreviewAll(svc.script, svc.w, m, bindings[i + 1..]).p);
      p := p.Plus(q);
    }
    PlusAssociates(p, EMPTY, EMPTY);
  }

  // ----- A preview changes nothing -----

  lemma {:induction false} PreviewRoomsOnlyReads(s: Script, w: World, m: Member, b: PolicyBinding, rooms: seq<string>)
    ensures var o := PreviewRooms(s, w, m, b, rooms);
            o.w.kc == w.kc && o.w.mas == w.mas && o.w.mx == w.mx && o.w.log == w.log
    decreases |rooms|
  {
    if rooms == [] {
    } else {
      PreviewRoomsOnlyReads(s, PreviewOne(s, w, m, b, rooms[0]).w, m, b, rooms[1..]);
    }
  }

  /** Whatever fails, a preview leaves all three systems and the audit table as they were. */
  lemma {:induction false} PreviewOnlyReads(s: Script, w: World, m: Member, bs: seq<PolicyBinding>)
    ensures var o := PreviewAll(s, w, m, bs);
            o.w.kc == w.kc && o.w.mas == w.mas && o.w.mx == w.mx && o.w.log == w.log
    decreases |bs|
  {
    if bs == [] {
    } else {
      var x := Expand(s, w, bs[0].target.roomId);
      PreviewRoomsOnlyReads(s, x.w, m, bs[0], x.targets);
      PreviewOnlyReads(s, PreviewRooms(s, x.w, m, bs[0], x.targets).w, m, bs[1..]);
    }
  }

  // ----- What a preview says -----

  lemma PreviewOneNamesFailures(s: Script, w: World, m: Member, b: PolicyBinding, room: string)
    ensures var o := PreviewOne(s, w, m, b, room); NamesFailures(w, Outcome(o.w, o.p.warnings))
  {
    NamesOfAttempt(s, w, RoomMembers(room));
  }

  lemma {:induction false} PreviewRoomsNameFailures(s: Script, w: World, m: Member, b: PolicyBinding, rooms: seq<string>)
    ensures var o := PreviewRooms(s, w, m, b, rooms); NamesFailures(w, Outcome(o.w, o.p.warnings))
    decreases |rooms|
  {
    if rooms == [] {
    } else {
      var o := PreviewOne(s, w, m, b, rooms[0]);
      var rest := PreviewRooms(s, o.w, m, b, rooms[1..]);
      PreviewOneNamesFailures(s, w, m, b, rooms[0]);
      PreviewRoomsNameFailures(s, o.w, m, b, rooms[1..]);
      NamesThen(w, Outcome(o.w, o.p.warnings), Outcome(rest.w, rest.p.warnings));
    }
  }

  lemma PreviewBindingNamesFailures(s: Script, w: World, m: Member, b: PolicyBinding)
    ensures var o := PreviewBinding(s, w, m, b); NamesFailures(w, Outcome(o.w, o.p.warnings))
  {
    var x := Expand(s, w, b.target.roomId);
    var o := PreviewRooms(s, x.w, m, b, x.targets);
    NamesOfAttempt(s, w, SpaceChildren(b.target.roomId));
    PreviewRoomsNameFailures(s, x.w, m, b, x.targets);
    NamesThen(w, Outcome(x.w, x.warnings), Outcome(o.w, o.p.warnings));
  }

  /** Whatever fails, the warnings of a preview name exactly the calls that failed, in order. */
  lemma {:induction false} PreviewNamesFailures(s: Script, w: World, m: Member, bs: seq<PolicyBinding>)
    ensures var o := PreviewAll(s, w, m, bs); NamesFailures(w, Outcome(o.w, o.p.warnings))
    decreases |bs|
  {
    if bs == [] {
    } else {
      var o := PreviewBinding(s, w, m, bs[0]);
      var rest := PreviewAll(s, o.w, m, bs[1..]);
      PreviewBindingNamesFailures(s, w, m, bs[0]);
      PreviewNamesFailures(s, o.w, m, bs[1..]);
      NamesThen(w, Outcome(o.w, o.p.warnings), Outcome(rest.w, rest.p.warnings));
    }
  }

  /** The action is what the binding asks for in one of the rooms it reaches. */
  predicate Describes(spaces: Spaces, b: PolicyBinding, a: RoomAction) {
    && Requirements.Reaches(spaces, b.target.roomId, a.room)
    && a.subject == Requirements.Written(b.subject)
    && a.powerLevel == b.powerLevel
  }

  /** The binding has the action listed as a join, a kick, or correct already. */
  predicate ListsJoin(w: World, m: Member, b: PolicyBinding, a: RoomAction) {
    Describes(w.mx.spaces, b, a) && Requirements.Has(m.groups, m.roles, b.subject) && (a.room, m.matrixId) !in w.mx.members
  }

  predicate ListsKick(w: World, m: Member, b: PolicyBinding, a: RoomAction) {
    && Describes(w.mx.spaces, b, a) && !Requirements.Has(m.groups, m.roles, b.subject) && b.allowRemove
    && (a.room, m.matrixId) in w.mx.members
  }

  predicate ListsCorrect(w: World, m: Member, b: PolicyBinding, a: RoomAction) {
    Describes(w.mx.spaces, b, a) && Requirements.Has(m.groups, m.roles, b.subject) && (a.room, m.matrixId) in w.mx.members
  }

  /** What the bindings put on the three lists, seen from `w`; `full` says that nothing is left out. */
  ghost predicate Lists(w: World, m: Member, bs: seq<PolicyBinding>, a: RoomAction, p: ReconcilePreview, full: bool) {
    && (a in p.joins ==> exists b :: b in bs && ListsJoin(w, m, b, a))
    && (a in p.kicks ==> exists b :: b in bs && ListsKick(w, m, b, a))
    && (a in p.alreadyCorrect ==> exists b :: b in bs && ListsCorrect(w, m, b, a))
    && (full ==>
         && ((exists b :: b in bs && ListsJoin(w, m, b, a)) ==> a in p.joins)
         && ((exists b :: b in bs && ListsKick(w, m, b, a)) ==> a in p.kicks)
         && ((exists b :: b in bs && ListsCorrect(w, m, b, a)) ==> a in p.alreadyCorrect))
  }

  /** The action a binding asks for in a room. */
  function ActionFor(b: PolicyBinding, room: string): RoomAction {
    RoomAction(room, Requirements.Written(b.subject), b.powerLevel)
  }

  lemma {:induction false} PreviewRoomsExtends(s: Script, w: World, m: Member, b: PolicyBinding, rooms: seq<string>)
    ensures w.trace <= PreviewRooms(s, w, m, b, rooms).w.trace
    decreases |rooms|
  {
    if rooms == [] {
    } else {
      PreviewRoomsExtends(s, PreviewOne(s, w, m, b, rooms[0]).w, m, b, rooms[1..]);
    }
  }

  lemma PreviewBindingExtends(s: Script, w: World, m: Member, b: PolicyBinding)
    ensures var x, w' := Expand(s, w, b.target.roomId), PreviewBinding(s, w, m, b).w;
            w.trace <= x.w.trace <= w'.trace && w'.mx == w.mx
  {
    var x := Expand(s, w, b.target.roomId);
    PreviewRoomsExtends(s, x.w, m, b, x.targets);
    PreviewRoomsOnlyReads(s, x.w, m, b, x.targets);
  }

  lemma {:induction false} PreviewExtends(s: Script, w: World, m: Member, bs: seq<PolicyBinding>)
    ensures w.trace <= PreviewAll(s, w, m, bs).w.trace
    decreases |bs|
  {
    if bs == [] {
    } else {
      PreviewBindingExtends(s, w, m, bs[0]);
      PreviewExtends(s, PreviewBinding(s, w, m, bs[0]).w, m, bs[1..]);
    }
  }

  /** The visit to one room: if the members could be read, exactly what the binding asks for there. */
  lemma PreviewOneLists(s: Script, w: World, m: Member, b: PolicyBinding, room: string, a: RoomAction) returns (read: bool)
    ensures PreviewOne(s, w, m, b, room).w.trace == w.trace + [Event(RoomMembers(room), read)]
    ensures PreviewOne(s, w, m, b, room).w.mx == w.mx
    ensures var p, inside := PreviewOne(s, w, m, b, room).p, (room, m.matrixId) in w.mx.members;
            var has, listed := Requirements.Has(m.groups, m.roles, b.subject), read && a == ActionFor(b, room);
            && (a in p.joins <==> listed && has && !inside)
            && (a in p.kicks <==> listed && !has && b.allowRemove && inside)
            && (a in p.alreadyCorrect <==> listed && has && inside)
  {
    read := Succeeds(s, w, RoomMembers(room));
    var action := RoomAction(room, SubjectText(b.subject), b.powerLevel);
    assert a in [action] <==> a == action;
  }

  lemma {:induction false} PreviewRoomsLists(s: Script, w: World, m: Member, b: PolicyBinding, rooms: seq<string>,
                                             a: RoomAction, full: bool)
    requires full ==> Untroubled(w, PreviewRooms(s, w, m, b, rooms).w, w.mx.spaces, m.matrixId, a.room)
    ensures var p, inside := PreviewRooms(s, w, m, b, rooms).p, (a.room, m.matrixId) in w.mx.members;
            var has := Requirements.Has(m.groups, m.roles, b.subject);
            var listed := a.room in rooms && a == ActionFor(b, a.room);
            && (a in p.joins ==> listed && has && !inside)
            && (a in p.kicks ==> listed && !has && b.allowRemove && inside)
            && (a in p.alreadyCorrect ==> listed && has && inside)
            && (full && listed && has && !inside ==> a in p.joins)
            && (full && listed && !has && b.allowRemove && inside ==> a in p.kicks)
            && (full && listed && has && inside ==> a in p.alreadyCorrect)
    decreases |rooms|
  {
    if rooms == [] {
    } else {
      var o := PreviewOne(s, w, m, b, rooms[0]);
      var w' := PreviewRooms(s, w, m, b, rooms).w;
      var read := PreviewOneLists(s, w, m, b, rooms[0], a);
      PreviewRoomsExtends(s, o.w, m, b, rooms[1..]);
      assert w'.trace[|w.trace|] == Event(RoomMembers(rooms[0]), read);
      PreviewRoomsLists(s, o.w, m, b, rooms[1..], a, full);
      assert rooms == [rooms[0]] + rooms[1..];
    }
  }

  lemma PreviewBindingLists(s: Script, w: World, m: Member, b: PolicyBinding, a: RoomAction, full: bool)
    requires full ==> Untroubled(w, PreviewBinding(s, w, m, b).w, w.mx.spaces, m.matrixId, a.room)
    ensures var p := PreviewBinding(s, w, m, b).p;
            && (a in p.joins ==> ListsJoin(w, m, b, a))
            && (a in p.kicks ==> ListsKick(w, m, b, a))
            && (a in p.alreadyCorrect ==> ListsCorrect(w, m, b, a))
            && (full && ListsJoin(w, m, b, a) ==> a in p.joins)
            && (full && ListsKick(w, m, b, a) ==> a in p.kicks)
            && (full && ListsCorrect(w, m, b, a) ==> a in p.alreadyCorrect)
  {
    var x, w' := Expand(s, w, b.target.roomId), PreviewBinding(s, w, m, b).w;
    PreviewBindingExtends(s, w, m, b);
    if full {
      Parts(w, x.w, w', w.mx.spaces, m.matrixId, a.room);
      ExpansionReaches(s, w, b.target.roomId, m.matrixId, a.room);
    }
    PreviewRoomsLists(s, x.w, m, b, x.targets, a, full);
    PlusAssociates(PreviewRooms(s, x.w, m, b, x.targets).p, EMPTY, EMPTY);
  }

  /**
   Whatever fails, each listed action has the room, the subject and the power level of some binding in
   the list that asks for it, judged by where the user is now. All such actions for a room are listed
   unless a call that concerns this room failed.
   */
  lemma {:induction false} PreviewLists(s: Script, w: World, m: Member, bs: seq<PolicyBinding>, a: RoomAction, full: bool)
    requires full ==> Untroubled(w, PreviewAll(s, w, m, bs).w, w.mx.spaces, m.matrixId, a.room)
    ensures Lists(w, m, bs, a, PreviewAll(s, w, m, bs).p, full)
    decreases |bs|
  {
    if bs == [] {
    } else {
      var o := PreviewBinding(s, w, m, bs[0]);
      PreviewBindingExtends(s, w, m, bs[0]);
      PreviewExtends(s, o.w, m, bs[1..]);
      if full { Parts(w, o.w, PreviewAll(s, w, m, bs).w, w.mx.spaces, m.matrixId, a.room); }
      PreviewBindingLists(s, w, m, bs[0], a, full);
      PreviewLists(s, o.w, m, bs[1..], a, full);
      ListsThen(w, o.w, m, bs, a, o.p, PreviewAll(s, o.w, m, bs[1..]).p, full);
    }
  }

  lemma ListsThen(w: World, w1: World, m: Member, bs: seq<PolicyBinding>, a: RoomAction, p: ReconcilePreview,
                  q: ReconcilePreview, full: bool)
    requires bs != [] && w1.mx == w.mx && Lists(w1, m, bs[1..], a, q, full)
    requires a in p.joins ==> ListsJoin(w, m, bs[0], a)
    requires a in p.kicks ==> ListsKick(w, m, bs[0], a)
    requires a in p.alreadyCorrect ==> ListsCorrect(w, m, bs[0], a)
    requires full && ListsJoin(w, m, bs[0], a) ==> a in p.joins
    requires full && ListsKick(w, m, bs[0], a) ==> a in p.kicks
    requires full && ListsCorrect(w, m, bs[0], a) ==> a in p.alreadyCorrect
    ensures Lists(w, m, bs, a, p.Plus(q), full)
  {
    assert bs[0] in bs && forall b :: b in bs <==> b == bs[0] || b in bs[1..];
  }

  // ----- In which order -----

  /** The rooms of the list that the user stands in (`inside`), or stands outside of, as actions of the binding. */
  function Standing(w: World, m: Member, b: PolicyBinding, rooms: seq<string>, inside: bool): seq<RoomAction> {
    if rooms == [] then []
    else
      (if ((rooms[0], m.matrixId) in w.mx.members) == inside then [ActionFor(b, rooms[0])] else [])
      + Standing(w, m, b, rooms[1..], inside)
  }

  /** The place of the binding, and then its children. */
  function Places(spaces: Spaces, b: PolicyBinding): seq<string> {
    [b.target.roomId] + if b.target.roomId in spaces then spaces[b.target.roomId] else []
  }

  /** The whole preview, binding by binding and room by room. */
  function Listing(w: World, m: Member, bs: seq<PolicyBinding>): ReconcilePreview {
    if bs == [] then EMPTY
    else
      var b, rest := bs[0], Listing(w, m, bs[1..]);
      var has, rooms := Requirements.Has(m.groups, m.roles, b.subject), Places(w.mx.spaces, b);
      ReconcilePreview(
        (if has then Standing(w, m, b, rooms, false) else []) + rest.joins,
        (if !has && b.allowRemove then Standing(w, m, b, rooms, true) else []) + rest.kicks,
        (if has then Standing(w, m, b, rooms, true) else []) + rest.alreadyCorrect,
        [])
  }

  lemma {:induction false} PreviewRoomsInOrder(s: Script, w: World, w0: World, m: Member, b: PolicyBinding, rooms: seq<string>)
    requires AlwaysUp(s) && w.mx == w0.mx
    ensures var p, has := PreviewRooms(s, w, m, b, rooms).p, Requirements.Has(m.groups, m.roles, b.subject);
            && p.joins == (if has then Standing(w0, m, b, rooms, false) else [])
            && p.kicks == (if !has && b.allowRemove then Standing(w0, m, b, rooms, true) else [])
            && p.alreadyCorrect == (if has then Standing(w0, m, b, rooms, true) else [])
            && p.warnings == []
    decreases |rooms|
  {
    if rooms == [] {
    } else {
      PreviewRoomsInOrder(s, PreviewOne(s, w, m, b, rooms[0]).w, w0, m, b, rooms[1..]);
    }
  }

  lemma {:induction false} PreviewInOrder(s: Script, w: World, w0: World, m: Member, bs: seq<PolicyBinding>)
    requires AlwaysUp(s) && w.mx == w0.mx
    ensures PreviewAll(s, w, m, bs).p == Listing(w0, m, bs)
    decreases |bs|
  {
    if bs == [] {
    } else {
      var x, o := Expand(s, w, bs[0].target.roomId), PreviewBinding(s, w, m, bs[0]);
      PreviewRoomsInOrder(s, x.w, w0, m, bs[0], x.targets);
      PlusAssociates(PreviewRooms(s, x.w, m, bs[0], x.targets).p, EMPTY, EMPTY);
      PreviewBindingExtends(s, w, m, bs[0]);
      PreviewInOrder(s, o.w, w0, m, bs[1..]);
    }
  }

  /** When nothing fails, the three lists are in binding order and, within a binding, in the order space, then children. */
  lemma FailureFreePreview(w: World, m: Member, bs: seq<PolicyBinding>)
    ensures PreviewAll(UP, w, m, bs).p == Listing(w, m, bs)
  {
    PreviewInOrder(UP, w, w, m, bs);
  }

  // ----- When a preview is exact -----

  ghost predicate Names(actions: seq<RoomAction>, room: string) {
    exists a :: a in actions && a.room == room
  }

  lemma NamesOfSum(xs: seq<RoomAction>, ys: seq<RoomAction>, room: string)
    ensures Names(xs + ys, room) <==> Names(xs, room) || Names(ys, room)
  {
    assert forall a :: a in xs + ys <==> a in xs || a in ys;
  }

  lemma PlusOnNames(p: ReconcilePreview, q: ReconcilePreview, room: string)
    ensures Names(p.Plus(q).joins, room) <==> Names(p.joins, room) || Names(q.joins, room)
    ensures Names(p.Plus(q).kicks, room) <==> Names(p.kicks, room) || Names(q.kicks, room)
  {
    NamesOfSum(p.joins, q.joins, room);
    NamesOfSum(p.kicks, q.kicks, room);
  }

  lemma PreviewOneNames(s: Script, w: World, m: Member, b: PolicyBinding, target: string, room: string)
    ensures var p, inside := PreviewOne(s, w, m, b, target).p, (room, m.matrixId) in w.mx.members;
            && (Names(p.joins, room) ==> room == target && VerdictOf(b, m).Add? && !inside)
            && (Names(p.kicks, room) ==> room == target && VerdictOf(b, m).Remove? && inside)
            && (AlwaysUp(s) && room == target && VerdictOf(b, m).Add? && !inside ==> Names(p.joins, room))
            && (AlwaysUp(s) && room == target && VerdictOf(b, m).Remove? && inside ==> Names(p.kicks, room))
  {
    var p := PreviewOne(s, w, m, b, target).p;
    var action := RoomAction(target, SubjectText(b.subject), b.powerLevel);
    assert action in [action];
    assert forall a :: a in p.joins || a in p.kicks ==> a == action;
    if p.joins == [action] { assert action in p.joins; }
    if p.kicks == [action] { assert action in p.kicks; }
  }

  lemma {:induction false} PreviewRoomsNames(s: Script, w: World, m: Member, b: PolicyBinding, rooms: seq<string>,
                                             room: string)
    ensures var p, inside := PreviewRooms(s, w, m, b, rooms).p, (room, m.matrixId) in w.mx.members;
            && (Names(p.joins, room) ==> room in rooms && VerdictOf(b, m).Add? && !inside)
            && (Names(p.kicks, room) ==> room in rooms && VerdictOf(b, m).Remove? && inside)
            && (AlwaysUp(s) && room in rooms && VerdictOf(b, m).Add? && !inside ==> Names(p.joins, room))
            && (AlwaysUp(s) && room in rooms && VerdictOf(b, m).Remove? && inside ==> Names(p.kicks, room))
    decreases |rooms|
  {
    if rooms == [] {
    } else {
      var o := PreviewOne(s, w, m, b, rooms[0]);
      PreviewOneNames(s, w, m, b, rooms[0], room);
      PreviewRoomsNames(s, o.w, m, b, rooms[1..], room);
      PlusOnNames(o.p, PreviewRooms(s, o.w, m, b, rooms[1..]).p, room);
      assert rooms == [rooms[0]] + rooms[1..];
    }
  }

  /** The binding wants the user moved away from `inside`. */
  predicate WantsMove(spaces: Spaces, m: Member, b: PolicyBinding, room: string, inside: bool) {
    Decides(spaces, m, b, room) && VerdictOf(b, m).Add? != inside
  }

  /** What is listed for one binding is what is listed for its targets; expanding only adds warnings. */
  lemma PreviewBindingIsItsRooms(s: Script, w: World, m: Member, b: PolicyBinding, x: Expansion)
    requires x == Expand(s, w, b.target.roomId)
    ensures var p, q := PreviewBinding(s, w, m, b).p, PreviewRooms(s, x.w, m, b, x.targets).p;
            p.joins == q.joins && p.kicks == q.kicks
    ensures x.w.mx == w.mx == PreviewBinding(s, w, m, b).w.mx
  {
    PlusAssociates(PreviewRooms(s, x.w, m, b, x.targets).p, EMPTY, EMPTY);
    PreviewRoomsOnlyReads(s, x.w, m, b, x.targets);
  }

  lemma PreviewBindingNames(s: Script, w: World, m: Member, b: PolicyBinding, room: string)
    ensures var o, inside := PreviewBinding(s, w, m, b), (room, m.matrixId) in w.mx.members;
            var wants := WantsMove(w.mx.spaces, m, b, room, inside);
            && (Names(o.p.joins, room) ==> wants && !inside)
            && (Names(o.p.kicks, room) ==> wants && inside)
            && (AlwaysUp(s) && wants ==> if inside then Names(o.p.kicks, room) else Names(o.p.joins, room))
            && o.w.mx == w.mx
  {
    var x := Expand(s, w, b.target.roomId);
    PreviewBindingIsItsRooms(s, w, m, b, x);
    PreviewRoomsNames(s, x.w, m, b, x.targets, room);
  }

  /**
   Whatever fails, a preview lists a room only if some binding wants the user moved, judged by where
   the user is now; and it lists all of those when nothing fails.
   */
  lemma {:induction false} PreviewNames(s: Script, w: World, m: Member, bs: seq<PolicyBinding>, room: string)
    ensures var p, inside := PreviewAll(s, w, m, bs).p, (room, m.matrixId) in w.mx.members;
            var wants := !AllWant(w.mx.spaces, m, bs, room, inside);
            && (Names(p.joins, room) ==> wants && !inside)
            && (Names(p.kicks, room) ==> wants && inside)
            && (AlwaysUp(s) && wants ==> if inside then Names(p.kicks, room) else Names(p.joins, room))
    decreases |bs|
  {
    if bs == [] {
    } else {
      var o := PreviewBinding(s, w, m, bs[0]);
      PreviewBindingNames(s, w, m, bs[0], room);
      PreviewNames(s, o.w, m, bs[1..], room);
      PlusOnNames(o.p, PreviewAll(s, o.w, m, bs[1..]).p, room);
      assert bs == [bs[0]] + bs[1..];
    }
  }

  /**
   For any room: the preview announces exactly the joins and kicks that a failure-free run makes
   there, unless one binding moves the user and a later one moves the user back.
   */
  lemma PreviewIsExactIff(w: World, m: Member, bs: seq<PolicyBinding>, room: string)
    ensures var p := PreviewAll(UP, w, m, bs).p;
            var v, v' := View(w, m.matrixId, room), View(After(UP, w, m, bs), m.matrixId, room);
            (Names(p.joins, room) <==> v'.joins > v.joins) && (Names(p.kicks, room) <==> v'.kicks > v.kicks)
            <==> !FlipsBack(w.mx.spaces, m, bs, room, v.member)
  {
    var v := View(w, m.matrixId, room);
    PreviewNames(UP, w, m, bs, room);
    ReconcileRefinesDecisions(UP, w, m, bs, room);
    MovedAway(w.mx.spaces, m, bs, room, v);
    MovedBack(w.mx.spaces, m, bs, room, v);
  }

  /**
   It can be wrong: a group binding throws the user out of a room, a role binding lets the user back
   in. The preview announces a kick and no join; the run kicks and joins.
   */
  lemma PreviewMayMislead(w: World)
    requires w.mx == Matrix({("!r", "@u:d")}, map[], map[])
    ensures var m := Member("kc", "@u:d", [], ["staff"]);
            var bs := [PolicyBinding("1", Group("team"), Room("!r"), None, true, "", ""),
                       PolicyBinding("2", Role("staff"), Room("!r"), None, false, "", "")];
            var p, v, v' := PreviewAll(UP, w, m, bs).p, View(w, "@u:d", "!r"), View(After(UP, w, m, bs), "@u:d", "!r");
            Names(p.kicks, "!r") && !Names(p.joins, "!r") && v'.joins == v.joins + 1
  {
    var m := Member("kc", "@u:d", [], ["staff"]);
    var b1 := PolicyBinding("1", Group("team"), Room("!r"), None, true, "", "");
    var b2 := PolicyBinding("2", Role("staff"), Room("!r"), None, false, "", "");
    OnlyKickIsAnnounced(w, m, b1, b2, "!r");
  }

  lemma OnlyKickIsAnnounced(w: World, m: Member, b1: PolicyBinding, b2: PolicyBinding, room: string)
    requires b1.target.roomId == room && VerdictOf(b1, m).Remove?
    requires b2.target.roomId == room && VerdictOf(b2, m).Add? && b2.powerLevel.None?
    requires (room, m.matrixId) in w.mx.members
    ensures var p, bs := PreviewAll(UP, w, m, [b1, b2]).p, [b1, b2];
            && Names(p.kicks, room) && !Names(p.joins, room)
            && View(After(UP, w, m, bs), m.matrixId, room).joins == View(w, m.matrixId, room).joins + 1
  {
    assert b1 in [b1, b2] && Decides(w.mx.spaces, m, b1, room);
    PreviewNames(UP, w, m, [b1, b2], room);
    OutAndIn(w, m, b1, b2, room);
  }

  /** In particular a preview is exact on every conflict-free room. */
  lemma {:induction false} ConflictFreeNeverFlipsBack(spaces: Spaces, m: Member, bs: seq<PolicyBinding>, room: string, inside: bool)
    requires ConflictFree(spaces, m, bs, room)
    ensures !FlipsBack(spaces, m, bs, room, inside)
    decreases |bs|
  {
    if bs == [] {
    } else {
      assert forall b :: b in bs[1..] ==> b in bs;
      assert bs[0] in bs;
      ConflictFreeNeverFlipsBack(spaces, m, bs[1..], room, inside);
    }
  }
}
