/**
 The three upstream systems and the audit table, as one abstract state.

 Every call a workflow makes is one `Attempt`. Whether it succeeds is decided by a fault
 script that may be any function of the call number. A failed call changes nothing but the
 trace; a successful one has the effect given by `Effect`.
 */
module Upstream {

  // ----- State -----

  datatype SessionKind = Compat | OAuth2

  datatype Session = Session(id: string, kind: SessionKind)

  type Spaces = map<string, seq<string>>

  /** `members` holds (room, user) pairs; `spaces` lists the children of each space. */
  datatype Matrix = Matrix(
    members: set<(string, string)>,
    power: map<(string, string), int>,
    spaces: Spaces)

  /** `users` maps a Keycloak id to its username. */
  datatype Keycloak = Keycloak(users: map<string, string>, disabled: set<string>, loggedOut: set<string>)

  /** `accounts` maps a username to the MAS id; `sessions` maps a MAS id to everything it ever opened. */
  datatype Mas = Mas(
    accounts: map<string, string>,
    deactivated: set<string>,
    sessions: map<string, seq<Session>>,
    finished: set<Session>)

  /** The metadata written with an audit entry; one shape for each kind of entry. */
  datatype Metadata =
    | RoomDetail(room: string, subject: string)
    | SessionDetail(session: Session)
    | LogoutDetail(keycloakId: string)
    | IdentityDetail(keycloakId: string, username: string)
    | AuthDetail(authUserId: string, username: string)
    | MasDetail(keycloakId: string, masUserId: string, username: string)
    | DeletionDetail(keycloakId: string, username: string, masDeactivated: bool)

  datatype AuditEntry = AuditEntry(
    keycloakId: string, matrixId: string, action: string, success: bool, about: Metadata)

  datatype Call =
    | SpaceChildren(room: string)
    | RoomMembers(room: string)
    | ForceJoin(user: string, room: string)
    | KickUser(user: string, room: string)
    | SetPowerLevel(room: string, user: string, level: int)
    | GetUser(id: string)
    | LogoutUser(id: string)
    | DisableUser(id: string)
    | DeleteUser(id: string)
    | CountUsers
    | ReadBindings
    | SearchUsers(first: nat)
    | GetGroups(id: string)
    | GetRoles(id: string)
    | LookupAccount(username: string)
    | ListSessions(account: string)
    | FetchSessions(account: string, kind: SessionKind)
    | FinishSession(session: Session)
    | DeactivateAccount(account: string)
    | WriteAudit(entry: AuditEntry)

  datatype Event = Event(call: Call, ok: bool)

  datatype World = World(kc: Keycloak, mas: Mas, mx: Matrix, log: seq<AuditEntry>, trace: seq<Event>)

  // ----- Calls -----

  /** `script(n)` says whether call number n goes through. */
  type Script = nat -> bool

  ghost predicate AlwaysUp(s: Script) {
    forall n :: s(n)
  }

  /** Keycloak answers 404 for an unknown user; every other call is refused by the script only. */
  predicate Possible(w: World, call: Call) {
    match call
    case GetUser(id) => id in w.kc.users
    case LogoutUser(id) => id in w.kc.users
    case DisableUser(id) => id in w.kc.users
    case DeleteUser(id) => id in w.kc.users
    case _ => true
  }

  predicate Succeeds(s: Script, w: World, call: Call) {
    s(|w.trace|) && Possible(w, call)
  }

  function Effect(w: World, call: Call): World {
    match call
    case ForceJoin(u, r) => w.(mx := w.mx.(members := w.mx.members + {(r, u)}))
    case KickUser(u, r) => w.(mx := w.mx.(members := w.mx.members - {(r, u)}))
    case SetPowerLevel(r, u, level) => w.(mx := w.mx.(power := w.mx.power[(r, u) := level]))
    case LogoutUser(id) => w.(kc := w.kc.(loggedOut := w.kc.loggedOut + {id}))
    case DisableUser(id) => w.(kc := w.kc.(disabled := w.kc.disabled + {id}))
    case DeleteUser(id) => w.(kc := w.kc.(users := w.kc.users - {id}))
    case FinishSession(x) => w.(mas := w.mas.(finished := w.mas.finished + {x}))
    case DeactivateAccount(a) => w.(mas := w.mas.(deactivated := w.mas.deactivated + {a}))
    case WriteAudit(e) => w.(log := w.log + [e])
    case _ => w
  }

  ghost predicate SameSystems(w: World, w': World) {
    w.kc == w'.kc && w.mas == w'.mas && w.mx == w'.mx
  }

  function Attempt(s: Script, w: World, call: Call): World {
    var ok := Succeeds(s, w, call);
    (if ok then Effect(w, call) else w).(trace := w.trace + [Event(call, ok)])
  }

  /** A mutation followed by the audit entry that reports its true result. */
  datatype Logged = Logged(w: World, ok: bool, logged: bool)

  function ActAndLog(s: Script, w: World, call: Call, draft: AuditEntry): Logged {
    var ok := Succeeds(s, w, call);
    var w1 := Attempt(s, w, call);
    var write := WriteAudit(draft.(success := ok));
    Logged(Attempt(s, w1, write), ok, Succeeds(s, w1, write))
  }

  function SpaceChildrenOf(spaces: Spaces, room: string): seq<string> {
    if room in spaces then spaces[room] else []
  }

  /** The services a workflow is handed: the state behind them changes with every call. */
  class Services {
    var w: World
    const script: Script

    constructor (w: World, script: Script)
      ensures this.w == w && this.script == script
    {
      this.w := w;
      this.script := script;
    }

    method Perform(call: Call) returns (ok: bool)
      modifies this
      ensures ok == Succeeds(script, old(w), call)
      ensures w == Attempt(script, old(w), call)
    {
      ok := Succeeds(script, w, call);
      w := Attempt(script, w, call);
    }

    method PerformAndLog(call: Call, draft: AuditEntry) returns (ok: bool, logged: bool)
      modifies this
      ensures Logged(w, ok, logged) == ActAndLog(script, old(w), call, draft)
    {
      ok := Perform(call);
      logged := Perform(WriteAudit(draft.(success := ok)));
    }
  }

  // ----- Reading a trace -----

  /** The mutations that are reported to the audit table. Setting a power level is not (see `Changes`). */
  predicate Audited(call: Call) {
    call.ForceJoin? || call.KickUser? || call.LogoutUser? || call.DisableUser? || call.DeleteUser? ||
    call.FinishSession? || call.DeactivateAccount?
  }

  /** The calls a visit to rooms is made of. */
  predicate RoomCall(call: Call) {
    call.SpaceChildren? || call.RoomMembers? || call.ForceJoin? || call.KickUser? || call.SetPowerLevel? || call.WriteAudit?
  }

  /** What an audit entry claims was attempted. An entry whose action does not fit its metadata claims no mutation. */
  function ClaimedCall(e: AuditEntry): Call {
    match e.about
    case RoomDetail(r, _) =>
      if e.action == "join_room_on_reconcile" then ForceJoin(e.matrixId, r)
      else if e.action == "kick_room_on_reconcile" || e.action == "kick_room_on_offboard" then KickUser(e.matrixId, r)
      else CountUsers
    case SessionDetail(x) => if e.action == "revoke_auth_session_on_offboard" then FinishSession(x) else CountUsers
    case LogoutDetail(id) =>
      if e.action == "force_identity_logout_on_offboard" && id == e.keycloakId then LogoutUser(id) else CountUsers
    case IdentityDetail(id, _) =>
      if e.action == "disable_identity_account_on_offboard" && id == e.keycloakId then DisableUser(id) else CountUsers
    case AuthDetail(a, _) =>
      if e.action == "deactivate_auth_account_on_offboard" then DeactivateAccount(a) else CountUsers
    case MasDetail(id, a, _) =>
      if e.action == "deactivate_mas_user" && id == e.keycloakId then DeactivateAccount(a) else CountUsers
    case DeletionDetail(id, _, _) =>
      if e.action == "delete_keycloak_user" && id == e.keycloakId then DeleteUser(id) else CountUsers
  }

  function Claim(e: AuditEntry): Event {
    Event(ClaimedCall(e), e.success)
  }

  /** The audited mutations of a trace, in order, with their results. */
  function Mutations(t: seq<Event>): seq<Event> {
    if t == [] then [] else
      var e := t[|t| - 1];
      Mutations(t[..|t| - 1]) + if Audited(e.call) then [e] else []
  }

  /** Every attempt to change one of the three systems, in order: the audited mutations and the power levels. */
  function Changes(t: seq<Event>): seq<Event> {
    if t == [] then [] else
      var e := t[|t| - 1];
      Changes(t[..|t| - 1]) + if Audited(e.call) || e.call.SetPowerLevel? then [e] else []
  }

  /** How often a power level was attempted. */
  function LevelCalls(t: seq<Event>): nat {
    if t == [] then 0 else LevelCalls(t[..|t| - 1]) + if t[|t| - 1].call.SetPowerLevel? then 1 else 0
  }

  /** How often the user's power level in a room was set. */
  function LevelsSet(t: seq<Event>, user: string, room: string): nat {
    if t == [] then 0 else
      var e := t[|t| - 1];
      LevelsSet(t[..|t| - 1], user, room)
      + if e.ok && e.call.SetPowerLevel? && e.call.user == user && e.call.room == room then 1 else 0
  }

  /** The events claimed by the audit writes of a trace, in order, whether or not the write went through. */
  function Claims(t: seq<Event>): seq<Event> {
    if t == [] then [] else
      var e := t[|t| - 1];
      Claims(t[..|t| - 1]) + if e.call.WriteAudit? then [Claim(e.call.entry)] else []
  }

  /** The entries that reached the audit table. */
  function Written(t: seq<Event>): seq<AuditEntry> {
    if t == [] then [] else
      var e := t[|t| - 1];
      Written(t[..|t| - 1]) + if e.call.WriteAudit? && e.ok then [e.call.entry] else []
  }

  /** The rooms whose members were read, in order, whether or not the read went through. */
  function Reads(t: seq<Event>): seq<string> {
    if t == [] then [] else
      var e := t[|t| - 1];
      Reads(t[..|t| - 1]) + if e.call.RoomMembers? then [e.call.room] else []
  }

  /** Every join and every kick comes straight after a successful read of that room's members. */
  predicate ReadThenAct(t: seq<Event>) {
    t == [] ||
    var e := t[|t| - 1];
    && ReadThenAct(t[..|t| - 1])
    && (e.call.ForceJoin? || e.call.KickUser? ==> |t| > 1 && t[|t| - 2] == Event(RoomMembers(e.call.room), true))
  }

  /** The rooms whose children were asked for, in order, whether or not the call went through. */
  function Expansions(t: seq<Event>): seq<string> {
    if t == [] then [] else
      var e := t[|t| - 1];
      Expansions(t[..|t| - 1]) + if e.call.SpaceChildren? then [e.call.room] else []
  }

  /** The events that are not part of a visit to rooms. */
  function Others(t: seq<Event>): seq<Event> {
    if t == [] then [] else
      var e := t[|t| - 1];
      Others(t[..|t| - 1]) + if RoomCall(e.call) then [] else [e]
  }

  function Failures(t: seq<Event>): nat {
    if t == [] then 0 else Failures(t[..|t| - 1]) + if t[|t| - 1].ok then 0 else 1
  }

  function AuditFailures(t: seq<Event>): nat {
    if t == [] then 0 else
      var e := t[|t| - 1];
      AuditFailures(t[..|t| - 1]) + if e.call.WriteAudit? && !e.ok then 1 else 0
  }

  /** How often a call went through. */
  function Times(w: World, call: Call): nat {
    multiset(w.trace)[Event(call, true)]
  }

  /** From `w` to `w'` only such events were added to the trace. */
  ghost predicate AllSince(w: World, w': World, p: Event -> bool) {
    w.trace <= w'.trace && forall k | |w.trace| <= k < |w'.trace| :: p(w'.trace[k])
  }

  lemma AllSinceThen(w: World, w1: World, w2: World, p: Event -> bool)
    requires AllSince(w, w1, p) && AllSince(w1, w2, p)
    ensures AllSince(w, w2, p)
  {
  }

  lemma AttemptAddsOne(s: Script, w: World, call: Call)
    ensures Attempt(s, w, call).trace == w.trace + [Event(call, Succeeds(s, w, call))]
  {
  }

  lemma ActAndLogAddsTwo(s: Script, w: World, call: Call, draft: AuditEntry)
    ensures var g := ActAndLog(s, w, call, draft);
            g.w.trace == w.trace + [Event(call, g.ok)] + [Event(WriteAudit(draft.(success := g.ok)), g.logged)]
  {
  }

  /** Every audited mutation is claimed by an audit write, in order and with its true result. */
  ghost predicate InSync(w: World) {
    Mutations(w.trace) == Claims(w.trace) && w.log == Written(w.trace)
  }

  lemma TraceGrows(t: seq<Event>, e: Event)
    ensures Mutations(t + [e]) == Mutations(t) + if Audited(e.call) then [e] else []
    ensures Claims(t + [e]) == Claims(t) + if e.call.WriteAudit? then [Claim(e.call.entry)] else []
    ensures Written(t + [e]) == Written(t) + if e.call.WriteAudit? && e.ok then [e.call.entry] else []
    ensures Reads(t + [e]) == Reads(t) + if e.call.RoomMembers? then [e.call.room] else []
    ensures Others(t + [e]) == Others(t) + if RoomCall(e.call) then [] else [e]
    ensures Failures(t + [e]) == Failures(t) + if e.ok then 0 else 1
    ensures AuditFailures(t + [e]) == AuditFailures(t) + if e.call.WriteAudit? && !e.ok then 1 else 0
  {
    assert (t + [e])[..|t|] == t;
  }

  lemma ExpansionsGrow(s: Script, w: World, call: Call)
    ensures Expansions(Attempt(s, w, call).trace) == Expansions(w.trace) + if call.SpaceChildren? then [call.room] else []
  {
    assert Attempt(s, w, call).trace[..|w.trace|] == w.trace;
  }

  lemma ClaimOfDraft(draft: AuditEntry, ok: bool)
    ensures Claim(draft.(success := ok)) == Event(Claim(draft).call, ok)
  {
  }

  lemma LoggedPair(t: seq<Event>, a: Event, b: Event)
    requires Audited(a.call) && b.call.WriteAudit? && Claim(b.call.entry) == a
    ensures Mutations(t + [a] + [b]) == Mutations(t) + [a]
    ensures Claims(t + [a] + [b]) == Claims(t) + [a]
    ensures Written(t + [a] + [b]) == Written(t) + if b.ok then [b.call.entry] else []
  {
    TraceGrows(t, a);
    TraceGrows(t + [a], b);
  }

  lemma ActAndLogKeepsSync(s: Script, w: World, call: Call, draft: AuditEntry)
    requires InSync(w) && Audited(call) && Claim(draft).call == call
    ensures InSync(ActAndLog(s, w, call, draft).w)
  {
    var ok := Succeeds(s, w, call);
    var w1 := Attempt(s, w, call);
    var write := WriteAudit(draft.(success := ok));
    ClaimOfDraft(draft, ok);
    LoggedPair(w.trace, Event(call, ok), Event(write, Succeeds(s, w1, write)));
  }

  lemma FailuresOfAttempt(s: Script, w: World, call: Call)
    ensures Failures(Attempt(s, w, call).trace) == Failures(w.trace) + if Succeeds(s, w, call) then 0 else 1
  {
    TraceGrows(w.trace, Event(call, Succeeds(s, w, call)));
  }

  lemma FailuresOfActAndLog(s: Script, w: World, call: Call, draft: AuditEntry)
    ensures var g := ActAndLog(s, w, call, draft);
            Failures(g.w.trace) == Failures(w.trace) + (if g.ok then 0 else 1) + (if g.logged then 0 else 1)
  {
    FailuresOfAttempt(s, w, call);
    FailuresOfAttempt(s, Attempt(s, w, call), WriteAudit(draft.(success := Succeeds(s, w, call))));
  }

  /** With no failed audit write, the table reads back as exactly the mutations that were attempted. */
  lemma {:induction false} LogIsTheMutations(t: seq<Event>)
    requires AuditFailures(t) == 0
    ensures seq(|Written(t)|, i requires 0 <= i < |Written(t)| => Claim(Written(t)[i])) == Claims(t)
  {
    if t == [] {
    } else {
      LogIsTheMutations(t[..|t| - 1]);
    }
  }
}
