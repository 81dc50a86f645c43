/** Which steps a deletion takes, whatever fails, and what its result says about them. */
module DeleteSteps {
  import opened Wrappers
  import opened Policy
  import opened Upstream
  import opened Rooms
  import opened Lifecycle
  import opened Delete
  import opened Steps

  /**
   The account is looked up and, if there is one, deactivated. Unless that goes wrong or its entry is
   lost, the record comes last.
   */
  ghost predicate KnownUserSteps(steps: seq<Event>, accounts: map<string, string>, id: string, username: string, lost: bool) {
    && 1 <= |steps| && steps[0].call == LookupAccount(username)
    && (if steps[0].ok && username in accounts then
          && 2 <= |steps| <= 3
          && steps[1].call == DeactivateAccount(accounts[username])
          && (|steps| == 3 <==> steps[1].ok && !lost)
        else |steps| == 2)
    && (|steps| == 3 || !(steps[0].ok && username in accounts) ==> steps[|steps| - 1].call == DeleteUser(id))
  }

  ghost predicate DeletionSteps(steps: seq<Event>, w: World, id: string, lost: bool) {
    && 1 <= |steps| && steps[0].call == GetUser(id)
    && (if steps[0].ok then id in w.kc.users && KnownUserSteps(steps[1..], w.mas.accounts, id, w.kc.users[id], lost)
        else |steps| == 1)
  }

  /** The record was to be deleted, and it was not. */
  predicate RecordKept(steps: seq<Event>) {
    steps != [] && steps[|steps| - 1].call.DeleteUser? && !steps[|steps| - 1].ok
  }

  predicate Deactivated(steps: seq<Event>) {
    exists e :: e in steps && e.call.DeactivateAccount?
  }

  /** A step that ends the run with an error: any failure but that of the lookup, or of the record after a deactivation. */
  predicate EndsInError(steps: seq<Event>) {
    || (exists e :: e in steps && !e.ok && (e.call.GetUser? || e.call.DeactivateAccount?))
    || (RecordKept(steps) && !Deactivated(steps))
  }

  /** What a run shows: its steps, and what its result says about them. */
  ghost predicate Shows(w: World, o: DeleteRun, steps: seq<Event>, lost: bool) {
    && StepsOf(o.w.trace) == StepsOf(w.trace) + steps
    && (lost ==> VitalLosses(o.w.trace) > VitalLosses(w.trace))
    && (o.result.Err? <==> VitalLosses(o.w.trace) > VitalLosses(w.trace) || EndsInError(steps))
    && (o.result.Ok? ==> (o.result.value.PartialFailure? <==> RecordKept(steps)))
  }

  lemma RecordSteps(s: Script, w: World, m: Member, username: string, masDone: bool, warnings: seq<Warning>)
    returns (e: Event)
    ensures e.call == DeleteUser(m.keycloakId)
    ensures var o := RemoveRecord(s, w, m, username, masDone, warnings);
            && StepsOf(o.w.trace) == StepsOf(w.trace) + [e]
            && (o.result.Err? <==> VitalLosses(o.w.trace) > VitalLosses(w.trace) || (!e.ok && !masDone))
            && (o.result.Ok? ==> (o.result.value.PartialFailure? <==> !e.ok))
            && VitalLosses(o.w.trace) >= VitalLosses(w.trace)
  {
    var call, draft := DeleteUser(m.keycloakId), DeletionDraft(m, username, masDone);
    StepOfActAndLog(s, w, call, draft, true);
    e := Event(call, ActAndLog(s, w, call, draft).ok);
  }

  lemma MasSteps(s: Script, w: World, m: Member, username: string) returns (h: MasHalf, steps: seq<Event>, lost: bool)
    ensures h == CloseMas(s, w, m, username)
    ensures AccountSteps(steps, w.mas.accounts, username)
    ensures StepsOf(h.w.trace) == StepsOf(w.trace) + steps
    ensures VitalLosses(h.w.trace) == VitalLosses(w.trace) + if lost then 1 else 0
    ensures h.result.Ok? <==> !lost && (|steps| == 2 ==> steps[1].ok)
    ensures h.result.Ok? ==> (h.result.value.0 <==> |steps| == 2)
    ensures lost ==> |steps| == 2
  {
    var look := LookupAccount(username);
    var w1 := Attempt(s, w, look);
    h := CloseMas(s, w, m, username);
    steps, lost := [Event(look, Succeeds(s, w, look))], false;
    StepOfAttempt(s, w, look);
    if steps[0].ok && username in w1.mas.accounts {
      var account := w1.mas.accounts[username];
      var draft := MasDraft(m, account, username);
      var g := ActAndLog(s, w1, DeactivateAccount(account), draft);
      StepOfActAndLog(s, w1, DeactivateAccount(account), draft, true);
      AppendTwice(StepsOf(w.trace), steps, [Event(DeactivateAccount(account), g.ok)], StepsOf(w1.trace), StepsOf(g.w.trace));
      steps, lost := steps + [Event(DeactivateAccount(account), g.ok)], !g.logged;
    }
  }

  /** The record step, after the account step went well. */
  lemma RecordFollows(s: Script, w: World, h: MasHalf, m: Member, username: string, front: seq<Event>) returns (e: Event)
    requires h == CloseMas(s, w, m, username) && h.result.Ok?
    requires StepsOf(h.w.trace) == StepsOf(w.trace) + front && VitalLosses(h.w.trace) == VitalLosses(w.trace)
    requires 1 <= |front| <= 2 && front[0].call.LookupAccount? && (|front| == 2 ==> front[1].call.DeactivateAccount? && front[1].ok)
    requires h.result.value.0 <==> |front| == 2
    ensures e.call == DeleteUser(m.keycloakId)
    ensures Shows(w, DeleteKnown(s, w, m, username), front + [e], false)
  {
    e := RecordSteps(s, h.w, m, username, h.result.value.0, h.result.value.1);
    var o := RemoveRecord(s, h.w, m, username, h.result.value.0, h.result.value.1);
    AppendTwice(StepsOf(w.trace), front, [e], StepsOf(h.w.trace), StepsOf(o.w.trace));
    LastStepDecides(front + [e], front, e);
  }

  /** The run that ends with the account step. */
  lemma NothingFollows(s: Script, w: World, h: MasHalf, m: Member, username: string, front: seq<Event>, lost: bool)
    requires h == CloseMas(s, w, m, username) && h.result.Err?
    requires StepsOf(h.w.trace) == StepsOf(w.trace) + front
    requires VitalLosses(h.w.trace) == VitalLosses(w.trace) + if lost then 1 else 0
    requires |front| == 2 && front[1].call.DeactivateAccount? && (lost || !front[1].ok)
    ensures Shows(w, DeleteKnown(s, w, m, username), front, lost)
  {
    assert front[1] in front;
  }

  /** The steps up to the account, as `KnownUserSteps` has them. */
  ghost predicate AccountSteps(front: seq<Event>, accounts: map<string, string>, username: string) {
    && 1 <= |front| <= 2 && front[0].call == LookupAccount(username)
    && (|front| == 2 <==> front[0].ok && username in accounts)
    && (|front| == 2 ==> front[1].call == DeactivateAccount(accounts[username]))
  }

  lemma WithRecord(front: seq<Event>, e: Event, accounts: map<string, string>, id: string, username: string)
    requires AccountSteps(front, accounts, username) && e.call == DeleteUser(id) && (|front| == 2 ==> front[1].ok)
    ensures KnownUserSteps(front + [e], accounts, id, username, false)
  {
  }

  lemma WithoutRecord(front: seq<Event>, accounts: map<string, string>, id: string, username: string, lost: bool)
    requires AccountSteps(front, accounts, username) && |front| == 2 && (lost || !front[1].ok)
    ensures KnownUserSteps(front, accounts, id, username, lost)
  {
  }

  lemma KnownUserTakesSteps(s: Script, w: World, m: Member, username: string) returns (steps: seq<Event>, lost: bool)
    ensures KnownUserSteps(steps, w.mas.accounts, m.keycloakId, username, lost)
    ensures Shows(w, DeleteKnown(s, w, m, username), steps, lost)
  {
    var h, front, lost' := MasSteps(s, w, m, username);
    if h.result.Ok? {
      var e := RecordFollows(s, w, h, m, username, front);
      WithRecord(front, e, w.mas.accounts, m.keycloakId, username);
      return front + [e], false;
    } else {
      NothingFollows(s, w, h, m, username, front, lost');
      WithoutRecord(front, w.mas.accounts, m.keycloakId, username, lost');
      return front, lost';
    }
  }

  lemma LastStepDecides(steps: seq<Event>, front: seq<Event>, e: Event)
    requires steps == front + [e] && e.call.DeleteUser? && 1 <= |front| <= 2
    requires front[0].call.LookupAccount? && (|front| == 2 ==> front[1].call.DeactivateAccount? && front[1].ok)
    ensures RecordKept(steps) <==> !e.ok
    ensures Deactivated(steps) <==> |front| == 2
    ensures EndsInError(steps) <==> !e.ok && |front| == 1
  {
    assert steps[|steps| - 1] == e;
    if |front| == 2 { assert steps[1] == front[1] && steps[1] in steps; }
    assert forall x :: x in steps <==> x == e || x in front;
  }

  lemma ErrorsAfter(first: Event, rest: seq<Event>)
    requires first.call.GetUser? && first.ok && rest != []
    ensures RecordKept([first] + rest) <==> RecordKept(rest)
    ensures EndsInError([first] + rest) <==> EndsInError(rest)
  {
    assert forall e :: e in [first] + rest <==> e == first || e in rest;
    assert ([first] + rest)[|[first] + rest| - 1] == rest[|rest| - 1];
  }

  /**
   Whatever fails, a deletion takes exactly these steps; `lost` says that the entry about the
   deactivation was lost. It ends in a partial failure exactly if the record stayed and the run did not
   end in an error, and in an error exactly if the user could not be fetched, the account not
   deactivated, the record not deleted without a deactivation before, or one of the two entries was lost.
   */
  lemma DeleteTakesItsSteps(s: Script, w: World, id: string, domain: string) returns (steps: seq<Event>, lost: bool)
    ensures DeletionSteps(steps, w, id, lost)
    ensures Shows(w, DeleteAccount(s, w, id, domain), steps, lost)
  {
    var first := Event(GetUser(id), Succeeds(s, w, GetUser(id)));
    var w0 := Attempt(s, w, GetUser(id));
    StepOfAttempt(s, w, GetUser(id));
    if first.ok {
      var m := MemberOf(id, w.kc.users[id], domain);
      var rest;
      rest, lost := KnownUserTakesSteps(s, w0, m, w.kc.users[id]);
      steps := [first] + rest;
      ErrorsAfter(first, rest);
      AppendTwice(StepsOf(w.trace), [first], rest, StepsOf(w0.trace), StepsOf(DeleteKnown(s, w0, m, w.kc.users[id]).w.trace));
      assert steps[1..] == rest;
    } else {
      steps, lost := [first], false;
      assert first in steps;
    }
  }

  // ----- What the entries say -----

  ghost predicate DeactivationIn(t: seq<Event>, from: nat, to: nat) {
    exists j :: from <= j < to && j < |t| && t[j].call.DeactivateAccount?
  }

  /** The two entries of a deletion. */
  ghost predicate EntriesFor(w: World, w': World, id: string, username: string, domain: string) {
    w.trace <= w'.trace &&
    forall k | |w.trace| <= k < |w'.trace| && w'.trace[k].call.WriteAudit? ::
      var e := w'.trace[k].call.entry;
      && e.keycloakId == id && e.matrixId == "@" + username + ":" + domain
      && (e.about.MasDetail? || e.about.DeletionDetail?) && e.about.keycloakId == id && e.about.username == username
      && (e.about.DeletionDetail? ==>
           (e.about.masDeactivated <==> DeactivationIn(w'.trace, |w.trace|, k)))
  }

  lemma MasEntries(s: Script, w: World, m: Member, username: string, domain: string)
    requires m.matrixId == "@" + username + ":" + domain
    ensures var h := CloseMas(s, w, m, username);
            && EntriesFor(w, h.w, m.keycloakId, username, domain)
            && (h.result.Ok? ==>
                 (h.result.value.0 <==> DeactivationIn(h.w.trace, |w.trace|, |h.w.trace|)))
  {
    var look := LookupAccount(username);
    var w1 := Attempt(s, w, look);
    AttemptAddsOne(s, w, look);
    if Succeeds(s, w, look) && username in w1.mas.accounts {
      var account := w1.mas.accounts[username];
      ActAndLogAddsTwo(s, w1, DeactivateAccount(account), MasDraft(m, account, username));
      assert CloseMas(s, w, m, username).w.trace[|w1.trace|].call == DeactivateAccount(account);
    }
  }

  lemma KnownUserEntries(s: Script, w: World, m: Member, username: string, domain: string)
    requires m.matrixId == "@" + username + ":" + domain
    ensures EntriesFor(w, DeleteKnown(s, w, m, username).w, m.keycloakId, username, domain)
  {
    var h := CloseMas(s, w, m, username);
    MasEntries(s, w, m, username, domain);
    if h.result.Ok? {
      var call, draft := DeleteUser(m.keycloakId), DeletionDraft(m, username, h.result.value.0);
      ActAndLogAddsTwo(s, h.w, call, draft);
      RecordEntry(w, h.w, DeleteKnown(s, w, m, username).w, ActAndLog(s, h.w, call, draft), call, draft,
                  m.keycloakId, username, domain);
    }
  }

  lemma RecordEntry(w: World, w1: World, w2: World, g: Logged, call: Call, draft: AuditEntry,
                    id: string, username: string, domain: string)
    requires EntriesFor(w, w1, id, username, domain) && call.DeleteUser? && w2 == g.w
    requires g.w.trace == w1.trace + [Event(call, g.ok)] + [Event(WriteAudit(draft.(success := g.ok)), g.logged)]
    requires draft.keycloakId == id && draft.matrixId == "@" + username + ":" + domain
    requires draft.about.DeletionDetail? && draft.about.keycloakId == id && draft.about.username == username
    requires draft.about.masDeactivated <==> DeactivationIn(w1.trace, |w.trace|, |w1.trace|)
    ensures EntriesFor(w, w2, id, username, domain)
  {
    assert forall k | 0 <= k < |w1.trace| :: w2.trace[k] == w1.trace[k];
    assert w2.trace[|w1.trace|].call == call;
    forall k | |w.trace| <= k < |w2.trace| && w2.trace[k].call.WriteAudit?
      ensures var e := w2.trace[k].call.entry;
              && e.keycloakId == id && e.matrixId == "@" + username + ":" + domain
              && (e.about.MasDetail? || e.about.DeletionDetail?) && e.about.keycloakId == id && e.about.username == username
              && (e.about.DeletionDetail? ==>
                   (e.about.masDeactivated <==> DeactivationIn(w2.trace, |w.trace|, k)))
    {
      if k < |w1.trace| {
        assert w1.trace[k] == w2.trace[k];
        SameDeactivations(w1.trace, w2.trace, |w.trace|, k);
      } else {
        assert k == |w1.trace| + 1;
        SameDeactivations(w1.trace, w2.trace, |w.trace|, |w1.trace|);
        NoneAtRecord(w2.trace, |w.trace|, |w1.trace|);
      }
    }
  }

  lemma SameDeactivations(t: seq<Event>, t': seq<Event>, from: nat, to: nat)
    requires t <= t' && to <= |t|
    ensures DeactivationIn(t, from, to) <==> DeactivationIn(t', from, to)
  {
    assert forall j | 0 <= j < to :: t'[j] == t[j];
  }

  lemma NoneAtRecord(t: seq<Event>, from: nat, k: nat)
    requires k < |t| && !t[k].call.DeactivateAccount?
    ensures DeactivationIn(t, from, k + 1) <==> DeactivationIn(t, from, k)
  {
    if j :| from <= j < k + 1 && j < |t| && t[j].call.DeactivateAccount? { assert j != k; }
  }

  /**
   Whatever fails, every audit entry of a deletion names the user's ids and username, and the entry about
   the record says whether a deactivation came before.
   */
  lemma DeleteEntries(s: Script, w: World, id: string, domain: string)
    requires id in w.kc.users
    ensures EntriesFor(w, DeleteAccount(s, w, id, domain).w, id, w.kc.users[id], domain)
  {
    AttemptAddsOne(s, w, GetUser(id));
    if Succeeds(s, w, GetUser(id)) {
      var w0 := Attempt(s, w, GetUser(id));
      KnownUserEntries(s, w0, MemberOf(id, w.kc.users[id], domain), w.kc.users[id], domain);
      EntriesFromStart(w, w0, DeleteAccount(s, w, id, domain).w, id, w.kc.users[id], domain, Event(GetUser(id), true));
    }
  }

  lemma EntriesFromStart(w: World, w0: World, w': World, id: string, username: string, domain: string, user: Event)
    requires w0.trace == w.trace + [user] && user.call.GetUser? && EntriesFor(w0, w', id, username, domain)
    ensures EntriesFor(w, w', id, username, domain)
  {
    assert w'.trace[|w.trace|] == user;
    forall k | |w0.trace| <= k < |w'.trace| && w'.trace[k].call.WriteAudit?
      ensures DeactivationIn(w'.trace, |w.trace|, k) <==> DeactivationIn(w'.trace, |w0.trace|, k)
    {
      if j :| |w.trace| <= j < k && j < |w'.trace| && w'.trace[j].call.DeactivateAccount? { assert j != |w.trace|; }
    }
  }
}
