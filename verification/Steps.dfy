/** The steps of the lifecycle workflows as the trace shows them, and the failures that end a workflow. */
module Steps {
  import opened Policy
  import opened Upstream
  import opened Rooms

  /** The calls that mark the steps of a workflow. */
  predicate StepCall(call: Call) {
    call.GetUser? || call.LookupAccount? || call.LogoutUser? || call.DisableUser? || call.DeactivateAccount? || call.DeleteUser?
  }

  /** The audit entries that a workflow cannot go on without. */
  predicate VitalEntry(call: Call) {
    call.WriteAudit? &&
    (call.entry.about.IdentityDetail? || call.entry.about.AuthDetail? || call.entry.about.MasDetail?
     || call.entry.about.DeletionDetail?)
  }

  /** The step calls of a trace, in order, with their results. */
  function StepsOf(t: seq<Event>): seq<Event> {
    if t == [] then [] else
      var e := t[|t| - 1];
      StepsOf(t[..|t| - 1]) + if StepCall(e.call) then [e] else []
  }

  /** How many vital entries were lost. */
  function VitalLosses(t: seq<Event>): nat {
    if t == [] then 0 else
      var e := t[|t| - 1];
      VitalLosses(t[..|t| - 1]) + if VitalEntry(e.call) && !e.ok then 1 else 0
  }

  /** Neither a step nor a vital entry. */
  predicate Minor(e: Event) {
    !StepCall(e.call) && !VitalEntry(e.call)
  }

  lemma StepsGrow(t: seq<Event>, e: Event)
    ensures StepsOf(t + [e]) == StepsOf(t) + if StepCall(e.call) then [e] else []
    ensures VitalLosses(t + [e]) == VitalLosses(t) + if VitalEntry(e.call) && !e.ok then 1 else 0
  {
    assert (t + [e])[..|t|] == t;
  }

  lemma StepOfAttempt(s: Script, w: World, call: Call)
    requires !call.WriteAudit?
    ensures var t := Attempt(s, w, call).trace;
            && StepsOf(t) == StepsOf(w.trace) + (if StepCall(call) then [Event(call, Succeeds(s, w, call))] else [])
            && VitalLosses(t) == VitalLosses(w.trace)
  {
    StepsGrow(w.trace, Event(call, Succeeds(s, w, call)));
  }

  /** A mutation with a vital entry, or with any other. */
  lemma StepOfActAndLog(s: Script, w: World, call: Call, draft: AuditEntry, vital: bool)
    requires StepCall(call) && vital == VitalEntry(WriteAudit(draft))
    ensures var g := ActAndLog(s, w, call, draft);
            && StepsOf(g.w.trace) == StepsOf(w.trace) + [Event(call, g.ok)]
            && VitalLosses(g.w.trace) == VitalLosses(w.trace) + if vital && !g.logged then 1 else 0
  {
    var g := ActAndLog(s, w, call, draft);
    StepsGrow(w.trace, Event(call, g.ok));
    StepsGrow(w.trace + [Event(call, g.ok)], Event(WriteAudit(draft.(success := g.ok)), g.logged));
    ActAndLogAddsTwo(s, w, call, draft);
  }

  lemma {:induction false} MinorStretch(t: seq<Event>, t': seq<Event>)
    requires t <= t' && forall k | |t| <= k < |t'| :: Minor(t'[k])
    ensures StepsOf(t') == StepsOf(t) && VitalLosses(t') == VitalLosses(t)
    decreases |t'|
  {
    if |t| == |t'| {
      assert t == t';
    } else {
      MinorStretch(t, t'[..|t'| - 1]);
    }
  }

  /** The events of a visit to rooms. */
  predicate RoomEvent(e: Event) {
    RoomCall(e.call) && (e.call.WriteAudit? ==> e.call.entry.about.RoomDetail?)
  }

  lemma {:induction false} KicksAreRoomEvents(s: Script, w: World, m: Member, action: string, subject: string, rooms: seq<string>)
    ensures AllSince(w, KickRooms(s, w, m, action, subject, rooms).w, RoomEvent)
    decreases |rooms|
  {
    if rooms == [] {
    } else {
      var w1 := KickOne(s, w, m, action, subject, rooms[0]).w;
      var read, kicked, logged := KickVisitCalls(s, w, m, action, subject, rooms[0]);
      KicksAreRoomEvents(s, w1, m, action, subject, rooms[1..]);
      AllSinceThen(w, w1, KickRooms(s, w1, m, action, subject, rooms[1..]).w, RoomEvent);
    }
  }
}
