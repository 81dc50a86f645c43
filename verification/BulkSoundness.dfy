/** What a bulk run reports, whatever fails: a true audit trail, and one warning for each failed call. */
module BulkSoundness {
  import opened Policy
  import opened Upstream
  import opened Rooms
  import opened Reconcile
  import opened ReconcileResults
  import opened Bulk

  /** The audit trail stays true, and so many calls failed. */
  ghost predicate SoundStretch(w: World, w': World, failures: nat) {
    && (InSync(w) ==> InSync(w'))
    && w.trace <= w'.trace
    && Failures(w'.trace) == Failures(w.trace) + failures
  }

  /** Between two tallies each failed call left one warning. */
  ghost predicate SoundTally(t: Tally, t': Tally) {
    && |t.warnings| <= |t'.warnings|
    && SoundStretch(t.w, t'.w, |t'.warnings| - |t.warnings|)
  }

  lemma QuestionIsSound(s: Script, w: World, call: Call)
    requires call.GetGroups? || call.GetRoles? || call.SearchUsers? || call.CountUsers? || call.ReadBindings?
    ensures SoundStretch(w, Attempt(s, w, call), if Succeeds(s, w, call) then 0 else 1)
  {
    TraceGrows(w.trace, Event(call, Succeeds(s, w, call)));
  }

  lemma SoundThen(w: World, w1: World, w2: World, n: nat, k: nat)
    requires SoundStretch(w, w1, n) && SoundStretch(w1, w2, k)
    ensures SoundStretch(w, w2, n + k)
  {
  }

  lemma ReconcileIsSound(s: Script, w: World, m: Member, bs: seq<PolicyBinding>)
    ensures SoundStretch(w, ReconcileAll(s, w, m, bs).w, |ReconcileAll(s, w, m, bs).warnings|)
  {
    ReconcileIsHonest(s, w, m, bs);
    NamedFailures(w, ReconcileAll(s, w, m, bs));
  }

  lemma RunUserIsSound(s: Script, w: World, bs: seq<PolicyBinding>, domain: string, u: DirectoryUser)
    ensures SoundStretch(w, RunUser(s, w, bs, domain, u).w, |RunUser(s, w, bs, domain, u).warnings|)
  {
    if u.enabled {
      var w1 := Attempt(s, w, GetGroups(u.id));
      QuestionIsSound(s, w, GetGroups(u.id));
      if Succeeds(s, w, GetGroups(u.id)) {
        var known := Succeeds(s, w1, GetRoles(u.id));
        var w2 := Attempt(s, w1, GetRoles(u.id));
        var m := MemberFor(u, domain, if known then u.roles else []);
        QuestionIsSound(s, w1, GetRoles(u.id));
        ReconcileIsSound(s, w2, m, bs);
        SoundThen(w, w1, w2, 0, if known then 0 else 1);
        SoundThen(w, w2, ReconcileAll(s, w2, m, bs).w, if known then 0 else 1, |ReconcileAll(s, w2, m, bs).warnings|);
      }
    }
  }

  lemma {:induction false} HandleUsersIsSound(s: Script, t: Tally, bs: seq<PolicyBinding>, domain: string,
                                              us: seq<DirectoryUser>)
    ensures SoundTally(t, HandleUsers(s, t, bs, domain, us))
    decreases |us|
  {
    if us == [] {
    } else {
      var t1 := HandleUser(s, t, bs, domain, us[0]);
      RunUserIsSound(s, t.w, bs, domain, us[0]);
      HandleUsersIsSound(s, t1, bs, domain, us[1..]);
    }
  }

  lemma TurnPageIsSound(s: Script, t: Tally, bs: seq<PolicyBinding>, domain: string, dir: seq<DirectoryUser>, first: nat)
    requires Succeeds(s, t.w, SearchUsers(first))
    ensures SoundTally(t, TurnPage(s, t, bs, domain, dir, first))
  {
    QuestionIsSound(s, t.w, SearchUsers(first));
    HandleUsersIsSound(s, t.(w := Attempt(s, t.w, SearchUsers(first))), bs, domain, PageFrom(dir, first));
  }

  /** The audit trail stays true; an answer has one warning for each failed call, a refusal had a failed call. */
  ghost predicate SoundResult(t: Tally, r: BulkResult) {
    match r
    case BulkDone(t') => SoundTally(t, t')
    case BulkFailed(w') => (InSync(t.w) ==> InSync(w')) && t.w.trace <= w'.trace && Failures(w'.trace) > Failures(t.w.trace)
  }

  lemma {:induction false} HandlePagesIsSound(s: Script, t: Tally, bs: seq<PolicyBinding>, domain: string,
                                              dir: seq<DirectoryUser>, first: nat)
    ensures SoundResult(t, HandlePages(s, t, bs, domain, dir, first))
    decreases if first < |dir| then |dir| - first else 0
  {
    if !Succeeds(s, t.w, SearchUsers(first)) {
      QuestionIsSound(s, t.w, SearchUsers(first));
    } else {
      TurnPageIsSound(s, t, bs, domain, dir, first);
      if |PageFrom(dir, first)| == PAGE_SIZE {
        HandlePagesIsSound(s, TurnPage(s, t, bs, domain, dir, first), bs, domain, dir, first + PAGE_SIZE);
      }
    }
  }

  /**
   Whatever fails, the audit trail of a bulk run reports every mutation truly. An answer has one warning
   for each failed call; a refusal means that a call failed, or that there is no Synapse, or too many users.
   */
  lemma BulkIsSound(s: Script, w: World, synapse: bool, bs: seq<PolicyBinding>, domain: string, dir: seq<DirectoryUser>)
    ensures var r := BulkReconcileAll(s, w, synapse, bs, domain, dir);
            && (InSync(w) ==> InSync(r.World()))
            && w.trace <= r.World().trace
            && (r.BulkDone? ==> Failures(r.tally.w.trace) == Failures(w.trace) + |r.tally.warnings|)
            && (r.BulkFailed? ==>
                 Failures(r.w.trace) > Failures(w.trace) || !synapse || |dir| > MAX_BULK_RECONCILE_USERS)
  {
    var w1 := Attempt(s, w, CountUsers);
    QuestionIsSound(s, w, CountUsers);
    QuestionIsSound(s, w1, ReadBindings);
    HandlePagesIsSound(s, Tally(Attempt(s, w1, ReadBindings), 0, 0, []), bs, domain, dir, 0);
  }

  // ----- Warning-free bulk runs are failure-free -----

  lemma QuietUser(s: Script, w: World, bs: seq<PolicyBinding>, domain: string, u: DirectoryUser)
    requires RunUser(s, w, bs, domain, u).warnings == []
    ensures RunUser(s, w, bs, domain, u) == RunUser(UP, w, bs, domain, u)
  {
    if u.enabled {
      var w1 := Attempt(s, w, GetGroups(u.id));
      var w2 := Attempt(s, w1, GetRoles(u.id));
      NoWarningsMeansNothingFailed(s, w2, MemberFor(u, domain, u.roles), bs);
    }
  }

  lemma {:induction false} QuietUsers(s: Script, t: Tally, bs: seq<PolicyBinding>, domain: string, us: seq<DirectoryUser>)
    requires |HandleUsers(s, t, bs, domain, us).warnings| == |t.warnings|
    ensures HandleUsers(s, t, bs, domain, us) == HandleUsers(UP, t, bs, domain, us)
    decreases |us|
  {
    if us == [] {
    } else {
      var t1 := HandleUser(s, t, bs, domain, us[0]);
      HandleUsersIsSound(s, t1, bs, domain, us[1..]);
      QuietUser(s, t.w, bs, domain, us[0]);
      QuietUsers(s, t1, bs, domain, us[1..]);
    }
  }

  lemma {:induction false} QuietPages(s: Script, t: Tally, bs: seq<PolicyBinding>, domain: string,
                                      dir: seq<DirectoryUser>, first: nat)
    requires var r := HandlePages(s, t, bs, domain, dir, first); r.BulkDone? && |r.tally.warnings| == |t.warnings|
    ensures HandlePages(s, t, bs, domain, dir, first) == HandlePages(UP, t, bs, domain, dir, first)
    decreases if first < |dir| then |dir| - first else 0
  {
    var page, t1 := PageFrom(dir, first), TurnPage(s, t, bs, domain, dir, first);
    TurnPageIsSound(s, t, bs, domain, dir, first);
    if |page| == PAGE_SIZE {
      HandlePagesIsSound(s, t1, bs, domain, dir, first + PAGE_SIZE);
    }
    QuietUsers(s, t.(w := Attempt(s, t.w, SearchUsers(first))), bs, domain, page);
    if |page| == PAGE_SIZE {
      QuietPages(s, t1, bs, domain, dir, first + PAGE_SIZE);
    }
  }

  /** An answer without warnings is the answer, and the state, of the run in which nothing fails. */
  lemma BulkWithoutWarnings(s: Script, w: World, synapse: bool, bs: seq<PolicyBinding>, domain: string, dir: seq<DirectoryUser>)
    requires var r := BulkReconcileAll(s, w, synapse, bs, domain, dir); r.BulkDone? && r.tally.warnings == []
    ensures BulkReconcileAll(s, w, synapse, bs, domain, dir) == BulkReconcileAll(UP, w, synapse, bs, domain, dir)
  {
    QuietPages(s, Tally(Attempt(s, Attempt(s, w, CountUsers), ReadBindings), 0, 0, []), bs, domain, dir, 0);
  }

  // ----- What the warnings say -----

  /** The warnings of a list, without the names in front. */
  function Unprefixed(ws: seq<(string, Warning)>): seq<Warning> {
    seq(|ws|, i requires 0 <= i < |ws| => ws[i].1)
  }

  lemma UnprefixedOfSum(ws: seq<(string, Warning)>, vs: seq<(string, Warning)>)
    ensures Unprefixed(ws + vs) == Unprefixed(ws) + Unprefixed(vs)
  {
  }

  lemma UnprefixedOfPrefixed(username: string, ws: seq<Warning>)
    ensures Unprefixed(Prefixed(username, ws)) == ws
  {
  }

  /** The state after the two lookups, when the groups could be fetched, and the warning about the roles. */
  lemma LookupsNameFailures(s: Script, w: World, id: string) returns (w2: World, head: seq<Warning>)
    requires Succeeds(s, w, GetGroups(id))
    ensures w2 == Attempt(s, Attempt(s, w, GetGroups(id)), GetRoles(id))
    ensures head == if Succeeds(s, Attempt(s, w, GetGroups(id)), GetRoles(id)) then [] else [RolesUnknown]
    ensures NamesFailures(w, Outcome(w2, head))
  {
    var w1 := Attempt(s, w, GetGroups(id));
    w2, head := Attempt(s, w1, GetRoles(id)), if Succeeds(s, w1, GetRoles(id)) then [] else [RolesUnknown];
    NamesOfAttempt(s, w, GetGroups(id));
    NamesOfAttempt(s, w1, GetRoles(id));
    NamesThen(w, Outcome(w1, []), Outcome(w2, head));
    assert [] + head == head;
  }

  lemma ProcessedWarnings(s: Script, w: World, bs: seq<PolicyBinding>, domain: string, u: DirectoryUser)
    requires u.enabled && Succeeds(s, w, GetGroups(u.id))
    ensures var r := RunUser(s, w, bs, domain, u); NamesFailures(w, Outcome(r.w, Unprefixed(r.warnings)))
  {
    var w2, head := LookupsNameFailures(s, w, u.id);
    var m := MemberFor(u, domain, if head == [] then u.roles else []);
    var o := ReconcileAll(s, w2, m, bs);
    var front := if head == [] then [] else [(u.username, RolesUnknown)];
    ReconcileIsHonest(s, w2, m, bs);
    NamesThen(w, Outcome(w2, head), o);
    UnprefixedOfPrefixed(u.username, o.warnings);
    UnprefixedOfSum(front, Prefixed(u.username, o.warnings));
    assert Unprefixed(front) == head;
  }

  /** Whatever fails: the warnings of a user's run bear the user's name and name exactly the calls that failed, in order. */
  lemma UserWarnings(s: Script, w: World, bs: seq<PolicyBinding>, domain: string, u: DirectoryUser)
    ensures var r := RunUser(s, w, bs, domain, u);
            && (forall i | 0 <= i < |r.warnings| :: r.warnings[i].0 == u.username)
            && NamesFailures(w, Outcome(r.w, Unprefixed(r.warnings)))
  {
    if u.enabled && Succeeds(s, w, GetGroups(u.id)) {
      ProcessedWarnings(s, w, bs, domain, u);
    } else {
      NamesOfAttempt(s, w, GetGroups(u.id));
      assert Unprefixed([(u.username, GroupsUnknown)]) == [GroupsUnknown] && Unprefixed([]) == [];
    }
  }

  /** Between two tallies the new warnings name exactly the calls that failed, in order. */
  ghost predicate NamesTally(t: Tally, t': Tally) {
    && |t.warnings| <= |t'.warnings| && t'.warnings[..|t.warnings|] == t.warnings
    && NamesFailures(t.w, Outcome(t'.w, Unprefixed(t'.warnings[|t.warnings|..])))
  }

  lemma NamesTallyThen(t: Tally, t1: Tally, t2: Tally)
    requires NamesTally(t, t1) && NamesTally(t1, t2)
    ensures NamesTally(t, t2)
  {
    var ws, vs := t1.warnings[|t.warnings|..], t2.warnings[|t1.warnings|..];
    assert t2.warnings[|t.warnings|..] == ws + vs;
    UnprefixedOfSum(ws, vs);
    NamesThen(t.w, Outcome(t1.w, Unprefixed(ws)), Outcome(t2.w, Unprefixed(vs)));
  }

  lemma HandleUserNames(s: Script, t: Tally, bs: seq<PolicyBinding>, domain: string, u: DirectoryUser)
    ensures NamesTally(t, HandleUser(s, t, bs, domain, u))
  {
    UserWarnings(s, t.w, bs, domain, u);
    assert HandleUser(s, t, bs, domain, u).warnings[|t.warnings|..] == RunUser(s, t.w, bs, domain, u).warnings;
  }

  lemma NothingNamesNothing(t: Tally)
    ensures NamesTally(t, t)
  {
    assert Unprefixed(t.warnings[|t.warnings|..]) == [];
  }

  lemma {:induction false} HandleUsersNames(s: Script, t: Tally, bs: seq<PolicyBinding>, domain: string, us: seq<DirectoryUser>)
    ensures NamesTally(t, HandleUsers(s, t, bs, domain, us))
    decreases |us|
  {
    if us == [] {
      NothingNamesNothing(t);
    } else {
      var t1 := HandleUser(s, t, bs, domain, us[0]);
      HandleUserNames(s, t, bs, domain, us[0]);
      HandleUsersNames(s, t1, bs, domain, us[1..]);
      NamesTallyThen(t, t1, HandleUsers(s, t1, bs, domain, us[1..]));
    }
  }

  lemma QuestionNames(t: Tally, t0: Tally, s: Script, call: Call)
    requires t0 == t.(w := Attempt(s, t.w, call)) && Succeeds(s, t.w, call) && !call.WriteAudit?
    ensures NamesTally(t, t0)
  {
    NamesOfAttempt(s, t.w, call);
    assert Unprefixed(t0.warnings[|t.warnings|..]) == [];
  }

  lemma TurnPageNames(s: Script, t: Tally, bs: seq<PolicyBinding>, domain: string, dir: seq<DirectoryUser>, first: nat)
    requires Succeeds(s, t.w, SearchUsers(first))
    ensures NamesTally(t, TurnPage(s, t, bs, domain, dir, first))
  {
    var t0 := t.(w := Attempt(s, t.w, SearchUsers(first)));
    QuestionNames(t, t0, s, SearchUsers(first));
    HandleUsersNames(s, t0, bs, domain, PageFrom(dir, first));
    NamesTallyThen(t, t0, TurnPage(s, t, bs, domain, dir, first));
  }

  lemma {:induction false} HandlePagesNames(s: Script, t: Tally, bs: seq<PolicyBinding>, domain: string,
                                            dir: seq<DirectoryUser>, first: nat)
    ensures var r := HandlePages(s, t, bs, domain, dir, first); r.BulkDone? ==> NamesTally(t, r.tally)
    decreases if first < |dir| then |dir| - first else 0
  {
    if !Succeeds(s, t.w, SearchUsers(first)) {
    } else {
      var t1 := TurnPage(s, t, bs, domain, dir, first);
      TurnPageNames(s, t, bs, domain, dir, first);
      if |PageFrom(dir, first)| == PAGE_SIZE {
        HandlePagesNames(s, t1, bs, domain, dir, first + PAGE_SIZE);
        var r := HandlePages(s, t1, bs, domain, dir, first + PAGE_SIZE);
        if r.BulkDone? { NamesTallyThen(t, t1, r.tally); }
      }
    }
  }

  /** Whatever fails: the warnings of a bulk answer name exactly the calls that failed, in order. */
  lemma BulkWarnings(s: Script, w: World, synapse: bool, bs: seq<PolicyBinding>, domain: string, dir: seq<DirectoryUser>)
    ensures var r := BulkReconcileAll(s, w, synapse, bs, domain, dir);
            r.BulkDone? ==> NamesFailures(w, Outcome(r.tally.w, Unprefixed(r.tally.warnings)))
  {
    var t, t1 := Tally(w, 0, 0, []), Tally(Attempt(s, w, CountUsers), 0, 0, []);
    var t2 := t.(w := Attempt(s, t1.w, ReadBindings));
    var r := BulkReconcileAll(s, w, synapse, bs, domain, dir);
    if r.BulkDone? {
      QuestionNames(t, t1, s, CountUsers);
      QuestionNames(t1, t2, s, ReadBindings);
      HandlePagesNames(s, t2, bs, domain, dir, 0);
      NamesTallyThen(t, t1, t2);
      NamesTallyThen(t, t2, r.tally);
      assert r.tally.warnings[0..] == r.tally.warnings;
    }
  }
}
