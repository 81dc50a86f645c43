/**
 The admin-token cache shared by concurrent requests.

 A mutex guards the cache and is held across the fetch of a new token. Each request is a task;
 a run is any interleaving of the atomic steps below, with a clock that never goes back. What
 the servers answer is chosen by the step. A request may be dropped at any await point.
 */
module TokenCache {
  import opened Wrappers

  // ----- Tokens -----

  const SECOND := 1_000_000_000
  const SAFETY_MARGIN := 30

  /** A token, with the history index of its fetch, when it arrived, and the lifetime in seconds it came with. */
  datatype Token = Token(text: string, started: nat, received: nat, expiresIn: nat)

  datatype CachedToken = CachedToken(token: Token, expiresAt: nat)

  function SaturatingSub(a: nat, b: nat): nat {
    if a < b then 0 else a - b
  }

  function Store(token: Token): CachedToken {
    CachedToken(token, token.received + SaturatingSub(token.expiresIn, SAFETY_MARGIN) * SECOND)
  }

  /** The token the cache would serve now. */
  function Lookup(cache: Option<CachedToken>, now: nat): Option<Token> {
    if cache.Some? && cache.value.expiresAt > now then Some(cache.value.token) else None
  }

  /** A stored token is served exactly as long as more than the safety margin of its reported lifetime is left. */
  lemma CacheServesIff(token: Token, now: nat)
    requires now >= token.received
    ensures Lookup(Some(Store(token)), now) == Some(token)
       <==> token.received + token.expiresIn * SECOND > now + 30 * SECOND
    ensures Lookup(Some(Store(token)), now).None?
       <==> token.received + token.expiresIn * SECOND <= now + 30 * SECOND
  {
  }

  // ----- Tasks -----

  type TaskId = nat

  /**
   Where a request stands. `cleared` is the history index at which this request cleared the cache;
   a request on its second attempt has one.
   */
  datatype Pc =
    | Idle
    | WantToken(cleared: Option<nat>)
    | Looking(cleared: Option<nat>)
    | Fetching(cleared: Option<nat>, started: nat)
    | Sending(cleared: Option<nat>, token: Token)
    | WantClear(rejected: Token)
    | Finished

  datatype Event =
    | FetchStarted(task: TaskId)
    | Served(task: TaskId, token: Token, at: nat)
    | Sent(task: TaskId, cleared: Option<nat>, token: Token, unauthorized: bool)
    | Cleared(task: TaskId, rejected: Token)

  datatype State = State(
    now: nat, holder: Option<TaskId>, cache: Option<CachedToken>, pcs: map<TaskId, Pc>, history: seq<Event>)

  const INIT := State(0, None, None, map[], [])

  function PcOf(s: State, t: TaskId): Pc {
    if t in s.pcs then s.pcs[t] else Idle
  }

  // ----- Steps -----

  datatype Step =
    | Tick(elapsed: nat)
    | Begin(task: TaskId)
    | Acquire(task: TaskId)
    | Hit(task: TaskId)
    | StartFetch(task: TaskId)
    | FetchOk(task: TaskId, text: string, expiresIn: nat)
    | FetchFail(task: TaskId)
    | Answer(task: TaskId, unauthorized: bool)
    | Clear(task: TaskId)
    | Drop(task: TaskId)

  predicate Enabled(s: State, step: Step) {
    match step
    case Tick(_) => true
    case Begin(t) => PcOf(s, t).Idle?
    case Acquire(t) => PcOf(s, t).WantToken? && s.holder.None?
    case Hit(t) => PcOf(s, t).Looking? && Lookup(s.cache, s.now).Some?
    case StartFetch(t) => PcOf(s, t).Looking? && Lookup(s.cache, s.now).None?
    case FetchOk(t, _, _) => PcOf(s, t).Fetching?
    case FetchFail(t) => PcOf(s, t).Fetching?
    case Answer(t, _) => PcOf(s, t).Sending?
    case Clear(t) => PcOf(s, t).WantClear? && s.holder.None?
    case Drop(t) => !PcOf(s, t).Finished?
  }

  function Move(s: State, t: TaskId, pc: Pc): State {
    s.(pcs := s.pcs[t := pc])
  }

  function Record(s: State, e: Event): State {
    s.(history := s.history + [e])
  }

  function Apply(s: State, step: Step): State
    requires Enabled(s, step)
  {
    match step
    case Tick(d) => s.(now := s.now + d)
    case Begin(t) => Move(s, t, WantToken(None))
    case Acquire(t) => Move(s.(holder := Some(t)), t, Looking(PcOf(s, t).cleared))
    case Hit(t) =>
      var token := Lookup(s.cache, s.now).value;
      Record(Move(s.(holder := None), t, Sending(PcOf(s, t).cleared, token)), Served(t, token, s.now))
    case StartFetch(t) =>
      Record(Move(s, t, Fetching(PcOf(s, t).cleared, |s.history|)), FetchStarted(t))
    case FetchOk(t, text, expiresIn) =>
      var token := Token(text, PcOf(s, t).started, s.now, expiresIn);
      Move(s.(holder := None, cache := Some(Store(token))), t, Sending(PcOf(s, t).cleared, token))
    case FetchFail(t) => Move(s.(holder := None), t, Finished)
    case Answer(t, unauthorized) =>
      var cleared, token := PcOf(s, t).cleared, PcOf(s, t).token;
      Record(Move(s, t, if unauthorized && cleared.None? then WantClear(token) else Finished),
             Sent(t, cleared, token, unauthorized))
    case Clear(t) =>
      Record(Move(s.(cache := None), t, WantToken(Some(|s.history|))), Cleared(t, PcOf(s, t).rejected))
    case Drop(t) => Move(if s.holder == Some(t) then s.(holder := None) else s, t, Finished)
  }

  /** Any sequence of steps; a step that is not enabled does nothing. */
  function Run(s: State, steps: seq<Step>): State
    decreases |steps|
  {
    if steps == [] then s else Run(if Enabled(s, steps[0]) then Apply(s, steps[0]) else s, steps[1..])
  }

  // ----- What every reachable state satisfies -----

  predicate InCriticalSection(pc: Pc) {
    pc.Looking? || pc.Fetching?
  }

  ghost predicate NeverClearedAfter(h: seq<Event>, k: nat) {
    forall i | k < i < |h| :: !h[i].Cleared?
  }

  predicate FetchedIn(h: seq<Event>, token: Token) {
    token.started < |h| && h[token.started].FetchStarted?
  }

  /** A retry's clear event, and the token obtained after it, if there is one. */
  predicate RetryIsOrdered(h: seq<Event>, t: TaskId, cleared: Option<nat>) {
    cleared.Some? ==> cleared.value < |h| && h[cleared.value].Cleared? && h[cleared.value].task == t
  }

  /** The first attempt of a request was sent with this token and answered with 401. */
  ghost predicate RejectedBefore(h: seq<Event>, k: nat, t: TaskId, token: Token) {
    exists j: nat :: j < k && j < |h| && h[j] == Sent(t, None, token, true)
  }

  ghost predicate PcOk(h: seq<Event>, t: TaskId, pc: Pc) {
    match pc
    case Idle => true
    case WantToken(c) => RetryIsOrdered(h, t, c)
    case Looking(c) => RetryIsOrdered(h, t, c)
    case Fetching(c, k) =>
      RetryIsOrdered(h, t, c) && k < |h| && h[k] == FetchStarted(t) && NeverClearedAfter(h, k)
    case Sending(c, token) =>
      RetryIsOrdered(h, t, c) && FetchedIn(h, token) && (c.Some? ==> c.value < token.started)
    case WantClear(token) => FetchedIn(h, token) && RejectedBefore(h, |h|, t, token)
    case Finished => true
  }

  /**
   What each event of the history says. A clear follows a 401 for the token it rejects; the token of a
   retry was fetched after the clear, in a different fetch.
   */
  ghost predicate EventOk(h: seq<Event>, k: nat)
    requires k < |h|
  {
    match h[k]
    case FetchStarted(_) => true
    case Served(_, token, at) => at + SAFETY_MARGIN * SECOND < token.received + token.expiresIn * SECOND
    case Sent(t, c, token, _) =>
      && FetchedIn(h, token) && token.started < k
      && RetryIsOrdered(h, t, c)
      && (c.Some? ==> c.value < token.started && h[c.value].rejected.started < c.value)
    case Cleared(t, token) => FetchedIn(h, token) && token.started < k && RejectedBefore(h, k, t, token)
  }

  ghost predicate LockOk(s: State) {
    forall t: TaskId :: InCriticalSection(PcOf(s, t)) <==> s.holder == Some(t)
  }

  ghost predicate CacheOk(s: State) {
    s.cache.Some? ==>
      var token := s.cache.value.token;
      && s.cache.value == Store(token)
      && token.received <= s.now
      && FetchedIn(s.history, token)
      && NeverClearedAfter(s.history, token.started)
  }

  /** How many requests a task has sent. */
  function SentBy(h: seq<Event>, t: TaskId): nat {
    if h == [] then 0 else
      var e := h[|h| - 1];
      SentBy(h[..|h| - 1], t) + if e.Sent? && e.task == t then 1 else 0
  }

  predicate SendsOk(h: seq<Event>, t: TaskId, pc: Pc) {
    match pc
    case Idle => SentBy(h, t) == 0
    case WantClear(_) => SentBy(h, t) == 1
    case Finished => SentBy(h, t) <= 2
    case _ => SentBy(h, t) == if pc.cleared.Some? then 1 else 0
  }

  ghost predicate TasksOk(s: State) {
    forall t: TaskId :: PcOk(s.history, t, PcOf(s, t)) && SendsOk(s.history, t, PcOf(s, t))
  }

  ghost predicate HistoryOk(h: seq<Event>) {
    forall k: nat | k < |h| :: EventOk(h, k)
  }

  ghost predicate Inv(s: State) {
    LockOk(s) && CacheOk(s) && TasksOk(s) && HistoryOk(s.history)
  }

  // ----- Every step keeps it -----

  lemma SentByGrows(h: seq<Event>, e: Event, t: TaskId)
    ensures SentBy(h + [e], t) == SentBy(h, t) + if e.Sent? && e.task == t then 1 else 0
  {
    assert (h + [e])[..|h|] == h;
  }

  lemma RejectedStays(h: seq<Event>, e: Event, k: nat, k': nat, t: TaskId, token: Token)
    requires RejectedBefore(h, k, t, token) && k <= k'
    ensures RejectedBefore(h + [e], k', t, token)
  {
    var j: nat :| j < k && j < |h| && h[j] == Sent(t, None, token, true);
    assert (h + [e])[j] == h[j];
  }

  lemma PcOkGrows(h: seq<Event>, e: Event, t: TaskId, pc: Pc)
    requires PcOk(h, t, pc) && (e.Cleared? ==> !pc.Fetching?)
    ensures PcOk(h + [e], t, pc)
  {
    if pc.WantClear? { RejectedStays(h, e, |h|, |h| + 1, t, pc.rejected); }
  }

  lemma HistoryOkGrows(h: seq<Event>, e: Event)
    requires HistoryOk(h) && EventOk(h + [e], |h|)
    ensures HistoryOk(h + [e])
  {
    forall k: nat | k < |h + [e]| ensures EventOk(h + [e], k) {
      if k < |h| {
        assert EventOk(h, k);
        if h[k].Cleared? { RejectedStays(h, e, k, k, h[k].task, h[k].rejected); }
      }
    }
  }

  lemma LockStep(s: State, step: Step)
    requires Inv(s) && Enabled(s, step)
    ensures LockOk(Apply(s, step))
  {
    assert forall t: TaskId :: InCriticalSection(PcOf(s, t)) <==> s.holder == Some(t);
  }

  lemma CacheStep(s: State, step: Step)
    requires Inv(s) && Enabled(s, step)
    ensures CacheOk(Apply(s, step))
  {
    if step.FetchOk? { assert PcOk(s.history, step.task, PcOf(s, step.task)); }
  }

  lemma HistoryStep(s: State, step: Step)
    requires Inv(s) && Enabled(s, step)
    ensures HistoryOk(Apply(s, step).history)
  {
    var s' := Apply(s, step);
    if s'.history != s.history {
      var pc := PcOf(s, step.task);
      assert PcOk(s.history, step.task, pc);
      if step.Answer? && pc.cleared.Some? { assert EventOk(s.history, pc.cleared.value); }
      if step.Clear? { RejectedStays(s.history, s'.history[|s.history|], |s.history|, |s.history|, step.task, pc.rejected); }
      HistoryOkGrows(s.history, s'.history[|s.history|]);
    }
  }

  /** The task that moves. */
  lemma OwnTaskStep(s: State, step: Step)
    requires Inv(s) && Enabled(s, step) && !step.Tick?
    ensures var s', t := Apply(s, step), step.task;
            PcOk(s'.history, t, PcOf(s', t)) && SendsOk(s'.history, t, PcOf(s', t))
  {
    var s', t := Apply(s, step), step.task;
    assert PcOk(s.history, t, PcOf(s, t)) && SendsOk(s.history, t, PcOf(s, t));
    if s'.history != s.history { SentByGrows(s.history, s'.history[|s.history|], t); }
  }

  /** All other tasks; a clear needs the lock to be free, so nobody else is fetching. */
  lemma OtherTaskStep(s: State, step: Step, t: TaskId)
    requires Inv(s) && Enabled(s, step) && (step.Tick? || t != step.task)
    ensures var s' := Apply(s, step); PcOk(s'.history, t, PcOf(s', t)) && SendsOk(s'.history, t, PcOf(s', t))
  {
    var s' := Apply(s, step);
    assert PcOf(s', t) == PcOf(s, t);
    assert PcOk(s.history, t, PcOf(s, t)) && SendsOk(s.history, t, PcOf(s, t));
    assert InCriticalSection(PcOf(s, t)) <==> s.holder == Some(t);
    if s'.history != s.history {
      var e := s'.history[|s.history|];
      SentByGrows(s.history, e, t);
      PcOkGrows(s.history, e, t, PcOf(s, t));
    }
  }

  lemma StepKeepsInv(s: State, step: Step)
    requires Inv(s) && Enabled(s, step)
    ensures Inv(Apply(s, step))
  {
    LockStep(s, step);
    CacheStep(s, step);
    HistoryStep(s, step);
    var s' := Apply(s, step);
    forall t: TaskId ensures PcOk(s'.history, t, PcOf(s', t)) && SendsOk(s'.history, t, PcOf(s', t)) {
      if step.Tick? || t != step.task { OtherTaskStep(s, step, t); } else { OwnTaskStep(s, step); }
    }
  }

  lemma {:induction false} RunKeepsInv(s: State, steps: seq<Step>)
    requires Inv(s)
    ensures Inv(Run(s, steps))
    decreases |steps|
  {
    if steps == [] {
    } else {
      if Enabled(s, steps[0]) { StepKeepsInv(s, steps[0]); }
      RunKeepsInv(if Enabled(s, steps[0]) then Apply(s, steps[0]) else s, steps[1..]);
    }
  }

  lemma EveryRunIsSafe(steps: seq<Step>)
    ensures Inv(Run(INIT, steps))
  {
    RunKeepsInv(INIT, steps);
  }

  // ----- Results, for every interleaving -----

  /** At most one token fetch is in flight. */
  lemma OneFetchAtATime(steps: seq<Step>, t: TaskId, u: TaskId)
    requires PcOf(Run(INIT, steps), t).Fetching? && PcOf(Run(INIT, steps), u).Fetching?
    ensures t == u
  {
    EveryRunIsSafe(steps);
  }

  /** A token served from the cache has more than the safety margin of its reported lifetime left. */
  lemma ServedTokensLast(steps: seq<Step>, k: nat)
    requires k < |Run(INIT, steps).history| && Run(INIT, steps).history[k].Served?
    ensures var e := Run(INIT, steps).history[k];
            e.token.received + e.token.expiresIn * SECOND > e.at + SAFETY_MARGIN * SECOND
  {
    EveryRunIsSafe(steps);
    assert EventOk(Run(INIT, steps).history, k);
  }

  /**
   The second attempt of a request comes after its first was answered with 401 and it then cleared the
   cache. It carries a token whose fetch began after the clear, so not the token that was rejected.
   */
  lemma RetryUsesFreshToken(steps: seq<Step>, k: nat)
    requires k < |Run(INIT, steps).history|
    requires var e := Run(INIT, steps).history[k]; e.Sent? && e.cleared.Some?
    ensures var h := Run(INIT, steps).history;
            var c := h[k].cleared.value;
            && c < h[k].token.started < k
            && h[c].Cleared? && h[c].task == h[k].task
            && RejectedBefore(h, c, h[k].task, h[c].rejected)
            && h[h[k].token.started].FetchStarted?
            && h[c].rejected.started < c
            && h[k].token != h[c].rejected
  {
    EveryRunIsSafe(steps);
    var h := Run(INIT, steps).history;
    assert EventOk(h, k);
    assert EventOk(h, h[k].cleared.value);
  }

  /** No request is sent more than twice. */
  lemma AtMostTwoAttempts(steps: seq<Step>, t: TaskId)
    ensures SentBy(Run(INIT, steps).history, t) <= 2
  {
    EveryRunIsSafe(steps);
    var s := Run(INIT, steps);
    assert SendsOk(s.history, t, PcOf(s, t));
  }

  /** No deadlock: while a request is unfinished, some request can make a step other than being dropped. */
  lemma SomeoneCanMove(steps: seq<Step>, t: TaskId) returns (step: Step)
    requires var pc := PcOf(Run(INIT, steps), t); !pc.Idle? && !pc.Finished?
    ensures Enabled(Run(INIT, steps), step) && !step.Tick? && !step.Begin? && !step.Drop?
  {
    EveryRunIsSafe(steps);
    var s := Run(INIT, steps);
    if s.holder.Some? {
      var h := s.holder.value;
      assert InCriticalSection(PcOf(s, h));
      step := if PcOf(s, h).Fetching? then FetchFail(h)
              else if Lookup(s.cache, s.now).Some? then Hit(h) else StartFetch(h);
    } else {
      assert !InCriticalSection(PcOf(s, t));
      step := if PcOf(s, t).WantToken? then Acquire(t)
              else if PcOf(s, t).WantClear? then Clear(t) else Answer(t, false);
    }
  }
}
