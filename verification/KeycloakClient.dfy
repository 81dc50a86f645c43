/** The client as one request sees it: the cache is a field that is read, overwritten and cleared in place. */
module KeycloakClient {
  import opened Wrappers
  import opened TokenCache

  /** What the environment contributes to one attempt: how long a fetch takes, its reply, and the answer. */
  datatype Exchange = Exchange(fetchTime: nat, reply: Option<(string, nat)>, unauthorized: bool)

  /** The outcome of one attempt: the token it was sent with and whether it was answered with 401. */
  datatype Attempt = Attempt(token: Token, unauthorized: bool)

  lemma {:induction false} RunOfSum(s: State, steps: seq<Step>, more: seq<Step>)
    ensures Run(s, steps + more) == Run(Run(s, steps), more)
    decreases |steps|
  {
    if steps == [] {
      assert steps + more == more;
    } else {
      assert (steps + more)[1..] == steps[1..] + more;
      RunOfSum(if Enabled(s, steps[0]) then Apply(s, steps[0]) else s, steps[1..], more);
    }
  }

  lemma RunOfOne(s: State, step: Step)
    requires Enabled(s, step)
    ensures Run(s, [step]) == Apply(s, step)
  {
    assert [step][1..] == [];
  }

  class KeycloakClient {
    var tokenCache: Option<CachedToken>
    /** The clock, and the number of events so far, which labels fetches. */
    var clock: nat
    var events: nat
    /** The shared machine this client's requests are tasks of, and the steps taken since `start`. */
    ghost var machine: State
    ghost var taken: seq<Step>
    ghost const start: State

    constructor (ghost start: State, now: nat, events: nat)
      requires start.cache.None? && start.now == now && |start.history| == events
      ensures this.start == start && machine == start && Linked() && tokenCache == None
    {
      this.start, machine, taken := start, start, [];
      tokenCache, clock, this.events := None, now, events;
    }

    /** The fields are the machine's, and the machine got where it is by its own steps. */
    ghost predicate Linked()
      reads this
    {
      && machine.cache == tokenCache
      && machine.now == clock
      && |machine.history| == events
      && machine == Run(start, taken)
    }

    ghost method Take(step: Step)
      requires machine == Run(start, taken) && Enabled(machine, step)
      modifies this`machine, this`taken
      ensures machine == Apply(old(machine), step) && machine == Run(start, taken)
    {
      RunOfSum(start, taken, [step]);
      RunOfOne(machine, step);
      machine, taken := Apply(machine, step), taken + [step];
    }

    /** Serve the cached token or fetch one; the lock is taken at the start and released at the end. */
    method AdminToken(ghost t: TaskId, x: Exchange) returns (token: Option<Token>)
      requires Linked() && PcOf(machine, t).WantToken? && machine.holder.None?
      modifies this
      ensures Linked() && machine.holder.None? && old(machine.history) <= machine.history
      ensures var hit := Lookup(old(tokenCache), old(clock));
              if hit.Some? then token == hit && tokenCache == old(tokenCache) && clock == old(clock)
              else
                && clock == old(clock) + x.fetchTime
                && (if x.reply.None? then token.None? && tokenCache == old(tokenCache)
                    else token == Some(Token(x.reply.value.0, old(events), clock, x.reply.value.1))
                         && tokenCache == Some(Store(token.value)))
      ensures PcOf(machine, t) == if token.Some? then Sending(old(PcOf(machine, t).cleared), token.value) else Finished
    {
      Take(Acquire(t));
      if tokenCache.Some? && tokenCache.value.expiresAt > clock {
        Take(Hit(t));
        events := events + 1;
        return Some(tokenCache.value.token);
      }
      Take(StartFetch(t));
      Take(Tick(x.fetchTime));
      clock := clock + x.fetchTime;
      if x.reply.None? {
        Take(FetchFail(t));
        events := events + 1;
        return None;
      }
      token := Some(Token(x.reply.value.0, events, clock, x.reply.value.1));
      Take(FetchOk(t, x.reply.value.0, x.reply.value.1));
      tokenCache := Some(Store(token.value));
      events := events + 1;
    }

    method ClearCachedToken(ghost t: TaskId)
      requires Linked() && PcOf(machine, t).WantClear? && machine.holder.None?
      modifies this
      ensures Linked() && machine.holder.None? && tokenCache == None && clock == old(clock)
      ensures machine.history == old(machine.history) + [Cleared(t, old(PcOf(machine, t).rejected))]
      ensures PcOf(machine, t) == WantToken(Some(old(events)))
    {
      Take(Clear(t));
      tokenCache := None;
      events := events + 1;
    }

    /** One attempt: obtain a token, send the request with it, and report how it was answered. */
    method SendAdminRequestOnce(ghost t: TaskId, x: Exchange) returns (r: Option<Attempt>)
      requires Linked() && PcOf(machine, t).WantToken? && machine.holder.None?
      modifies this
      ensures Linked() && machine.holder.None? && old(machine.history) <= machine.history
      ensures r.Some? <==> Lookup(old(tokenCache), old(clock)).Some? || x.reply.Some?
      ensures r.None? ==> PcOf(machine, t).Finished?
      ensures r.Some? ==>
        && r.value.unauthorized == x.unauthorized
        && events > old(events)
        && machine.history[events - 1] == Sent(t, old(PcOf(machine, t).cleared), r.value.token, x.unauthorized)
        && PcOf(machine, t) == (if x.unauthorized && old(PcOf(machine, t).cleared).None?
                                then WantClear(r.value.token) else Finished)
    {
      var token := AdminToken(t, x);
      if token.None? {
        return None;
      }
      Take(Answer(t, x.unauthorized));
      events := events + 1;
      return Some(Attempt(token.value, x.unauthorized));
    }

    /**
     A whole request is one run of the machine, and it ends. It is answered exactly if it got a token for
     its first attempt, and another one if that was met with a 401. The answer is that of the last thing
     it sent, which is a second attempt exactly when the first was met with a 401.
     */
    method SendAdminRequest(ghost t: TaskId, first: Exchange, second: Exchange) returns (r: Option<Attempt>)
      requires Linked() && PcOf(machine, t).Idle? && machine.holder.None?
      modifies this
      ensures Linked() && machine.holder.None? && PcOf(machine, t).Finished?
      ensures r.Some? <==> (Lookup(old(tokenCache), old(clock)).Some? || first.reply.Some?)
                           && (first.unauthorized ==> second.reply.Some?)
      ensures r.Some? ==>
        && events > old(events)
        && var e := machine.history[events - 1];
           e.Sent? && e.task == t && e.token == r.value.token && e.unauthorized == r.value.unauthorized
           && (e.cleared.Some? <==> first.unauthorized)
           && r.value.unauthorized == (first.unauthorized && second.unauthorized)
    {
      Take(Begin(t));
      r := SendAdminRequestOnce(t, first);
      if r.None? || !r.value.unauthorized {
        return;
      }
      ClearCachedToken(t);
      r := SendAdminRequestOnce(t, second);
    }
  }
}
