/**
 The device-authorization and paste-redirect flows: a timed state machine over the pending
 and result entries of a key-value store with expiry (section 3.5 of RFC 8628 for the
 pacing).  Each call reads the clock once, and calls do not overlap.
 */
module DeviceAuth {
  import opened Prelude

  type Time = real

  const SKEW: real := 0.5
  const RESULT_TTL: int := 300

  datatype Flow =
    | Device(user: string, interval: int, nextPollAt: Time, expiresIn: int, expiresAt: Time, session: string)
    | Pkce(user: string, session: string)

  datatype Stored<T> = Stored(value: T, until: Time)

  datatype Claimable = Claimable(user: string, config: string)

  datatype Store = Store(pending: map<string, Stored<Flow>>, results: map<string, Stored<Claimable>>)

  /** What the provider hook answers; `Raised` stands for any exception. */
  datatype Outcome =
    | Raised
    | StillPending(update: Option<string>) | SlowDown(update: Option<string>)
    | Expired | Denied | Granted(config: Option<string>)

  datatype Op =
    | Begin(state: string, flow: Flow, now: Time)
    | Poll(state: string, user: string, now: Time, providerKnown: bool, outcome: Outcome)
    | Complete(state: string, user: string, now: Time, redirect: Option<string>, providerKnown: bool, outcome: Outcome)

  datatype Reply =
    | Began
    | PollPending(retryAfter: Time) | PollSlowDown(retryAfter: Time) | PollGranted | PollExpired | PollDenied
    | Completed(config: string)
    | WrongUser | NotGrantedYet | NeedsRedirect | NoProvider | ExchangeFailed | ExpiredOrInvalid

  /** What a call did outside the store: asked the provider to poll, or to exchange a code. */
  datatype Effect = Nothing | AskedPoll(interval: int) | AskedExchange | Claimed

  datatype Turn = Turn(store: Store, reply: Reply, effect: Effect)

  function MaxOne(i: int): int { if i < 1 then 1 else i }

  function TtlOf(expiresIn: int): int { if expiresIn > 0 then expiresIn + 60 else 900 }

  function ExpiresIn(f: Flow): int { if f.Device? then f.expiresIn else 600 }

  function Put(s: Store, state: string, f: Flow, now: Time): Store {
    s.(pending := s.pending[state := Stored(f, now + TtlOf(ExpiresIn(f)) as real)])
  }

  function Drop(s: Store, state: string): Store {
    s.(pending := s.pending - {state})
  }

  /** `_load_pending`: an entry past its lifetime is gone. */
  function Load(s: Store, state: string, now: Time): Option<Flow> {
    if state in s.pending && now < s.pending[state].until then Some(s.pending[state].value) else None
  }

  function LoadResult(s: Store, state: string, now: Time): Option<Claimable> {
    if state in s.results && now < s.results[state].until then Some(s.results[state].value) else None
  }

  function NewDevice(user: string, interval: int, expiresIn: int, now: Time, session: string): Flow {
    Device(user, MaxOne(interval), 0.0, expiresIn, now + expiresIn as real, session)
  }

  /** The pacing a pending or slow-down answer leaves behind. */
  function Repaced(f: Flow, now: Time, slow: bool, update: Option<string>): Flow
    requires f.Device?
  {
    var interval := (if f.interval == 0 then 5 else f.interval) + (if slow then 5 else 0);
    f.(interval := interval, nextPollAt := now + interval as real,
       session := if update.Some? then update.value else f.session)
  }

  function PollTurn(s: Store, op: Op): Turn
    requires op.Poll?
  {
    var f := Load(s, op.state, op.now);
    if f.None? then Turn(s, PollExpired, Nothing)
    else if f.value.user != op.user then Turn(s, WrongUser, Nothing)
    else if f.value.Pkce? then Turn(s, PollPending(0.0), Nothing)
    else if f.value.expiresAt != 0.0 && op.now > f.value.expiresAt then Turn(Drop(s, op.state), PollExpired, Nothing)
    else if op.now < f.value.nextPollAt - SKEW then
      Turn(s, PollPending(if f.value.nextPollAt - op.now > 0.0 then f.value.nextPollAt - op.now else 0.0), Nothing)
    else if !op.providerKnown then Turn(Drop(s, op.state), PollDenied, Nothing)
    else
      match op.outcome
      case Raised => Turn(Drop(s, op.state), PollDenied, AskedPoll(f.value.interval))
      case Expired => Turn(Drop(s, op.state), PollExpired, AskedPoll(f.value.interval))
      case Denied => Turn(Drop(s, op.state), PollDenied, AskedPoll(f.value.interval))
      case Granted(config) =>
        var result := Claimable(op.user, if config.Some? then config.value else "");
        Turn(Drop(s, op.state).(results := s.results[op.state := Stored(result, op.now + RESULT_TTL as real)]),
             PollGranted, AskedPoll(f.value.interval))
      case StillPending(update) =>
        var g := Repaced(f.value, op.now, false, update);
        Turn(Put(s, op.state, g, op.now), PollPending(g.interval as real), AskedPoll(g.interval))
      case SlowDown(update) =>
        var g := Repaced(f.value, op.now, true, update);
        Turn(Put(s, op.state, g, op.now), PollSlowDown(g.interval as real), AskedPoll(g.interval))
  }

  function CompleteTurn(s: Store, op: Op): Turn
    requires op.Complete?
  {
    var f := Load(s, op.state, op.now);
    if f.Some? then
      if f.value.user != op.user then Turn(s, WrongUser, Nothing)
      else if f.value.Device? then Turn(s, NotGrantedYet, Nothing)
      else if !Truthy(op.redirect) then Turn(s, NeedsRedirect, Nothing)
      else if !op.providerKnown then Turn(s, NoProvider, Nothing)
      else if op.outcome.Granted? && Truthy(op.outcome.config) then
        Turn(Drop(s, op.state), Completed(op.outcome.config.value), AskedExchange)
      else Turn(Drop(s, op.state), ExchangeFailed, AskedExchange)
    else
      var r := LoadResult(s, op.state, op.now);
      if r.None? then Turn(s, ExpiredOrInvalid, Nothing)
      else if r.value.user != op.user then Turn(s, WrongUser, Nothing)
      else Turn(s.(results := s.results - {op.state}), Completed(r.value.config), Claimed)
  }

  function Next(s: Store, op: Op): Turn {
    match op
    case Begin(state, flow, now) => Turn(Put(s, state, flow, now), Began, Nothing)
    case Poll(_, _, _, _, _) => PollTurn(s, op)
    case Complete(_, _, _, _, _, _) => CompleteTurn(s, op)
  }

  // ----- the service ------------------------------------------------------------------------------

  class Service {
    var pending: map<string, Stored<Flow>>
    var results: map<string, Stored<Claimable>>

    function State(): Store
      reads this
    {
      Store(pending, results)
    }

    constructor ()
      ensures State() == Store(map[], map[])
    {
      pending, results := map[], map[];
    }

    method StorePending(state: string, f: Flow, now: Time)
      modifies this`pending
      ensures State() == Put(old(State()), state, f, now)
    {
      var ttl := if ExpiresIn(f) > 0 then ExpiresIn(f) + 60 else 900;
      pending := pending[state := Stored(f, now + ttl as real)];
    }

    method BeginDevice(state: string, user: string, interval: int, expiresIn: int, session: string, now: Time)
      modifies this`pending
      ensures State() == Next(old(State()), Begin(state, NewDevice(user, interval, expiresIn, now, session), now)).store
      ensures state in pending && pending[state].value.interval >= 1 && pending[state].value.interval >= interval
    {
      StorePending(state, Device(user, if interval < 1 then 1 else interval, 0.0, expiresIn, now + expiresIn as real, session), now);
    }

    method BeginPkce(state: string, user: string, session: string, now: Time)
      modifies this`pending
      ensures State() == Next(old(State()), Begin(state, Pkce(user, session), now)).store
    {
      StorePending(state, Pkce(user, session), now);
    }

    /** `poll_flow`. */
    method PollFlow(op: Op) returns (reply: Reply, ghost effect: Effect)
      requires op.Poll?
      modifies this
      ensures Turn(State(), reply, effect) == Next(old(State()), op)
    {
      effect := Nothing;
      var loaded := Load(State(), op.state, op.now);
      if loaded.None? {
        return PollExpired, effect;
      }
      var f := loaded.value;
      if f.user != op.user {
        return WrongUser, effect;
      }
      if f.Pkce? {
        return PollPending(0.0), effect;
      }
      if f.expiresAt != 0.0 && op.now > f.expiresAt {
        pending := pending - {op.state};
        return PollExpired, effect;
      }
      if op.now < f.nextPollAt - SKEW {
        var wait := f.nextPollAt - op.now;
        return PollPending(if wait > 0.0 then wait else 0.0), effect;
      }
      if !op.providerKnown {
        pending := pending - {op.state};
        return PollDenied, effect;
      }
      effect := AskedPoll(f.interval);
      if op.outcome.Raised? || op.outcome.Denied? {
        pending := pending - {op.state};
        return PollDenied, effect;
      }
      if op.outcome.Granted? {
        pending := pending - {op.state};
        var config := if op.outcome.config.Some? then op.outcome.config.value else "";
        results := results[op.state := Stored(Claimable(op.user, config), op.now + RESULT_TTL as real)];
        return PollGranted, effect;
      }
      if op.outcome.Expired? {
        pending := pending - {op.state};
        return PollExpired, effect;
      }
      var interval := if f.interval == 0 then 5 else f.interval;
      if op.outcome.SlowDown? {
        interval := interval + 5;
      }
      f := f.(interval := interval);
      f := f.(nextPollAt := op.now + interval as real);
      if op.outcome.update.Some? {
        f := f.(session := op.outcome.update.value);
      }
      StorePending(op.state, f, op.now);
      effect := AskedPoll(interval);
      return if op.outcome.SlowDown? then PollSlowDown(interval as real) else PollPending(interval as real), effect;
    }

    /** `complete_flow`. */
    method CompleteFlow(op: Op) returns (reply: Reply, ghost effect: Effect)
      requires op.Complete?
      modifies this
      ensures Turn(State(), reply, effect) == Next(old(State()), op)
    {
      effect := Nothing;
      var loaded := Load(State(), op.state, op.now);
      if loaded.Some? {
        if loaded.value.user != op.user {
          return WrongUser, effect;
        }
        if loaded.value.Device? {
          return NotGrantedYet, effect;
        }
        if !Truthy(op.redirect) {
          return NeedsRedirect, effect;
        }
        if !op.providerKnown {
          return NoProvider, effect;
        }
        pending := pending - {op.state};
        effect := AskedExchange;
        if !op.outcome.Granted? || !Truthy(op.outcome.config) {
          return ExchangeFailed, effect;
        }
        return Completed(op.outcome.config.value), effect;
      }
      var result := LoadResult(State(), op.state, op.now);
      if result.None? {
        return ExpiredOrInvalid, effect;
      }
      if result.value.user != op.user {
        return WrongUser, effect;
      }
      results := results - {op.state};
      effect := Claimed;
      return Completed(result.value.config), effect;
    }
  }

  // ----- histories ---------------------------------------------------------------------------------

  ghost function After(run: seq<Op>): Store {
    if run == [] then Store(map[], map[]) else Next(After(run[..|run| - 1]), run[|run| - 1]).store
  }

  ghost function TurnAt(run: seq<Op>): Turn
    requires run != []
  {
    Next(After(run[..|run| - 1]), run[|run| - 1])
  }

  ghost predicate Begins(op: Op, k: string) { op.Begin? && op.state == k }

  /** Flow states are never reused, flows begin as `begin_flow` builds them, and time passes forward. */
  ghost predicate Possible(run: seq<Op>) {
    run != [] ==>
      var front, op := run[..|run| - 1], run[|run| - 1];
      && Possible(front)
      && (forall i :: 0 <= i < |front| ==> front[i].now <= op.now)
      && (op.Begin? ==>
            && (forall i :: 0 <= i < |front| ==> !Begins(front[i], op.state))
            && (op.flow.Device? ==> op.flow.expiresAt != 0.0 && exists interval, session ::
                  op.flow == NewDevice(op.flow.user, interval, op.flow.expiresIn, op.now, session)))
  }

  /** One request to the provider for a flow: when, and the interval in force afterwards. */
  datatype Call = Call(at: Time, interval: int)

  /** What happened to one flow in a run. */
  datatype Ledger = Ledger(begun: Option<Op>, calls: seq<Call>, slowDowns: nat, grants: nat, claims: nat, exchanges: nat)

  /** How one turn on flow `k` changes its ledger. */
  ghost function Posted(l: Ledger, op: Op, t: Turn): Ledger {
    if op.Begin? then l.(begun := Some(op))
    else if t.effect.AskedPoll? && op.Poll? then
      l.(calls := l.calls + [Call(op.now, t.effect.interval)],
         slowDowns := l.slowDowns + (if op.outcome.SlowDown? then 1 else 0),
         grants := l.grants + (if op.outcome.Granted? then 1 else 0))
    else if t.effect.Claimed? then l.(claims := l.claims + 1)
    else if t.effect.AskedExchange? then l.(exchanges := l.exchanges + 1)
    else l
  }

  ghost function Track(run: seq<Op>, k: string): Ledger {
    if run == [] then Ledger(None, [], 0, 0, 0, 0)
    else
      var l, op := Track(run[..|run| - 1], k), run[|run| - 1];
      if op.state != k then l else Posted(l, op, TurnAt(run))
  }

  /** The interval a flow starts with. */
  ghost function FirstInterval(l: Ledger): int {
    if l.begun.Some? && l.begun.value.Begin? && l.begun.value.flow.Device? then l.begun.value.flow.interval else 1
  }

  /** Consecutive requests are an interval apart, less the clock skew. */
  ghost predicate Spaced(calls: seq<Call>) {
    forall i :: 0 < i < |calls| ==> calls[i].at - calls[i - 1].at >= calls[i - 1].interval as real - SKEW
  }

  /** The ledger of one flow, and what the store still holds for it. */
  ghost predicate Consistent(s: Store, l: Ledger, k: string) {
    && (l.begun.None? ==> l == Ledger(None, [], 0, 0, 0, 0) && k !in s.pending && k !in s.results)
    && (l.begun.Some? ==>
          && l.begun.value.Begin?
          && var f := l.begun.value.flow;
          && (f.Device? ==> f.interval >= 1 && f.expiresAt != 0.0 && f.expiresAt == l.begun.value.now + f.expiresIn as real && f.nextPollAt == 0.0)
          && (f.Pkce? ==> l.calls == [] && l.grants == 0)
          && (k in s.pending ==>
                var g := s.pending[k].value;
                && g.user == f.user && (g.Device? <==> f.Device?) && l.grants == 0 && l.claims == 0 && l.exchanges == 0 && k !in s.results
                && (g.Device? ==>
                      && g.expiresAt == f.expiresAt
                      && g.interval == f.interval + 5 * l.slowDowns
                      && (l.calls != [] ==> l.calls[|l.calls| - 1].interval == g.interval
                                            && g.nextPollAt == l.calls[|l.calls| - 1].at + g.interval as real)))
          && (k in s.results ==> s.results[k].value.user == f.user && l.grants == 1 && l.claims == 0))
    && l.grants <= 1 && l.claims <= l.grants && l.exchanges <= 1
  }

  ghost predicate Paced(l: Ledger) {
    && Spaced(l.calls)
    && (forall i :: 0 <= i < |l.calls| ==> l.calls[i].interval >= FirstInterval(l))
    && (l.calls != [] ==>
          && l.begun.Some? && l.begun.value.Begin? && l.begun.value.flow.Device?
          && l.calls[0].at >= l.begun.value.now
          && l.calls[|l.calls| - 1].at <= l.begun.value.flow.expiresAt)
  }

  lemma PollKeepsLedger(s: Store, l: Ledger, op: Op, k: string)
    requires op.Poll? && op.state == k && Consistent(s, l, k) && Paced(l)
    requires l.begun.Some? ==> l.begun.value.now <= op.now
    ensures var t := Next(s, op); Consistent(t.store, Posted(l, op, t), k) && Paced(Posted(l, op, t))
  {
    PollKeepsConsistent(s, l, op, k);
    PollKeepsPaced(s, l, op, k);
  }

  lemma PollKeepsConsistent(s: Store, l: Ledger, op: Op, k: string)
    requires op.Poll? && op.state == k && Consistent(s, l, k)
    ensures var t := Next(s, op); Consistent(t.store, Posted(l, op, t), k)
  {
  }

  lemma PollKeepsPaced(s: Store, l: Ledger, op: Op, k: string)
    requires op.Poll? && op.state == k && Consistent(s, l, k) && Paced(l)
    requires l.begun.Some? ==> l.begun.value.now <= op.now
    ensures Paced(Posted(l, op, Next(s, op)))
  {
    var t := Next(s, op);
    if t.effect.AskedPoll? {
      AskedInTime(s, l, op, k);
      hide Next, Consistent;
      PacedWithOneMore(l, Posted(l, op, t), Call(op.now, t.effect.interval));
    }
  }

  /** A request to the provider comes within the flow's lifetime, an interval after the last. */
  lemma AskedInTime(s: Store, l: Ledger, op: Op, k: string)
    requires op.Poll? && op.state == k && Consistent(s, l, k) && Next(s, op).effect.AskedPoll?
    ensures l.begun.Some? && l.begun.value.Begin? && l.begun.value.flow.Device? && op.now <= l.begun.value.flow.expiresAt
    ensures Next(s, op).effect.interval >= FirstInterval(l)
    ensures l.calls != [] ==> op.now - l.calls[|l.calls| - 1].at >= l.calls[|l.calls| - 1].interval as real - SKEW
  {
  }

  lemma PacedWithOneMore(l: Ledger, m: Ledger, c: Call)
    requires Paced(l) && m.begun == l.begun && m.calls == l.calls + [c] && c.interval >= FirstInterval(l)
    requires l.begun.Some? && l.begun.value.Begin? && l.begun.value.flow.Device?
    requires l.begun.value.now <= c.at <= l.begun.value.flow.expiresAt
    requires l.calls != [] ==> c.at - l.calls[|l.calls| - 1].at >= l.calls[|l.calls| - 1].interval as real - SKEW
    ensures Paced(m)
  {
  }

  lemma CompleteKeepsLedger(s: Store, l: Ledger, op: Op, k: string)
    requires op.Complete? && op.state == k && Consistent(s, l, k) && Paced(l)
    ensures var t := Next(s, op); Consistent(t.store, Posted(l, op, t), k) && Paced(Posted(l, op, t))
  {
  }

  lemma BeginKeepsLedger(s: Store, l: Ledger, op: Op, k: string)
    requires op.Begin? && op.state == k && Consistent(s, l, k) && l.begun.None?
    requires op.flow.Device? ==> op.flow.expiresAt != 0.0 && exists interval, session ::
               op.flow == NewDevice(op.flow.user, interval, op.flow.expiresIn, op.now, session)
    ensures Consistent(Next(s, op).store, l.(begun := Some(op)), k) && Paced(l.(begun := Some(op)))
  {
  }

  lemma OtherFlowsKeepLedger(s: Store, l: Ledger, op: Op, k: string)
    requires op.state != k && Consistent(s, l, k)
    ensures Consistent(Next(s, op).store, l, k)
  {
    hide Repaced;
    var d := Next(s, op).store;
    assert (k in d.pending <==> k in s.pending) && (k in d.pending ==> d.pending[k] == s.pending[k]);
    assert (k in d.results <==> k in s.results) && (k in d.results ==> d.results[k] == s.results[k]);
  }

  /** Every flow's ledger agrees with the store, and its requests keep their distance. */
  lemma {:induction false} LedgersStayConsistent(run: seq<Op>, k: string)
    requires Possible(run)
    ensures Consistent(After(run), Track(run, k), k) && Paced(Track(run, k))
    ensures Track(run, k).begun.Some? <==> exists i :: 0 <= i < |run| && Begins(run[i], k)
    ensures Track(run, k).begun.Some? ==> exists i :: 0 <= i < |run| && run[i] == Track(run, k).begun.value
  {
    hide Consistent, Paced, Next, NewDevice;
    if run == [] {
      NothingYet(k);
    } else {
      var front, op := run[..|run| - 1], run[|run| - 1];
      LedgersStayConsistent(front, k);
      var s, l, t := After(front), Track(front, k), TurnAt(run);
      assert forall i :: 0 <= i < |front| ==> front[i] == run[i];
      if l.begun.Some? {
        var i :| 0 <= i < |front| && front[i] == l.begun.value;
        assert front[i].now <= op.now;
        assert run[i] == l.begun.value;
      }
      if op.state != k {
        OtherFlowsKeepLedger(s, l, op, k);
      } else if op.Begin? {
        assert Begins(run[|run| - 1], k);
        BeginKeepsLedger(s, l, op, k);
      } else if op.Poll? {
        PollKeepsLedger(s, l, op, k);
      } else {
        CompleteKeepsLedger(s, l, op, k);
      }
    }
  }

  lemma NothingYet(k: string)
    ensures Consistent(After([]), Track([], k), k) && Paced(Track([], k))
  {
  }

  lemma {:induction false} SpacedCallsTakeTime(calls: seq<Call>, least: int)
    requires Spaced(calls) && calls != [] && least >= 1
    requires forall i :: 0 <= i < |calls| ==> calls[i].interval >= least
    ensures calls[|calls| - 1].at - calls[0].at >= (|calls| - 1) as real * (least as real - SKEW)
  {
    if |calls| > 1 {
      var n := |calls| - 1;
      SpacedCallsTakeTime(calls[..n], least);
      assert calls[n].at - calls[n - 1].at >= least as real - SKEW;
      assert (n - 1) as real * (least as real - SKEW) + (least as real - SKEW) == n as real * (least as real - SKEW);
    }
  }

  /**
   The polling bound.  In every history the requests made for a device flow start at its
   beginning, are spaced by the interval in force less half a second, number at most one
   more than its lifetime holds of the initial interval less half a second, and the stored
   interval has grown by five for every slow-down.
   */
  lemma PollingIsBounded(run: seq<Op>, k: string)
    requires Possible(run)
    ensures var l := Track(run, k);
            && Spaced(l.calls)
            && (l.calls != [] ==>
                  && l.begun.Some? && l.begun.value.Begin? && l.begun.value.flow.Device?
                  && (|l.calls| - 1) as real * (FirstInterval(l) as real - SKEW) <= l.begun.value.flow.expiresIn as real)
            && (l.begun.Some? && k in After(run).pending && After(run).pending[k].value.Device? ==>
                  After(run).pending[k].value.interval == FirstInterval(l) + 5 * l.slowDowns)
  {
    hide After, Track;
    LedgersStayConsistent(run, k);
    if Track(run, k).calls != [] {
      CallsFitInLifetime(After(run), Track(run, k), k);
    }
  }

  lemma CallsFitInLifetime(s: Store, l: Ledger, k: string)
    requires Consistent(s, l, k) && Paced(l) && l.calls != []
    ensures (|l.calls| - 1) as real * (FirstInterval(l) as real - SKEW) <= l.begun.value.flow.expiresIn as real
  {
    SpacedCallsTakeTime(l.calls, FirstInterval(l));
    hide Spaced;
    assert l.calls[|l.calls| - 1].at - l.calls[0].at <= l.begun.value.flow.expiresIn as real;
  }

  /**
   Terminal answers are final: once a flow has been granted, refused or has expired -- its
   pending entry is gone -- no later history makes another request or exchange for it.
   */
  lemma {:induction false} NothingAfterTheEnd(run: seq<Op>, more: seq<Op>, k: string)
    requires Possible(run + more) && Possible(run)
    requires Track(run, k).begun.Some? && k !in After(run).pending
    ensures k !in After(run + more).pending
    ensures Track(run + more, k).calls == Track(run, k).calls && Track(run + more, k).exchanges == Track(run, k).exchanges
  {
    if more == [] {
      assert run + more == run;
    } else {
      var all := run + more;
      var front := more[..|more| - 1];
      assert all[..|all| - 1] == run + front;
      NothingAfterTheEnd(run, front, k);
      LedgersStayConsistent(run, k);
      var i :| 0 <= i < |run| && Begins(run[i], k);
      assert (run + front)[i] == run[i];
      EndIsKept(After(run + front), all[|all| - 1], k);
    }
  }

  lemma EndIsKept(s: Store, op: Op, k: string)
    requires k !in s.pending && !(op.Begin? && op.state == k)
    ensures k !in Next(s, op).store.pending
    ensures op.state == k ==> !Next(s, op).effect.AskedPoll? && !Next(s, op).effect.AskedExchange?
  {
  }

  /** A grant is claimed at most once, and only by the user who began the flow. */
  lemma GrantIsClaimedOnceByItsOwner(run: seq<Op>, k: string)
    requires Possible(run)
    ensures var l := Track(run, k); l.claims <= l.grants <= 1 && l.exchanges <= 1
    ensures run != [] && run[|run| - 1].state == k && TurnAt(run).effect.Claimed? ==>
              && Track(run, k).begun.Some? && Track(run, k).begun.value.Begin?
              && run[|run| - 1].Complete? && run[|run| - 1].user == Track(run, k).begun.value.flow.user
              && Track(run[..|run| - 1], k).claims == 0
  {
    LedgersStayConsistent(run, k);
    if run != [] {
      LedgersStayConsistent(run[..|run| - 1], k);
    }
  }
}
