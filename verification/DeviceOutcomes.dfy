/**
 What authorization calls answer, in terms of the call and of the entry it finds; and over
 histories, that the configuration a flow ends with is the one its provider granted.
 */
module DeviceOutcomes {
  import opened Prelude
  import opened DeviceAuth

  // ----- single calls -------------------------------------------------------------------------------

  /** The flow has a live pending entry. */
  predicate Live(s: Store, k: string, now: Time, f: Flow) {
    k in s.pending && s.pending[k].value == f && now < s.pending[k].until
  }

  predicate NotLive(s: Store, k: string, now: Time) { k in s.pending ==> now >= s.pending[k].until }

  /** A device flow begins at the provider's pace, a second at least, may be polled at once, and ends with the provider's lifetime. */
  lemma DeviceFlowStarts(user: string, interval: int, expiresIn: int, now: Time, session: string)
    ensures NewDevice(user, interval, expiresIn, now, session) ==
              Device(user, if interval <= 1 then 1 else interval, 0.0, expiresIn, now + expiresIn as real, session)
  {
  }

  /** A flow begins with its entry stored for the provider's lifetime and a minute, or a quarter of an hour; paste flows for eleven minutes. */
  lemma BeginningStoresTheFlow(s: Store, op: Op)
    requires op.Begin?
    ensures var f := op.flow;
            var kept := if f.Pkce? then 660 else if f.expiresIn > 0 then f.expiresIn + 60 else 900;
            Next(s, op) == Turn(s.(pending := s.pending[op.state := Stored(f, op.now + kept as real)]), Began, Nothing)
  {
  }

  /** Polls that do not reach the provider: what each is answered, and that only a flow past its expiry or without a provider goes. */
  lemma PollsThatDoNotAsk(s: Store, op: Op)
    requires op.Poll?
    ensures NotLive(s, op.state, op.now) ==> Next(s, op) == Turn(s, PollExpired, Nothing)
    ensures forall f :: Live(s, op.state, op.now, f) ==>
              && (f.user != op.user ==> Next(s, op) == Turn(s, WrongUser, Nothing))
              && (f.user == op.user && f.Pkce? ==> Next(s, op) == Turn(s, PollPending(0.0), Nothing))
              && (f.user == op.user && f.Device? ==>
                    var late := f.expiresAt != 0.0 && op.now > f.expiresAt;
                    && (late ==> Next(s, op) == Turn(s.(pending := s.pending - {op.state}), PollExpired, Nothing))
                    && (!late && op.now < f.nextPollAt - 0.5 ==> Next(s, op) == Turn(s, PollPending(f.nextPollAt - op.now), Nothing))
                    && (!late && op.now >= f.nextPollAt - 0.5 && !op.providerKnown ==>
                          Next(s, op) == Turn(s.(pending := s.pending - {op.state}), PollDenied, Nothing)))
  {
  }

  /** The poll reaches the provider: its owner's, of a live device flow, in time and not too soon. */
  predicate Asks(s: Store, op: Op, f: Flow) {
    && op.Poll? && Live(s, op.state, op.now, f) && f.user == op.user && f.Device?
    && (f.expiresAt == 0.0 || op.now <= f.expiresAt) && op.now >= f.nextPollAt - 0.5 && op.providerKnown
  }

  /** A final answer ends the flow; a grant leaves the configuration for its owner, for five minutes. */
  lemma FinalAnswersEndTheFlow(s: Store, op: Op, f: Flow)
    requires Asks(s, op, f) && !op.outcome.StillPending? && !op.outcome.SlowDown?
    ensures var t := Next(s, op);
            && t.effect == AskedPoll(f.interval) && t.store.pending == s.pending - {op.state}
            && t.reply == (match op.outcome
                           case Granted(_) => PollGranted
                           case Expired => PollExpired
                           case _ => PollDenied)
            && t.store.results ==
                 match op.outcome
                 case Granted(config) =>
                   s.results[op.state := Stored(Claimable(op.user, if config.Some? then config.value else ""), op.now + 300.0)]
                 case _ => s.results
  {
  }

  /** A pending answer paces the next poll by the interval in force, a slow-down by five seconds more. */
  lemma PendingAnswersPaceTheFlow(s: Store, op: Op, f: Flow)
    requires Asks(s, op, f) && (op.outcome.StillPending? || op.outcome.SlowDown?)
    ensures var t, slow := Next(s, op), op.outcome.SlowDown?;
            var interval := (if f.interval == 0 then 5 else f.interval) + if slow then 5 else 0;
            && t.effect == AskedPoll(interval) && t.store.results == s.results
            && t.reply == (if slow then PollSlowDown(interval as real) else PollPending(interval as real))
            && t.store.pending == s.pending[op.state := Stored(
                 Device(f.user, interval, op.now + interval as real, f.expiresIn, f.expiresAt,
                        if op.outcome.update.Some? then op.outcome.update.value else f.session),
                 op.now + (if f.expiresIn > 0 then f.expiresIn + 60 else 900) as real)]
  {
  }

  /** Completing a live flow: its owner's pasted redirect is exchanged once, whatever comes of it; nothing else changes anything. */
  lemma PastedRedirectsAreExchanged(s: Store, op: Op, f: Flow)
    requires op.Complete? && Live(s, op.state, op.now, f)
    ensures var mine, pasted := f.user == op.user, op.redirect.Some? && op.redirect.value != "";
            && (!mine ==> Next(s, op) == Turn(s, WrongUser, Nothing))
            && (mine && f.Device? ==> Next(s, op) == Turn(s, NotGrantedYet, Nothing))
            && (mine && f.Pkce? && !pasted ==> Next(s, op) == Turn(s, NeedsRedirect, Nothing))
            && (mine && f.Pkce? && pasted && !op.providerKnown ==> Next(s, op) == Turn(s, NoProvider, Nothing))
            && (mine && f.Pkce? && pasted && op.providerKnown ==>
                  && Next(s, op).store == s.(pending := s.pending - {op.state}) && Next(s, op).effect == AskedExchange
                  && (forall config :: op.outcome == Granted(Some(config)) && config != "" ==> Next(s, op).reply == Completed(config))
                  && ((forall config :: op.outcome == Granted(Some(config)) ==> config == "") ==> Next(s, op).reply == ExchangeFailed))
  {
    if op.outcome.Granted? && op.outcome.config.Some? {
      assert op.outcome == Granted(Some(op.outcome.config.value));
    }
  }

  /** Completing a flow with no live entry: a live grant is claimed by its owner, who gets its configuration, and is then gone. */
  lemma GrantsAreClaimed(s: Store, op: Op)
    requires op.Complete? && NotLive(s, op.state, op.now)
    ensures var live := op.state in s.results && op.now < s.results[op.state].until;
            && (!live ==> Next(s, op) == Turn(s, ExpiredOrInvalid, Nothing))
            && (live && s.results[op.state].value.user != op.user ==> Next(s, op) == Turn(s, WrongUser, Nothing))
            && (live && s.results[op.state].value.user == op.user ==>
                  Next(s, op) == Turn(s.(results := s.results - {op.state}), Completed(s.results[op.state].value.config), Claimed))
  {
  }

  // ----- from the grant to its claim ----------------------------------------------------------------

  /** The i-th call is the poll of `k` that was answered with a grant. */
  ghost predicate GrantedAt(run: seq<Op>, k: string, i: nat) {
    && i < |run| && run[i].Poll? && run[i].state == k && run[i].outcome.Granted?
    && TurnAt(run[..i + 1]).reply == PollGranted
  }

  function ConfigOf(op: Op): string
    requires op.Poll? && op.outcome.Granted?
  {
    match op.outcome.config
    case Some(config) => config
    case None => ""
  }

  /** A stored result is the grant of some poll: its user, its configuration, for three hundred seconds. */
  ghost predicate ResultIsGrant(run: seq<Op>, k: string) {
    k in After(run).results ==> exists i: nat :: Left(run, k, i, After(run).results[k])
  }

  /** The i-th call is such a poll, and left this result. */
  ghost predicate Left(run: seq<Op>, k: string, i: nat, r: Stored<Claimable>) { GrantedAt(run, k, i) && r == GrantOf(run[i]) }

  function GrantOf(op: Op): Stored<Claimable>
    requires op.Poll? && op.outcome.Granted?
  {
    Stored(Claimable(op.user, ConfigOf(op)), op.now + 300.0)
  }

  lemma GrantsOutlastPrefixes(run: seq<Op>, k: string, i: nat, r: Stored<Claimable>)
    requires run != [] && Left(run[..|run| - 1], k, i, r)
    ensures Left(run, k, i, r)
  {
    assert run[..|run| - 1][..i + 1] == run[..i + 1];
    assert run[..|run| - 1][i] == run[i];
  }

  lemma OtherCallsKeepResult(s: Store, op: Op, k: string)
    requires op.state != k || !op.Poll? || Next(s, op).reply != PollGranted
    ensures k in Next(s, op).store.results ==> k in s.results && Next(s, op).store.results[k] == s.results[k]
  {
    hide Repaced;
  }

  lemma GrantStoresResult(s: Store, op: Op)
    requires op.Poll? && Next(s, op).reply == PollGranted
    ensures op.outcome.Granted? && op.state in Next(s, op).store.results
    ensures Next(s, op).store.results[op.state] == GrantOf(op)
    ensures op.state !in Next(s, op).store.pending
  {
  }

  lemma {:induction false} ResultsAreGrants(run: seq<Op>, k: string)
    ensures ResultIsGrant(run, k)
  {
    hide Next, Left;
    if run != [] {
      var front, op := run[..|run| - 1], run[|run| - 1];
      ResultsAreGrants(front, k);
      if op.Poll? && op.state == k && TurnAt(run).reply == PollGranted {
        LastIsLeft(run, k);
      } else {
        OtherCallsKeepResult(After(front), op, k);
        if k in After(run).results {
          var i: nat :| Left(front, k, i, After(front).results[k]);
          GrantsOutlastPrefixes(run, k, i, After(run).results[k]);
        }
      }
    }
  }

  lemma LastIsLeft(run: seq<Op>, k: string)
    requires run != [] && run[|run| - 1].Poll? && run[|run| - 1].state == k && TurnAt(run).reply == PollGranted
    ensures k in After(run).results && Left(run, k, |run| - 1, After(run).results[k])
  {
    hide Next;
    GrantStoresResult(After(run[..|run| - 1]), run[|run| - 1]);
    assert run[..|run| - 1 + 1] == run;
  }

  lemma {:induction false} PrefixIsPossible(run: seq<Op>, n: nat)
    requires Possible(run) && n <= |run|
    ensures Possible(run[..n])
  {
    hide NewDevice;
    if n < |run| {
      PrefixIsPossible(run[..|run| - 1], n);
      assert run[..|run| - 1][..n] == run[..n];
    } else {
      assert run[..n] == run;
    }
  }

  /** The completion is answered with what the granted poll brought, to its user and in time. */
  predicate Claims(t: Turn, op: Op, granted: Op)
    requires granted.Poll? && granted.outcome.Granted? && op.Complete?
  {
    && t.reply == Completed(if granted.outcome.config.Some? then granted.outcome.config.value else "")
    && op.user == granted.user && granted.now <= op.now < granted.now + 300.0
  }

  /** A claim answers the configuration of the poll that was granted, within five minutes of it, to that poll's user. */
  lemma ClaimAnswersTheGrant(run: seq<Op>, k: string)
    requires Possible(run) && run != [] && run[|run| - 1].Complete? && run[|run| - 1].state == k && TurnAt(run).effect == Claimed
    ensures exists i: nat :: GrantedAt(run[..|run| - 1], k, i) && Claims(TurnAt(run), run[|run| - 1], run[i])
  {
    hide Next, Possible;
    var front, op := run[..|run| - 1], run[|run| - 1];
    ResultsAreGrants(front, k);
    ClaimReadsResult(After(front), op);
    var i: nat :| Left(front, k, i, After(front).results[k]);
    assert front[i] == run[i];
    EarlierIsNotLater(run, i);
  }

  lemma EarlierIsNotLater(run: seq<Op>, i: nat)
    requires Possible(run) && i < |run| - 1
    ensures run[i].now <= run[|run| - 1].now
  {
    var front := run[..|run| - 1];
    assert front[i].now <= run[|run| - 1].now;
  }

  lemma ClaimReadsResult(s: Store, op: Op)
    requires op.Complete? && Next(s, op).effect == Claimed
    ensures op.state in s.results && op.now < s.results[op.state].until
    ensures Next(s, op).reply == Completed(s.results[op.state].value.config) && op.user == s.results[op.state].value.user
  {
  }

  /** No flow is granted twice. */
  lemma GrantIsUnique(run: seq<Op>, k: string, i: nat, j: nat)
    requires Possible(run) && GrantedAt(run, k, i) && GrantedAt(run, k, j)
    ensures i == j
  {
    if i < j {
      NoGrantAfter(run, k, i, j);
    } else if j < i {
      NoGrantAfter(run, k, j, i);
    }
  }

  lemma NoGrantAfter(run: seq<Op>, k: string, i: nat, j: nat)
    requires Possible(run) && GrantedAt(run, k, i) && i < j < |run|
    ensures !GrantedAt(run, k, j)
  {
    hide Possible, Track, After, Next;
    var upTo, before := run[..i + 1], run[..j];
    PrefixIsPossible(run, i + 1);
    PrefixIsPossible(run, j);
    GrantEndsPending(run, k, i);
    assert upTo + run[i + 1..j] == before;
    GrantedIsBegun(run, k, i);
    NothingAfterTheEnd(upTo, run[i + 1..j], k);
    assert run[..j + 1][..j] == before;
    if run[j].Poll? && run[j].state == k {
      NotPendingIsNotGranted(After(before), run[j], k);
    }
  }

  lemma GrantEndsPending(run: seq<Op>, k: string, i: nat)
    requires GrantedAt(run, k, i)
    ensures k !in After(run[..i + 1]).pending
    ensures k in After(run[..i + 1]).results
    ensures After(run[..i + 1]).results[k] == GrantOf(run[i])
  {
    hide Next;
    var upTo := run[..i + 1];
    assert upTo[|upTo| - 1] == run[i] && upTo[..|upTo| - 1] == run[..i];
    GrantStoresResult(After(run[..i]), run[i]);
  }

  lemma NotPendingIsNotGranted(s: Store, op: Op, k: string)
    requires op.Poll? && op.state == k && k !in s.pending
    ensures Next(s, op).reply != PollGranted
  {
  }

  lemma GrantedIsBegun(run: seq<Op>, k: string, i: nat)
    requires Possible(run) && GrantedAt(run, k, i)
    ensures Track(run[..i + 1], k).begun.Some?
  {
    var upTo := run[..i + 1];
    PrefixIsPossible(run, i + 1);
    LedgersStayConsistent(upTo, k);
    GrantEndsPending(run, k, i);
    hide After, Track, Possible;
  }

  /** After the grant the result waits for its owner: no call but their own completion touches it. */
  lemma {:induction false} GrantWaits(run: seq<Op>, k: string, i: nat)
    requires Possible(run) && GrantedAt(run, k, i)
    requires forall j :: i < j < |run| && run[j].Complete? && run[j].state == k ==> run[j].user != run[i].user
    ensures k !in After(run).pending && k in After(run).results
    ensures After(run).results[k] == GrantOf(run[i])
  {
    var front := run[..|run| - 1];
    if i == |run| - 1 {
      assert run[..i + 1] == run;
      GrantEndsPending(run, k, i);
    } else {
      assert front[..i + 1] == run[..i + 1] && front[i] == run[i];
      PrefixIsPossible(run, |run| - 1);
      GrantWaits(front, k, i);
      NoSecondBeginning(run, k, i);
      hide After, Possible, GrantedAt;
      WaitingIsLeft(After(front), run[|run| - 1], k);
      AfterOneMore(run);
    }
  }

  lemma AfterOneMore(run: seq<Op>)
    requires run != []
    ensures After(run) == Next(After(run[..|run| - 1]), run[|run| - 1]).store
  {
  }

  lemma NoSecondBeginning(run: seq<Op>, k: string, i: nat)
    requires Possible(run) && GrantedAt(run, k, i) && i < |run| - 1
    ensures !(run[|run| - 1].Begin? && run[|run| - 1].state == k)
  {
    GrantedIsBegun(run, k, i);
    PrefixIsPossible(run, i + 1);
    LedgersStayConsistent(run[..i + 1], k);
    var b :| 0 <= b < i + 1 && Begins(run[..i + 1][b], k);
    var front := run[..|run| - 1];
    assert front[b] == run[..i + 1][b];
  }

  lemma WaitingIsLeft(s: Store, op: Op, k: string)
    requires k !in s.pending && k in s.results && !(op.Begin? && op.state == k)
    requires op.Complete? && op.state == k ==> op.user != s.results[k].value.user
    ensures k !in Next(s, op).store.pending && k in Next(s, op).store.results && Next(s, op).store.results[k] == s.results[k]
  {
    hide Repaced;
  }

  /**
   The way of a grant.  In every history, the first completion its owner calls within five
   minutes of the poll that was granted is answered with the granted configuration; and, by
   `ClaimAnswersTheGrant` and `GrantIsUnique`, nothing else ever is.
   */
  lemma FirstCompletionClaims(run: seq<Op>, k: string, i: nat)
    requires Possible(run) && i < |run| - 1 && GrantedAt(run[..|run| - 1], k, i)
    requires run[|run| - 1].Complete? && run[|run| - 1].state == k && run[|run| - 1].user == run[i].user
    requires run[|run| - 1].now < run[i].now + 300.0
    requires forall j :: i < j < |run| - 1 && run[j].Complete? && run[j].state == k ==> run[j].user != run[i].user
    ensures TurnAt(run).reply == Completed(if run[i].outcome.config.Some? then run[i].outcome.config.value else "")
    ensures TurnAt(run).effect == Claimed && k !in After(run).results
  {
    var front := run[..|run| - 1];
    PrefixIsPossible(run, |run| - 1);
    GrantWaits(front, k, i);
    GrantsAreClaimed(After(front), run[|run| - 1]);
    AfterOneMore(run);
    hide Next, Possible, GrantedAt, After;
  }
}
