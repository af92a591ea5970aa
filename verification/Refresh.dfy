/**
  The operator's refresh button under contention. Any number of HTTP handlers share one word (the time of the
  last accepted request, plus one), one pending flag and one channel with a single consumer, the service loop.
  Every step below is one atomic operation of one participant, and steps interleave freely.
*/
module Refresh {
  import opened Prelude

  /** A refresh request, or any other operator command: both pay the cooldown. */
  datatype Kind = RefreshRequest | Command

  datatype Reply =
    | Coalesced
    | Accepted
    | Admitted
    | RateLimited(retryAfterMs: nat)

  /** Where a handler stands. `seen` counts the requests accepted before its load; the program does not hold it. */
  datatype Handler =
    | BeforeFlagLoad
    | BeforeClock(kind: Kind)
    | BeforeWordLoad(kind: Kind, now: nat)
    | BeforeExchange(kind: Kind, now: nat, last: nat, seen: nat)
    | BeforeSwap
    | BeforeSend
    | Replied(reply: Reply)

  /** Where the service loop stands. */
  datatype Consumer = Top | Ticking | Selecting | Received | ChannelDrained | Stopped

  datatype System = System(
    handlers: map<nat, Handler>,
    pending: bool,
    word: nat,
    channel: nat,
    consumer: Consumer,
    ticks: nat,
    clock: nat,
    accepted: seq<nat>)

  datatype Action =
    | Arrive(id: nat, kind: Kind)
    | LoadFlag(id: nat)
    | ReadClock(id: nat)
    | LoadWord(id: nat)
    | Exchange(id: nat)
    | Swap(id: nat)
    | Send(id: nat)
    | BeginTick
    | EndTick
    | Receive
    | TryReceive
    | ClearFlag
    | OtherWake
    | Shutdown
    | Advance(ms: nat)

  const INITIAL := System(map[], false, 0, 0, Top, 0, 0, [])

  predicate Enabled(s: System, a: Action) {
    match a
    case Arrive(id, _) => id !in s.handlers
    case LoadFlag(id) => id in s.handlers && s.handlers[id].BeforeFlagLoad?
    case ReadClock(id) => id in s.handlers && s.handlers[id].BeforeClock?
    case LoadWord(id) => id in s.handlers && s.handlers[id].BeforeWordLoad?
    case Exchange(id) => id in s.handlers && s.handlers[id].BeforeExchange?
    case Swap(id) => id in s.handlers && s.handlers[id].BeforeSwap?
    case Send(id) => id in s.handlers && s.handlers[id].BeforeSend?
    case BeginTick => s.consumer.Top?
    case EndTick => s.consumer.Ticking?
    case Receive => s.consumer.Selecting? && s.channel > 0
    case TryReceive => s.consumer.Received?
    case ClearFlag => s.consumer.ChannelDrained?
    case OtherWake => s.consumer.Selecting?
    case Shutdown => s.consumer.Selecting?
    case Advance(ms) => s.clock + ms < U64_MAX
  }

  function At(s: System, id: nat, h: Handler): System {
    s.(handlers := s.handlers[id := h])
  }

  /** The decision of `claim_refresh_cooldown` after its load, and the compare-and-exchange if it gets there. */
  function AfterExchange(s: System, id: nat, cooldown: nat): System
    requires id in s.handlers && s.handlers[id].BeforeExchange?
  {
    var h := s.handlers[id];
    var elapsed := if h.last == 0 then 0 else SaturatingSub(h.now, h.last - 1);
    if h.last != 0 && elapsed < cooldown then At(s, id, Replied(RateLimited(cooldown - elapsed)))
    else if s.word != h.last then At(s, id, BeforeWordLoad(h.kind, h.now))
    else
      var next := if h.kind.RefreshRequest? then BeforeSwap else Replied(Admitted);
      At(s, id, next).(word := SaturatingAdd(h.now, 1, U64_MAX), accepted := s.accepted + [h.now])
  }

  function Apply(s: System, a: Action, cooldown: nat): System
    requires Enabled(s, a)
  {
    match a
    case Arrive(id, kind) => At(s, id, if kind.RefreshRequest? then BeforeFlagLoad else BeforeClock(Command))
    case LoadFlag(id) => At(s, id, if s.pending then Replied(Coalesced) else BeforeClock(RefreshRequest))
    case ReadClock(id) => At(s, id, BeforeWordLoad(s.handlers[id].kind, s.clock))
    case LoadWord(id) =>
      At(s, id, BeforeExchange(s.handlers[id].kind, s.handlers[id].now, s.word, |s.accepted|))
    case Exchange(id) => AfterExchange(s, id, cooldown)
    case Swap(id) => At(s, id, if s.pending then Replied(Coalesced) else BeforeSend).(pending := true)
    case Send(id) => At(s, id, Replied(Accepted)).(channel := s.channel + 1)
    case BeginTick => s.(consumer := Ticking, ticks := s.ticks + 1)
    case EndTick => s.(consumer := Selecting)
    case Receive => s.(consumer := Received, channel := s.channel - 1)
    case TryReceive => if s.channel > 0 then s.(channel := s.channel - 1) else s.(consumer := ChannelDrained)
    case ClearFlag => s.(consumer := Top, pending := false)
    case OtherWake => s.(consumer := Top)
    case Shutdown => s.(consumer := Stopped)
    case Advance(ms) => s.(clock := s.clock + ms)
  }

  // ---- Runs

  predicate IsRun(states: seq<System>, actions: seq<Action>, cooldown: nat) {
    && |states| == |actions| + 1
    && states[0] == INITIAL
    && forall i :: 0 <= i < |actions| ==>
         Enabled(states[i], actions[i]) && states[i + 1] == Apply(states[i], actions[i], cooldown)
  }

  // ---- The cooldown

  /** The word as it stood after `n` acceptances. */
  function WordAfter(accepted: seq<nat>, n: nat): nat
    requires n <= |accepted|
  {
    if n == 0 then 0 else accepted[n - 1] + 1
  }

  predicate Spaced(accepted: seq<nat>, cooldown: nat) {
    forall i, j :: 0 <= i < j < |accepted| ==> accepted[i] + cooldown <= accepted[j]
  }

  predicate HandlerInv(s: System, h: Handler) {
    match h
    case BeforeWordLoad(_, now) => now <= s.clock
    case BeforeExchange(_, now, last, seen) =>
      now <= s.clock && seen <= |s.accepted| && last == WordAfter(s.accepted, seen)
    case _ => true
  }

  predicate CooldownInv(s: System, cooldown: nat) {
    && s.clock < U64_MAX
    && Spaced(s.accepted, cooldown)
    && s.word == WordAfter(s.accepted, |s.accepted|)
    && forall id :: id in s.handlers ==> HandlerInv(s, s.handlers[id])
  }

  lemma ExchangeKeepsCooldown(s: System, id: nat, cooldown: nat)
    requires CooldownInv(s, cooldown) && cooldown > 0
    requires id in s.handlers && s.handlers[id].BeforeExchange?
    ensures CooldownInv(AfterExchange(s, id, cooldown), cooldown)
  {
    var h := s.handlers[id];
    var t := AfterExchange(s, id, cooldown);
    assert HandlerInv(s, h);
    if t.accepted != s.accepted {
      assert t.accepted == s.accepted + [h.now];
      assert s.accepted != [] ==> s.accepted[|s.accepted| - 1] + cooldown <= h.now;
      assert forall n :: 0 <= n <= |s.accepted| ==> WordAfter(t.accepted, n) == WordAfter(s.accepted, n);
    }
    forall k | k in t.handlers
      ensures HandlerInv(t, t.handlers[k])
    {
      if k != id {
        assert HandlerInv(s, s.handlers[k]);
      }
    }
  }

  lemma StepKeepsCooldown(s: System, a: Action, cooldown: nat)
    requires CooldownInv(s, cooldown) && cooldown > 0 && Enabled(s, a)
    ensures CooldownInv(Apply(s, a, cooldown), cooldown)
  {
    if a.Exchange? {
      ExchangeKeepsCooldown(s, a.id, cooldown);
    } else {
      var t := Apply(s, a, cooldown);
      forall k | k in t.handlers
        ensures HandlerInv(t, t.handlers[k])
      {
        if k in s.handlers {
          assert HandlerInv(s, s.handlers[k]);
        }
      }
    }
  }

  lemma {:induction false} RunKeepsCooldown(states: seq<System>, actions: seq<Action>, cooldown: nat, i: nat)
    requires IsRun(states, actions, cooldown) && cooldown > 0 && i < |states|
    ensures CooldownInv(states[i], cooldown)
  {
    if i > 0 {
      RunKeepsCooldown(states, actions, cooldown, i - 1);
      StepKeepsCooldown(states[i - 1], actions[i - 1], cooldown);
    }
  }

  /** The cooldown in force: the configured one, at least a millisecond. */
  function EffectiveCooldown(configured: nat): nat {
    Max(configured, 1)
  }

  /**
    In the order of the exchanges, accepted requests are a whole cooldown apart, however long a handler slept
    between its clock and its exchange.
  */
  lemma AcceptedRequestsAreSpaced(states: seq<System>, actions: seq<Action>, configured: nat, i: nat)
    requires IsRun(states, actions, EffectiveCooldown(configured)) && i < |states|
    ensures Spaced(states[i].accepted, EffectiveCooldown(configured))
  {
    RunKeepsCooldown(states, actions, EffectiveCooldown(configured), i);
  }

  /** The shared word only grows, and an exchange that succeeds was preceded by no other since its load. */
  lemma WordGrowsWithoutAba(states: seq<System>, actions: seq<Action>, cooldown: nat, i: nat)
    requires IsRun(states, actions, cooldown) && cooldown > 0 && i < |actions|
    ensures states[i].word <= states[i + 1].word
    ensures states[i].accepted != states[i + 1].accepted ==>
              && states[i].word < states[i + 1].word
              && actions[i].Exchange?
              && states[i].handlers[actions[i].id].seen == |states[i].accepted|
  {
    RunKeepsCooldown(states, actions, cooldown, i);
    RunKeepsCooldown(states, actions, cooldown, i + 1);
    var s, a := states[i], actions[i];
    if a.Exchange? {
      var h := s.handlers[a.id];
      assert HandlerInv(s, h);
      if s.accepted != states[i + 1].accepted {
        assert h.last == s.word;
        assert states[i + 1].accepted == s.accepted + [h.now];
      }
    }
  }

  // ---- Who gets through, and who waits how long

  /** The handler that takes the step, if one does. */
  function MovedBy(a: Action): Option<nat> {
    if a.Arrive? || a.LoadFlag? || a.ReadClock? || a.LoadWord? || a.Exchange? || a.Swap? || a.Send? then Some(a.id)
    else None
  }

  /** The word tells how many requests were accepted. */
  lemma WordCounts(accepted: seq<nat>, cooldown: nat, n: nat)
    requires Spaced(accepted, cooldown) && cooldown > 0 && n <= |accepted|
    ensures WordAfter(accepted, n) == WordAfter(accepted, |accepted|) <==> n == |accepted|
  {
    assert 0 < n < |accepted| ==> accepted[n - 1] + cooldown <= accepted[|accepted| - 1];
  }

  /**
    The verdict of an exchange. A handler that has read the clock at `now` and saw `seen` accepted requests is refused
    exactly when the last of them is less than a cooldown old, and is told the time until that cooldown is over, or a
    whole cooldown if its clock is behind. Otherwise it is admitted exactly when nobody was accepted since its load; if
    somebody was, it loads again.
  */
  lemma RefusedExactly(states: seq<System>, actions: seq<Action>, cooldown: nat, i: nat)
    requires IsRun(states, actions, cooldown) && cooldown > 0 && i < |actions| && actions[i].Exchange?
    ensures var s, t, id := states[i], states[i + 1], actions[i].id;
            && id in s.handlers && s.handlers[id].BeforeExchange?
            && var h, reply := s.handlers[id], t.handlers[id];
               && h.seen <= |s.accepted| && t.handlers == s.handlers[id := reply]
               && if h.seen > 0 && h.now < s.accepted[h.seen - 1] + cooldown then
                    && t.accepted == s.accepted && reply.Replied? && reply.reply.RateLimited?
                    && if s.accepted[h.seen - 1] <= h.now
                       then h.now + reply.reply.retryAfterMs == s.accepted[h.seen - 1] + cooldown
                       else reply.reply.retryAfterMs == cooldown
                  else if h.seen == |s.accepted| then
                    t.accepted == s.accepted + [h.now] && reply == if h.kind.Command? then Replied(Admitted)
                      else BeforeSwap
                  else t.accepted == s.accepted && reply == BeforeWordLoad(h.kind, h.now)
  {
    RunKeepsCooldown(states, actions, cooldown, i);
    var s := states[i];
    assert Enabled(s, actions[i]);
    var h := s.handlers[actions[i].id];
    assert HandlerInv(s, h);
    WordCounts(s.accepted, cooldown, h.seen);
  }

  /** A handler stays where it is while others move. */
  lemma {:induction false} HandlerWaits(states: seq<System>, actions: seq<Action>, cooldown: nat, id: nat, i: nat,
                                        j: nat)
    requires IsRun(states, actions, cooldown) && i <= j < |states| && id in states[i].handlers
    requires forall k :: i <= k < j ==> MovedBy(actions[k]) != Some(id)
    ensures id in states[j].handlers && states[j].handlers[id] == states[i].handlers[id]
    decreases j
  {
    if i < j {
      HandlerWaits(states, actions, cooldown, id, i, j - 1);
      assert states[j] == Apply(states[j - 1], actions[j - 1], cooldown);
    }
  }

  /** Accepted requests are never taken back. */
  lemma {:induction false} AcceptedGrows(states: seq<System>, actions: seq<Action>, cooldown: nat, i: nat, j: nat)
    requires IsRun(states, actions, cooldown) && i <= j < |states|
    ensures states[i].accepted <= states[j].accepted
    decreases j
  {
    if i < j {
      AcceptedGrows(states, actions, cooldown, i, j - 1);
      assert states[j] == Apply(states[j - 1], actions[j - 1], cooldown);
    }
  }

  /**
    A handler's first try, from its clock to its exchange, however far apart they lie and whatever others do meanwhile:
    it is refused exactly when the last request accepted before its load is less than a cooldown older than its clock.
  */
  lemma FirstTry(states: seq<System>, actions: seq<Action>, cooldown: nat, id: nat, c: nat, l: nat, i: nat)
    requires IsRun(states, actions, cooldown) && cooldown > 0 && c < l < i < |actions|
    requires actions[c] == ReadClock(id) && actions[l] == LoadWord(id) && actions[i] == Exchange(id)
    requires forall k :: c < k < i && k != l ==> MovedBy(actions[k]) != Some(id)
    ensures var now, before := states[c].clock, states[l].accepted;
            && id in states[i + 1].handlers
            && (states[i + 1].handlers[id].Replied? && states[i + 1].handlers[id].reply.RateLimited? <==>
                before != [] && now < before[|before| - 1] + cooldown)
    ensures states[i + 1].accepted != states[i].accepted <==>
            && states[i].accepted == states[l].accepted
            && (states[l].accepted != [] ==>
                  states[l].accepted[|states[l].accepted| - 1] + cooldown <= states[c].clock)
  {
    assert |states| == |actions| + 1;
    hide IsRun;
    ClockIsRead(states, actions, cooldown, id, c);
    HandlerWaits(states, actions, cooldown, id, c + 1, l);
    WordIsLoaded(states, actions, cooldown, id, l);
    HandlerWaits(states, actions, cooldown, id, l + 1, i);
    AcceptedGrows(states, actions, cooldown, l, i);
    RefusedExactly(states, actions, cooldown, i);
  }

  lemma ClockIsRead(states: seq<System>, actions: seq<Action>, cooldown: nat, id: nat, c: nat)
    requires IsRun(states, actions, cooldown) && c < |actions| && actions[c] == ReadClock(id)
    ensures id in states[c + 1].handlers && states[c + 1].handlers[id].BeforeWordLoad?
    ensures states[c + 1].handlers[id].now == states[c].clock
  {
    assert Enabled(states[c], actions[c]);
  }

  lemma WordIsLoaded(states: seq<System>, actions: seq<Action>, cooldown: nat, id: nat, l: nat)
    requires IsRun(states, actions, cooldown) && l < |actions| && actions[l] == LoadWord(id)
    ensures id in states[l].handlers && states[l].handlers[id].BeforeWordLoad?
    ensures var h := states[l].handlers[id];
            && id in states[l + 1].handlers && states[l + 1].handlers[id].BeforeExchange?
            && states[l + 1].handlers[id].now == h.now && states[l + 1].handlers[id].seen == |states[l].accepted|
  {
    assert Enabled(states[l], actions[l]);
  }

  // ---- The pending flag and its token

  function Senders(handlers: map<nat, Handler>): set<nat> {
    set id | id in handlers && handlers[id].BeforeSend?
  }

  /** The consumer holds the token between taking the message and clearing the flag. */
  function ConsumerTokens(c: Consumer): nat {
    if c.Received? || c.ChannelDrained? then 1 else 0
  }

  function Tokens(s: System): nat {
    |Senders(s.handlers)| + s.channel + ConsumerTokens(s.consumer)
  }

  /** The flag is set exactly when one token exists, and there is never more than one. */
  predicate TokenInv(s: System) {
    Tokens(s) == if s.pending then 1 else 0
  }

  lemma SendersUpdate(handlers: map<nat, Handler>, id: nat, h: Handler)
    ensures var before := if id in handlers && handlers[id].BeforeSend? then 1 else 0;
            var after := if h.BeforeSend? then 1 else 0;
            |Senders(handlers[id := h])| == |Senders(handlers)| - before + after
  {
    var others := Senders(handlers) - {id};
    assert Senders(handlers) == if id in handlers && handlers[id].BeforeSend? then others + {id} else others;
    assert Senders(handlers[id := h]) == if h.BeforeSend? then others + {id} else others;
  }

  lemma StepKeepsToken(s: System, a: Action, cooldown: nat)
    requires TokenInv(s) && Enabled(s, a)
    ensures TokenInv(Apply(s, a, cooldown))
    ensures a.TryReceive? ==> s.channel == 0
  {
    var t := Apply(s, a, cooldown);
    if a.Arrive? || a.LoadFlag? || a.ReadClock? || a.LoadWord? || a.Exchange? || a.Swap? || a.Send? {
      SendersUpdate(s.handlers, a.id, t.handlers[a.id]);
    }
  }

  lemma {:induction false} RunKeepsToken(states: seq<System>, actions: seq<Action>, cooldown: nat, i: nat)
    requires IsRun(states, actions, cooldown) && i < |states|
    ensures TokenInv(states[i])
  {
    if i == 0 {
      assert Senders(INITIAL.handlers) == {};
    } else {
      RunKeepsToken(states, actions, cooldown, i - 1);
      StepKeepsToken(states[i - 1], actions[i - 1], cooldown);
    }
  }

  /** What the token means for the channel, for the drain loop and for a sleeping service loop. */
  lemma TokenIsUnique(states: seq<System>, actions: seq<Action>, cooldown: nat, i: nat)
    requires IsRun(states, actions, cooldown) && i < |states|
    ensures states[i].channel <= 1
    ensures states[i].consumer.Received? ==> states[i].channel == 0
    ensures states[i].pending && states[i].consumer.Selecting? ==>
              states[i].channel == 1 || exists id :: id in states[i].handlers && states[i].handlers[id].BeforeSend?
  {
    RunKeepsToken(states, actions, cooldown, i);
    var s := states[i];
    if s.pending && s.consumer.Selecting? && s.channel == 0 {
      assert |Senders(s.handlers)| == 1;
      var id :| id in Senders(s.handlers);
    }
  }

  /** A refresh is only answered as queued while the flag is set. */
  lemma AnsweredMeansPending(states: seq<System>, actions: seq<Action>, cooldown: nat, i: nat, id: nat)
    requires IsRun(states, actions, cooldown) && i < |actions|
    requires id in states[i + 1].handlers
    requires states[i + 1].handlers[id] in {Replied(Coalesced), Replied(Accepted)}
    requires id !in states[i].handlers || states[i].handlers[id] != states[i + 1].handlers[id]
    ensures states[i].pending && states[i + 1].pending
  {
    RunKeepsToken(states, actions, cooldown, i);
    var s := states[i];
    if actions[i].Send? {
      assert actions[i].id == id;
      assert id in Senders(s.handlers);
    }
  }

  /**
    The flag alone decides between joining a pending poll and asking for one, at the first look and again after the
    cooldown; and nothing but the cooldown ever refuses a request.
  */
  lemma FlagDecides(states: seq<System>, actions: seq<Action>, cooldown: nat, i: nat, id: nat)
    requires IsRun(states, actions, cooldown) && i < |actions| && MovedBy(actions[i]) == Some(id)
    ensures id in states[i + 1].handlers
    ensures var s, h := states[i], states[i + 1].handlers[id];
            && (actions[i].LoadFlag? ==> h == if s.pending then Replied(Coalesced) else BeforeClock(RefreshRequest))
            && (actions[i].Swap? ==> states[i + 1].pending && h == if s.pending then Replied(Coalesced) else BeforeSend)
            && (actions[i].Send? ==> h == Replied(Accepted) && states[i + 1].channel == s.channel + 1)
            && (h.Replied? && h.reply.RateLimited? ==> actions[i].Exchange?)
  {
    assert Enabled(states[i], actions[i]) && states[i + 1] == Apply(states[i], actions[i], cooldown);
  }

  /** What became of a request answered when `ticks` polls had started: still pending, about to poll, or polled. */
  predicate NotLost(s: System, ticks: nat) {
    s.pending || s.consumer.Top? || s.ticks > ticks
  }

  /**
    No refresh is lost: from any moment the flag is set, the service cannot come to rest with the flag clear
    before it has started another poll.
  */
  lemma {:induction false} NoLostRefresh(states: seq<System>, actions: seq<Action>, cooldown: nat, i: nat, j: nat)
    requires IsRun(states, actions, cooldown) && i <= j < |states|
    requires states[i].pending
    ensures NotLost(states[j], states[i].ticks) && states[j].ticks >= states[i].ticks
    ensures states[j].consumer.Selecting? && !states[j].pending ==> states[j].ticks > states[i].ticks
    decreases j
  {
    if i < j {
      NoLostRefresh(states, actions, cooldown, i, j - 1);
      assert Enabled(states[j - 1], actions[j - 1]) && states[j] == Apply(states[j - 1], actions[j - 1], cooldown);
    }
  }
}
