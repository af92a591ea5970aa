/**
  What the statistics mean, told from the run that produced them: the token totals, the event history of each issue
  and the attempt number of each live issue.
*/
module Accounting {
  import opened Prelude
  import opened Names
  import opened Domain
  import opened Model
  import opened Runs

  // ---- Events that count

  /** The event is from the current worker of a running issue. */
  predicate Applied(s: Svc, a: Action, key: string) {
    a.Event? && a.key == key && Matches(s, key, a.generation) && key in s.running
  }

  predicate StartsWorker(a: Action, key: string) {
    a.Dispatch? && a.setup.Ready? && SourceIssueKey(a.config.sourceId, a.issue.id) == key
  }

  // ---- Event history

  function LastOf<T>(items: seq<T>, n: nat): seq<T> {
    if |items| <= n then items else items[|items| - n..]
  }

  /** The action releases the issue at `key`, and with it its history. */
  predicate Releases(s: Svc, a: Action, key: string) {
    || (a.Cancel? && a.key == key)
    || (a.Outcome? && a.key == key && a.terminal && Matches(s, key, a.generation) && key in s.running)
    || (IsStray(s, a) && key == SourceIssueKey(a.sourceId, a.issueId) && key in s.running)
  }

  /** The summaries of all events applied to `key` since it was last released. */
  function Observed(sources: set<string>, trace: Trace, n: nat, key: string): seq<RecentEvent>
    requires n <= |trace|
  {
    if n == 0 then []
    else
      var s, a := StateAt(sources, trace, n - 1), trace[n - 1].action;
      if Releases(s, a, key) then []
      else if Applied(s, a, key) then Observed(sources, trace, n - 1, key) + [Summary(a.event)]
      else Observed(sources, trace, n - 1, key)
  }

  lemma PushKeepsLast(items: seq<RecentEvent>, e: RecentEvent)
    ensures PushEvent(LastOf(items, RECENT_EVENT_HISTORY_LIMIT), e) == LastOf(items + [e], RECENT_EVENT_HISTORY_LIMIT)
  {
  }

  lemma HistoryStep(s: Svc, a: Action, key: string)
    requires Enabled(s, a)
    ensures HistoryOf(Apply(s, a).recent, key) ==
            if Releases(s, a, key) then []
            else if Applied(s, a, key) then PushEvent(HistoryOf(s.recent, key), Summary(a.event))
            else HistoryOf(s.recent, key)
  {
    hide Unclaimed, Eligible, RetryTarget, SelectExecutionTarget, SourceIssueKey, RetryAfterExit, ClaimedEntry,
         SessionAfter, TotalsAfter, PushEvent, Summary;
  }

  /** The history shown for an issue is the last 32 of its events, across retries and restarts of its worker. */
  lemma {:induction false} HistoryIsLastEvents(sources: set<string>, trace: Trace, n: nat, key: string)
    requires IsTrace(sources, trace) && n <= |trace|
    ensures HistoryOf(StateAt(sources, trace, n).recent, key) ==
            LastOf(Observed(sources, trace, n, key), 32)
  {
    hide Enabled, Apply, IsTrace, Releases, PushEvent, Summary;
    if n > 0 {
      var s, a := StateAt(sources, trace, n - 1), trace[n - 1].action;
      HistoryIsLastEvents(sources, trace, n - 1, key);
      StepOf(sources, trace, n - 1);
      HistoryStep(s, a, key);
      if Applied(s, a, key) && !Releases(s, a, key) {
        PushKeepsLast(Observed(sources, trace, n - 1, key), Summary(a.event));
      }
    }
  }

  // ---- Token totals

  /** The reports of one conversation of one worker: an unbroken stretch of events with one thread and turn. */
  datatype Segment = Segment(threadId: string, turnId: string, reports: seq<TokenTotals>)

  /** All segments of a run, and for each key the one its worker is in. */
  datatype Ledger = Ledger(segments: seq<Segment>, current: map<string, nat>)

  predicate Continues(ledger: Ledger, key: string, ev: CodexEvent) {
    && key in ledger.current && ledger.current[key] < |ledger.segments|
    && ev.threadId == Some(ledger.segments[ledger.current[key]].threadId)
    && ev.turnId == Some(ledger.segments[ledger.current[key]].turnId)
  }

  function Reported(ev: CodexEvent): seq<TokenTotals> {
    if ev.tokens.Some? then [ev.tokens.value] else []
  }

  function Record(ledger: Ledger, key: string, ev: CodexEvent): Ledger {
    if ev.threadId.None? || ev.turnId.None? then ledger
    else if Continues(ledger, key, ev) then
      var i := ledger.current[key];
      var segment := ledger.segments[i];
      ledger.(segments := ledger.segments[i := segment.(reports := segment.reports + Reported(ev))])
    else
      Ledger(ledger.segments + [Segment(ev.threadId.value, ev.turnId.value, Reported(ev))],
             ledger.current[key := |ledger.segments|])
  }

  function LedgerAt(sources: set<string>, trace: Trace, n: nat): Ledger
    requires n <= |trace|
  {
    if n == 0 then Ledger([], map[])
    else
      var ledger, s, a := LedgerAt(sources, trace, n - 1), StateAt(sources, trace, n - 1), trace[n - 1].action;
      if a.Event? && Applied(s, a, a.key) then Record(ledger, a.key, a.event)
      else if a.Dispatch? && a.setup.Ready? then
        ledger.(current := ledger.current - {SourceIssueKey(a.config.sourceId, a.issue.id)})
      else ledger
  }

  function Plus(a: TokenTotals, b: TokenTotals): TokenTotals {
    TokenTotals(a.input + b.input, a.output + b.output, a.total + b.total)
  }

  function LastReport(reports: seq<TokenTotals>): TokenTotals {
    if reports == [] then NO_TOKENS else reports[|reports| - 1]
  }

  /** The sum of the upward steps of a segment, the first one from zero. */
  function Rises(reports: seq<TokenTotals>): TokenTotals {
    if reports == [] then NO_TOKENS
    else
      var init := reports[..|reports| - 1];
      AddIncrease(Rises(init), LastReport(init), reports[|reports| - 1])
  }

  function SumOfRises(segments: seq<Segment>): TokenTotals {
    if segments == [] then NO_TOKENS
    else Plus(SumOfRises(segments[..|segments| - 1]), Rises(segments[|segments| - 1].reports))
  }

  lemma {:induction false} SumUpdate(segments: seq<Segment>, i: nat, s: Segment)
    requires i < |segments|
    ensures Plus(SumOfRises(segments[i := s]), Rises(segments[i].reports)) ==
              Plus(SumOfRises(segments), Rises(s.reports))
  {
    hide Rises;
    var last := |segments| - 1;
    if i < last {
      SumUpdate(segments[..last], i, s);
      assert segments[i := s][..last] == segments[..last][i := s];
    } else {
      assert segments[i := s][..last] == segments[..last];
    }
  }

  lemma SumSnoc(segments: seq<Segment>, s: Segment)
    ensures SumOfRises(segments + [s]) == Plus(SumOfRises(segments), Rises(s.reports))
  {
    assert (segments + [s])[..|segments|] == segments;
  }

  lemma RisesSnoc(reports: seq<TokenTotals>, r: TokenTotals)
    ensures Rises(reports + [r]) == AddIncrease(Rises(reports), LastReport(reports), r)
  {
    assert (reports + [r])[..|reports|] == reports;
  }

  /** The sessions of the running issues are the current segments, and the totals are what the ledger adds up to. */
  predicate Balanced(s: Svc, ledger: Ledger) {
    && s.totals == SumOfRises(ledger.segments)
    && (forall k :: k in s.running ==> SessionFits(s.running[k].session, ledger, k))
    && (forall j, k :: j in ledger.current && k in ledger.current && j != k ==> ledger.current[j] != ledger.current[k])
    && (forall k :: k in ledger.current ==> ledger.current[k] < |ledger.segments|)
  }

  predicate SessionFits(session: Option<LiveSession>, ledger: Ledger, key: string) {
    if session.None? then key !in ledger.current
    else
      && key in ledger.current && ledger.current[key] < |ledger.segments|
      && var segment := ledger.segments[ledger.current[key]];
         && session.value.threadId == segment.threadId && session.value.turnId == segment.turnId
         && session.value.lastReported == LastReport(segment.reports)
  }

  lemma ContinuedSegment(session: LiveSession, totals: TokenTotals, ledger: Ledger, key: string, ev: CodexEvent)
    requires SessionFits(Some(session), ledger, key) && totals == SumOfRises(ledger.segments)
    requires Continues(ledger, key, ev)
    ensures SessionFits(SessionAfter(Some(session), ev), Record(ledger, key, ev), key)
    ensures TotalsAfter(totals, Some(session), ev) == SumOfRises(Record(ledger, key, ev).segments)
  {
    hide SumOfRises, Rises;
    var i := ledger.current[key];
    var segment := ledger.segments[i];
    SumUpdate(ledger.segments, i, segment.(reports := segment.reports + Reported(ev)));
    if ev.tokens.Some? {
      RisesSnoc(segment.reports, ev.tokens.value);
    } else {
      assert segment.reports + [] == segment.reports;
    }
  }

  lemma NewSegment(session: Option<LiveSession>, totals: TokenTotals, ledger: Ledger, key: string, ev: CodexEvent)
    requires SessionFits(session, ledger, key) && totals == SumOfRises(ledger.segments)
    requires ev.threadId.Some? && ev.turnId.Some? && !Continues(ledger, key, ev)
    ensures SessionFits(SessionAfter(session, ev), Record(ledger, key, ev), key)
    ensures TotalsAfter(totals, session, ev) == SumOfRises(Record(ledger, key, ev).segments)
  {
    hide SumOfRises;
    SumSnoc(ledger.segments, Segment(ev.threadId.value, ev.turnId.value, Reported(ev)));
    assert Rises(Reported(ev)) ==
           if ev.tokens.Some? then AddIncrease(NO_TOKENS, NO_TOKENS, ev.tokens.value) else NO_TOKENS by {
      if ev.tokens.Some? {
        RisesSnoc([], ev.tokens.value);
        assert [] + [ev.tokens.value] == Reported(ev);
      }
    }
  }

  /** One event moves the totals as it moves the ledger. */
  lemma RecordBalances(session: Option<LiveSession>, totals: TokenTotals, ledger: Ledger, key: string, ev: CodexEvent)
    requires SessionFits(session, ledger, key) && totals == SumOfRises(ledger.segments)
    ensures SessionFits(SessionAfter(session, ev), Record(ledger, key, ev), key)
    ensures TotalsAfter(totals, session, ev) == SumOfRises(Record(ledger, key, ev).segments)
  {
    hide SumOfRises, Rises, AddIncrease;
    if ev.threadId.Some? && ev.turnId.Some? {
      if Continues(ledger, key, ev) {
        ContinuedSegment(session.value, totals, ledger, key, ev);
      } else {
        NewSegment(session, totals, ledger, key, ev);
      }
    }
  }

  lemma EventBalances(s: Svc, ledger: Ledger, key: string, ev: CodexEvent)
    requires Balanced(s, ledger) && key in s.running
    ensures Balanced(ObservedEvent(s, key, ev), Record(ledger, key, ev))
  {
    hide SessionAfter, TotalsAfter, PushEvent, Summary, SumOfRises, Rises, LastReport;
    var t, next := ObservedEvent(s, key, ev), Record(ledger, key, ev);
    RecordBalances(s.running[key].session, s.totals, ledger, key, ev);
    forall k | k in t.running
      ensures SessionFits(t.running[k].session, next, k)
    {
      assert k in s.running && SessionFits(s.running[k].session, ledger, k);
    }
  }

  /** What the other actions do to sessions and totals. */
  lemma SessionsOtherwise(s: Svc, a: Action)
    requires Inv(s) && Enabled(s, a) && !(a.Event? && Applied(s, a, a.key))
    ensures var t := Apply(s, a);
            && t.totals == s.totals
            && forall k :: k in t.running ==>
                 if StartsWorker(a, k) then t.running[k].session == None
                 else k in s.running && t.running[k].session == s.running[k].session
  {
    hide Inv, Unclaimed, Eligible, RetryTarget, SelectExecutionTarget, SourceIssueKey, RetryAfterExit, SessionAfter,
         TotalsAfter, PushEvent, FindIssue,
         Config.MayGoOn, IsStalled, Summary, PostponedRetry;
  }

  lemma OtherBalances(s: Svc, ledger: Ledger, a: Action)
    requires Inv(s) && Enabled(s, a) && !(a.Event? && Applied(s, a, a.key)) && Balanced(s, ledger)
    ensures Balanced(Apply(s, a),
                     if a.Dispatch? && a.setup.Ready? then
                       ledger.(current := ledger.current - {SourceIssueKey(a.config.sourceId, a.issue.id)})
                     else ledger)
  {
    hide Inv, Enabled, Apply, SourceIssueKey, SumOfRises, LastReport;
    SessionsOtherwise(s, a);
  }

  lemma {:induction false} LedgerBalances(sources: set<string>, trace: Trace, n: nat)
    requires IsTrace(sources, trace) && n <= |trace|
    ensures Balanced(StateAt(sources, trace, n), LedgerAt(sources, trace, n))
  {
    hide IsTrace, Record, Applied, SessionFits;
    if n > 0 {
      LedgerBalances(sources, trace, n - 1);
      LedgerStep(sources, trace, n - 1);
    }
  }

  lemma LedgerStep(sources: set<string>, trace: Trace, n: nat)
    requires IsTrace(sources, trace) && n < |trace|
    requires Balanced(StateAt(sources, trace, n), LedgerAt(sources, trace, n))
    ensures Balanced(StateAt(sources, trace, n + 1), LedgerAt(sources, trace, n + 1))
  {
    hide Inv, Enabled, IsTrace, Balanced, Record, SourceIssueKey, ObservedEvent;
    var s, a, ledger := StateAt(sources, trace, n), trace[n].action, LedgerAt(sources, trace, n);
    ReachableInv(sources, trace, n);
    StepOf(sources, trace, n);
    if a.Event? && Applied(s, a, a.key) {
      EventBalances(s, ledger, a.key, a.event);
    } else {
      OtherBalances(s, ledger, a);
    }
  }

  /** The totals are the upward steps of all segments of the run, and nothing else. */
  lemma TotalsTelescope(sources: set<string>, trace: Trace, n: nat)
    requires IsTrace(sources, trace) && n <= |trace|
    ensures StateAt(sources, trace, n).totals == SumOfRises(LedgerAt(sources, trace, n).segments)
  {
    LedgerBalances(sources, trace, n);
  }

  predicate AtMost(a: TokenTotals, b: TokenTotals) {
    a.input <= b.input && a.output <= b.output && a.total <= b.total
  }

  /** The totals never go down. */
  lemma {:induction false} TotalsNeverDecrease(sources: set<string>, trace: Trace, i: nat, j: nat)
    requires IsTrace(sources, trace) && i <= j <= |trace|
    ensures AtMost(StateAt(sources, trace, i).totals, StateAt(sources, trace, j).totals)
    decreases j
  {
    hide Inv, Enabled, IsTrace;
    if i < j {
      var s, a := StateAt(sources, trace, j - 1), trace[j - 1].action;
      TotalsNeverDecrease(sources, trace, i, j - 1);
      ReachableInv(sources, trace, j - 1);
      StepOf(sources, trace, j - 1);
      TotalsStep(s, a);
    }
  }

  lemma TotalsStep(s: Svc, a: Action)
    requires Inv(s) && Enabled(s, a)
    ensures AtMost(s.totals, Apply(s, a).totals)
  {
    hide Inv, Unclaimed, Eligible, RetryTarget, SelectExecutionTarget, SourceIssueKey, RetryAfterExit, SessionAfter,
         PushEvent, CurrentSession;
    if !(a.Event? && Applied(s, a, a.key)) {
      SessionsOtherwise(s, a);
    }
  }

  predicate NonDecreasing(reports: seq<TokenTotals>) {
    && (reports != [] ==> AtMost(NO_TOKENS, reports[0]))
    && forall i :: 0 <= i < |reports| - 1 ==> AtMost(reports[i], reports[i + 1])
  }

  /** When reports only grow, a segment contributes its last report. */
  lemma {:induction false} GrowingSegment(reports: seq<TokenTotals>)
    requires NonDecreasing(reports)
    ensures Rises(reports) == LastReport(reports)
  {
    if reports != [] {
      var init := reports[..|reports| - 1];
      GrowingSegment(init);
      assert init != [] ==> AtMost(reports[|init| - 1], reports[|init|]);
    }
  }

  function SumOfLast(segments: seq<Segment>): TokenTotals {
    if segments == [] then NO_TOKENS
    else Plus(SumOfLast(segments[..|segments| - 1]), LastReport(segments[|segments| - 1].reports))
  }

  lemma {:induction false} GrowingSegments(segments: seq<Segment>)
    requires forall i :: 0 <= i < |segments| ==> NonDecreasing(segments[i].reports)
    ensures SumOfRises(segments) == SumOfLast(segments)
  {
    if segments != [] {
      GrowingSegments(segments[..|segments| - 1]);
      GrowingSegment(segments[|segments| - 1].reports);
    }
  }

  /** With reports that only grow, the totals are the sum of the segments' last reports. */
  lemma GrowingTotals(sources: set<string>, trace: Trace, n: nat)
    requires IsTrace(sources, trace) && n <= |trace|
    requires forall i :: 0 <= i < |LedgerAt(sources, trace, n).segments| ==>
               NonDecreasing(LedgerAt(sources, trace, n).segments[i].reports)
    ensures StateAt(sources, trace, n).totals == SumOfLast(LedgerAt(sources, trace, n).segments)
  {
    TotalsTelescope(sources, trace, n);
    GrowingSegments(LedgerAt(sources, trace, n).segments);
  }

  // ---- Attempts

  /**
    Failed attempts and failed retry polls of an issue since its last fresh dispatch; whether it also ended normally.
  */
  datatype Tally = Tally(failures: nat, continued: bool)
  {
    function Failed(): Tally {
      this.(failures := failures + 1)
    }
  }

  /** The worker at `key` ends with a retry to follow. */
  predicate Exits(s: Svc, a: Action, key: string) {
    || (a.Stall? && a.key == key)
    || (a.Outcome? && a.key == key && Matches(s, key, a.generation) && key in s.running && !a.terminal)
    || (a.Abort? && SourceIssueKey(a.sourceId, a.issueId) == key && Matches(s, key, a.generation) && key in s.running
        && a.sourceId in s.sources)
  }

  function Count(tally: Tally, s: Svc, a: Action, key: string): Tally {
    if a.Dispatch? && SourceIssueKey(a.config.sourceId, a.issue.id) == key then
      var base := if a.attempt.None? then Tally(0, false) else tally;
      if a.setup.Broken? then base.Failed() else base
    else if Exits(s, a, key) then
      if a.Outcome? && a.reason.NormalExit? then tally.(continued := true) else tally.Failed()
    else if a.Postpone? && a.key == key then tally.Failed()
    else tally
  }

  function TallyAt(sources: set<string>, trace: Trace, n: nat, key: string): Tally
    requires n <= |trace|
  {
    if n == 0 then Tally(0, false)
    else Count(TallyAt(sources, trace, n - 1, key), StateAt(sources, trace, n - 1), trace[n - 1].action, key)
  }

  function AttemptOf(s: Svc, key: string): nat
    requires key in Live(s)
  {
    if key in s.running then (if s.running[key].retryAttempt.Some? then s.running[key].retryAttempt.value else 0)
    else s.retries[key].attempt
  }

  predicate Tallied(s: Svc, key: string, tally: Tally) {
    key in Live(s) && !tally.continued ==> AttemptOf(s, key) == Min(tally.failures, U32_MAX)
  }

  lemma TallyDispatch(s: Svc, a: Action, key: string, tally: Tally)
    requires Inv(s) && Enabled(s, a) && Tallied(s, key, tally) && a.Dispatch?
    ensures Tallied(Apply(s, a), key, Count(tally, s, a, key))
  {
    hide Inv, ClaimsInv, Unclaimed, Eligible, RetryTarget, SelectExecutionTarget, SourceIssueKey, SourceWorkspaceKey,
         Apply;
    DispatchShape(s, a);
  }

  lemma TallyExit(s: Svc, a: Action, key: string, tally: Tally)
    requires Inv(s) && Enabled(s, a) && Tallied(s, key, tally) && Exits(s, a, key)
    ensures Tallied(Apply(s, a), key, Count(tally, s, a, key))
  {
    hide Inv, SourceIssueKey, Unclaimed, Eligible, RetryTarget, SelectExecutionTarget, SessionAfter, TotalsAfter,
         PushEvent;
  }

  lemma PostponeCounts(s: Svc, a: Action, key: string)
    requires Inv(s) && Enabled(s, a) && a.Postpone? && a.key == key
    ensures key in Live(s) && key in Live(Apply(s, a))
    ensures AttemptOf(Apply(s, a), key) == SaturatingAdd(AttemptOf(s, key), 1, U32_MAX)
  {
    hide ClaimsInv, GenerationsIssued, InStep;
  }

  lemma AttemptKept(s: Svc, a: Action, key: string)
    requires Inv(s) && Enabled(s, a) && key in Live(Apply(s, a))
    requires !a.Dispatch? && !Exits(s, a, key) && !(a.Postpone? && a.key == key)
    ensures key in Live(s) && AttemptOf(Apply(s, a), key) == AttemptOf(s, key)
  {
    hide ClaimsInv, GenerationsIssued, InStep, SourceIssueKey, Unclaimed, Eligible, RetryTarget, SelectExecutionTarget,
         SessionAfter, TotalsAfter, PushEvent,
         RetryAfterExit, FindIssue, Config.MayGoOn, IsStalled, Summary, PostponedRetry, Exit, Release;
    if a.Stall? {
      ExitKeepsOthers(s, a.key, key, Stalled("codex stalled"), a.config.maxRetryBackoffMs, a.now);
    } else if a.Cancel? {
      ReleaseKeepsOthers(s, a.key, key, s.leaked);
    } else if a.Outcome? && Matches(s, a.key, a.generation) && a.key in s.running {
      if a.terminal {
        ReleaseKeepsOthers(s, a.key, key, s.leaked);
      } else {
        ExitKeepsOthers(s, a.key, key, a.reason, a.cap, a.now);
      }
    } else if a.Abort? && Matches(s, SourceIssueKey(a.sourceId, a.issueId), a.generation) {
      var target := SourceIssueKey(a.sourceId, a.issueId);
      ReleaseKeepsOthers(s, target, key, Apply(s, a).leaked);
      if target in s.running && a.sourceId in s.sources {
        ExitKeepsOthers(s, target, key, Failed("worker aborted by operator"), a.cap, a.now);
      }
    }
  }

  lemma ExitKeepsOthers(s: Svc, key: string, other: string, reason: WorkerExitReason, cap: nat, now: nat)
    requires key in s.running && other != key
    ensures var t := Exit(s, key, reason, cap, now);
            other in Live(t) ==> other in Live(s) && AttemptOf(t, other) == AttemptOf(s, other)
  {
    hide RetryAfterExit;
  }

  lemma ReleaseKeepsOthers(s: Svc, key: string, other: string, leaked: set<string>)
    ensures var t := Release(s, key).(leaked := leaked);
            && (other in Live(t) ==> other in Live(s) && AttemptOf(t, other) == AttemptOf(s, other))
            && (leaked == s.leaked ==> t == Release(s, key))
  {
  }

  /**
    An action that neither dispatches nor ends the issue's worker leaves its attempt alone, or counts a failed poll.
  */
  lemma TallyOther(s: Svc, a: Action, key: string, tally: Tally)
    requires Inv(s) && Enabled(s, a) && Tallied(s, key, tally) && !a.Dispatch? && !Exits(s, a, key)
    ensures Tallied(Apply(s, a), key, Count(tally, s, a, key))
  {
    hide Inv, Enabled, Apply, Exits, AttemptOf, Live;
    if a.Postpone? && a.key == key {
      PostponeCounts(s, a, key);
    } else if key in Live(Apply(s, a)) {
      AttemptKept(s, a, key);
    }
  }

  lemma TallyStep(s: Svc, a: Action, key: string, tally: Tally)
    requires Inv(s) && Enabled(s, a) && Tallied(s, key, tally)
    ensures Tallied(Apply(s, a), key, Count(tally, s, a, key))
  {
    hide Inv, Enabled, Apply, Tallied, Count, Exits;
    if a.Dispatch? {
      TallyDispatch(s, a, key, tally);
    } else if Exits(s, a, key) {
      TallyExit(s, a, key, tally);
    } else {
      TallyOther(s, a, key, tally);
    }
  }

  /**
    As long as an issue has not ended normally since its fresh dispatch, its attempt number is the number of its
    failures and failed retry polls since then, up to the largest u32.
  */
  lemma {:induction false} AttemptsCountFailures(sources: set<string>, trace: Trace, n: nat, key: string)
    requires IsTrace(sources, trace) && n <= |trace|
    ensures Tallied(StateAt(sources, trace, n), key, TallyAt(sources, trace, n, key))
  {
    hide Inv, Enabled, Apply, IsTrace, Tallied, Count;
    if n == 0 {
      NothingTallied(sources, key);
    } else {
      AttemptsCountFailures(sources, trace, n - 1, key);
      ReachableInv(sources, trace, n - 1);
      StepOf(sources, trace, n - 1);
      TallyStep(StateAt(sources, trace, n - 1), trace[n - 1].action, key, TallyAt(sources, trace, n - 1, key));
    }
  }

  lemma NothingTallied(sources: set<string>, key: string)
    ensures Tallied(Initial(sources), key, Tally(0, false))
  {
  }
}
