/** One pass over ranked candidates: which of them are dispatched, and in which states. */
module Greedy {
  import opened Prelude
  import opened Names
  import opened Domain
  import opened Model
  import opened Capacity
  import opened Ranking
  import opened Runs

  datatype SourceRun = SourceRun(config: Config, candidates: seq<Issue>)

  function ConfigsOf(runs: seq<SourceRun>): seq<Config> {
    seq(|runs|, i requires 0 <= i < |runs| => runs[i].config)
  }

  /** The candidates are candidates of the runs they name. */
  predicate FromRuns(runs: seq<SourceRun>, order: seq<Candidate>) {
    forall m :: 0 <= m < |order| ==>
      && order[m].run < |runs| && order[m].sourceId == runs[order[m].run].config.sourceId
      && order[m].issue in runs[order[m].run].candidates
  }

  /** The smallest of the sources' limits bounds the whole service; without sources nothing runs. */
  function GlobalLimit(runs: seq<SourceRun>): (limit: nat)
    ensures forall i :: 0 <= i < |runs| ==> limit <= runs[i].config.maxConcurrentAgents
    ensures if runs == [] then limit == 0
            else exists i :: 0 <= i < |runs| && limit == runs[i].config.maxConcurrentAgents
  {
    if runs == [] then 0
    else if |runs| == 1 then runs[0].config.maxConcurrentAgents
    else
      assert forall i :: 1 <= i < |runs| ==> runs[i] == runs[1..][i - 1];
      Min(runs[0].config.maxConcurrentAgents, GlobalLimit(runs[1..]))
  }

  /** Every candidate of every run, once. */
  function CandidatesOf(runs: seq<SourceRun>): seq<Candidate> {
    if runs == [] then []
    else CandidatesOf(runs[..|runs| - 1]) + Labelled(|runs| - 1, runs[|runs| - 1])
  }

  function Labelled(run: nat, r: SourceRun): seq<Candidate> {
    seq(|r.candidates|, i requires 0 <= i < |r.candidates| => Candidate(run, r.config.sourceId, r.candidates[i]))
  }

  /** The candidates of the runs are candidates of the runs they name, and all of them are there. */
  lemma {:induction false} CandidatesOfRuns(runs: seq<SourceRun>)
    ensures FromRuns(runs, CandidatesOf(runs))
    ensures forall i, j :: 0 <= i < |runs| && 0 <= j < |runs[i].candidates| ==>
              Candidate(i, runs[i].config.sourceId, runs[i].candidates[j]) in CandidatesOf(runs)
  {
    if runs != [] {
      var init, last := runs[..|runs| - 1], runs[|runs| - 1];
      CandidatesOfRuns(init);
      forall i, j | 0 <= i < |runs| && 0 <= j < |runs[i].candidates|
        ensures Candidate(i, runs[i].config.sourceId, runs[i].candidates[j]) in CandidatesOf(runs)
      {
        if i == |init| {
          assert Labelled(|init|, last)[j] == Candidate(i, runs[i].config.sourceId, runs[i].candidates[j]);
        } else {
          assert runs[i] == init[i];
        }
      }
    }
  }

  predicate Before(a: (nat, nat), b: (nat, nat)) {
    a.0 < b.0 || (a.0 == b.0 && a.1 < b.1)
  }

  /** The candidates are those at `places`, a run and a position in it each: all there are, in order, each once. */
  predicate CandidatesAt(runs: seq<SourceRun>, places: seq<(nat, nat)>, candidates: seq<Candidate>) {
    && |places| == |candidates|
    && (forall m, n :: 0 <= m < n < |places| ==> Before(places[m], places[n]))
    && (forall m :: 0 <= m < |places| ==>
          && places[m].0 < |runs| && places[m].1 < |runs[places[m].0].candidates|
          && candidates[m] == Candidate(places[m].0, runs[places[m].0].config.sourceId,
                                        runs[places[m].0].candidates[places[m].1]))
    && forall i, j :: 0 <= i < |runs| && 0 <= j < |runs[i].candidates| ==> (i, j) in places
  }

  /** No candidate is offered twice. */
  lemma {:induction false} CandidatesOfOnce(runs: seq<SourceRun>) returns (places: seq<(nat, nat)>)
    ensures CandidatesAt(runs, places, CandidatesOf(runs))
  {
    if runs == [] {
      places := [];
    } else {
      var init, last := runs[..|runs| - 1], runs[|runs| - 1];
      assert runs == init + [last];
      places := CandidatesOfOnce(init);
      LastRunAt(init, places, CandidatesOf(init), last);
      places := places + PlacesOf(|init|, last);
    }
  }

  function PlacesOf(run: nat, r: SourceRun): seq<(nat, nat)> {
    seq(|r.candidates|, j requires 0 <= j < |r.candidates| => (run, j))
  }

  lemma LastRunAt(runs: seq<SourceRun>, places: seq<(nat, nat)>, candidates: seq<Candidate>, r: SourceRun)
    requires CandidatesAt(runs, places, candidates)
    ensures CandidatesAt(runs + [r], places + PlacesOf(|runs|, r), candidates + Labelled(|runs|, r))
  {
    var longer, more := runs + [r], places + PlacesOf(|runs|, r);
    assert forall m :: 0 <= m < |places| ==> more[m] == places[m] && longer[places[m].0] == runs[places[m].0];
    assert forall m :: |places| <= m < |more| ==> more[m] == (|runs|, m - |places|);
    forall i, j | 0 <= i < |longer| && 0 <= j < |longer[i].candidates|
      ensures (i, j) in more
    {
      if i == |runs| {
        assert PlacesOf(|runs|, r)[j] == (i, j);
      } else {
        assert longer[i] == runs[i] && (i, j) in places;
      }
    }
  }

  /** Sorting keeps the candidates those of the runs. */
  lemma SortedFromRuns(runs: seq<SourceRun>, candidates: seq<Candidate>)
    requires FromRuns(runs, candidates)
    ensures FromRuns(runs, SortByRank(candidates))
    ensures forall c :: c in SortByRank(candidates) <==> c in candidates
  {
    SortRanks(candidates);
    forall c
      ensures c in SortByRank(candidates) <==> c in candidates
    {
      assert c in multiset(SortByRank(candidates)) <==> c in multiset(candidates);
    }
    forall m | 0 <= m < |SortByRank(candidates)|
      ensures SortByRank(candidates)[m] in candidates
    {
    }
  }

  predicate CandidateDispatchable(s: Svc, runs: seq<SourceRun>, c: Candidate)
    requires c.run < |runs|
  {
    Dispatchable(s, runs[c.run].config, c.issue)
  }

  /** Step `a`, taken in `s`, dispatches the `n`-th candidate afresh, and none before it could have been dispatched. */
  predicate IsPick(s: Svc, a: Action, runs: seq<SourceRun>, order: seq<Candidate>, n: nat, limit: nat)
    requires FromRuns(runs, order) && n < |order|
  {
    && a.Dispatch? && a.attempt.None? && a.config == runs[order[n].run].config && a.issue == order[n].issue
    && |s.running| < limit && CandidateDispatchable(s, runs, order[n])
    && SelectExecutionTarget(s.tasks, runs[order[n].run].config) == Some(a.target)
    && forall m :: 0 <= m < n ==> !CandidateDispatchable(s, runs, order[m])
  }

  /** From step `from` on, the trace dispatches the candidates `picks`, in that order. */
  predicate GreedyFrom(
      sources: set<string>, trace: Trace, from: nat, runs: seq<SourceRun>, order: seq<Candidate>, picks: seq<nat>,
      limit: nat)
    requires FromRuns(runs, order)
  {
    && |trace| == from + |picks|
    && (forall i :: 0 <= i < |picks| ==> picks[i] < |order|)
    && (forall i, j :: 0 <= i < j < |picks| ==> picks[i] < picks[j])
    && forall i :: 0 <= i < |picks| ==>
         IsPick(StateAt(sources, trace, from + i), trace[from + i].action, runs, order, picks[i], limit)
  }

  lemma GreedyStart(sources: set<string>, trace: Trace, runs: seq<SourceRun>, order: seq<Candidate>, limit: nat)
    requires FromRuns(runs, order)
    ensures GreedyFrom(sources, trace, |trace|, runs, order, [], limit)
  {
  }

  lemma GreedyExtends(
      sources: set<string>, trace: Trace, from: nat, runs: seq<SourceRun>, order: seq<Candidate>, picks: seq<nat>,
      limit: nat,
      step: Step, n: nat)
    requires FromRuns(runs, order) && GreedyFrom(sources, trace, from, runs, order, picks, limit)
    requires n < |order| && forall i :: 0 <= i < |picks| ==> picks[i] < n
    requires IsPick(Final(sources, trace), step.action, runs, order, n, limit)
    ensures GreedyFrom(sources, trace + [step], from, runs, order, picks + [n], limit)
  {
    hide IsPick, FromRuns;
    var longer, more := trace + [step], picks + [n];
    forall i | 0 <= i < |more|
      ensures IsPick(StateAt(sources, longer, from + i), longer[from + i].action, runs, order, more[i], limit)
    {
      assert StateAt(sources, longer, from + i) == StateAt(sources, trace, from + i);
    }
  }

  /** A fresh dispatch makes its own candidate undispatchable and no other one dispatchable. */
  lemma StaysUndispatchable(s: Svc, a: Action, runs: seq<SourceRun>, order: seq<Candidate>, n: nat, limit: nat, m: nat)
    requires FromRuns(runs, order) && m <= n < |order| && IsPick(s, a, runs, order, n, limit)
    requires Inv(s) && Enabled(s, a)
    ensures !CandidateDispatchable(Apply(s, a), runs, order[m])
  {
    hide Inv, Enabled, Apply, SourceIssueKey, SourceWorkspaceKey, StateCount, StateLimit, SelectExecutionTarget,
         Fuller, Blocked;
    FreshDispatchAdds(s, a);
    if m < n && CandidateDispatchable(Apply(s, a), runs, order[m]) {
      StaysBlocked(s, Apply(s, a), runs[order[m].run].config, order[m].issue);
    }
  }

  lemma StrictlyBefore(order: seq<Candidate>, m: nat, n: nat)
    requires Ranked(order) && m < |order| && n < |order| && CompareSourceIssue(order[m], order[n]).Less?
    ensures m < n
  {
    hide CompareSourceIssue;
    RankReverses(order[m], order[n]);
    RankReverses(order[m], order[m]);
  }

  /** No priority inversion: when a candidate is dispatched, none that comes strictly before it could be. */
  lemma NoPriorityInversion(
      sources: set<string>, trace: Trace, from: nat, runs: seq<SourceRun>, order: seq<Candidate>, picks: seq<nat>,
      limit: nat,
      i: nat, m: nat)
    requires FromRuns(runs, order) && Ranked(order) && GreedyFrom(sources, trace, from, runs, order, picks, limit)
    requires i < |picks| && m < |order| && Precedes(order[m], order[picks[i]])
    ensures !CandidateDispatchable(StateAt(sources, trace, from + i), runs, order[m])
  {
    hide CandidateDispatchable, CompareSourceIssue, Precedes;
    RankMeaning(order[m], order[picks[i]]);
    StrictlyBefore(order, m, picks[i]);
    assert IsPick(StateAt(sources, trace, from + i), trace[from + i].action, runs, order, picks[i], limit);
  }

  /** Whenever one of the picks is dispatched, no candidate with a smaller priority, or before it, could have been. */
  predicate NoInversion(
      sources: set<string>, trace: Trace, from: nat, runs: seq<SourceRun>, order: seq<Candidate>, picks: seq<nat>)
    requires FromRuns(runs, order) && from + |picks| <= |trace| && forall i :: 0 <= i < |picks| ==> picks[i] < |order|
  {
    forall i, m :: 0 <= i < |picks| && 0 <= m < |order| ==>
      Sooner(order[m].issue.priority, order[picks[i]].issue.priority) || Precedes(order[m], order[picks[i]]) ==>
        !CandidateDispatchable(StateAt(sources, trace, from + i), runs, order[m])
  }

  lemma GreedyHasNoInversion(
      sources: set<string>, trace: Trace, from: nat, runs: seq<SourceRun>, order: seq<Candidate>, picks: seq<nat>,
      limit: nat)
    requires FromRuns(runs, order) && Ranked(order) && GreedyFrom(sources, trace, from, runs, order, picks, limit)
    ensures NoInversion(sources, trace, from, runs, order, picks)
  {
    hide CandidateDispatchable, Ranked, GreedyFrom;
    assert |trace| == from + |picks| && forall i :: 0 <= i < |picks| ==> picks[i] < |order| by {
      GreedyShape(sources, trace, from, runs, order, picks, limit);
    }
    forall i, m | 0 <= i < |picks| && 0 <= m < |order| && Precedes(order[m], order[picks[i]])
      ensures !CandidateDispatchable(StateAt(sources, trace, from + i), runs, order[m])
    {
      NoPriorityInversion(sources, trace, from, runs, order, picks, limit, i, m);
    }
  }

  lemma GreedyShape(
      sources: set<string>, trace: Trace, from: nat, runs: seq<SourceRun>, order: seq<Candidate>, picks: seq<nat>,
      limit: nat)
    requires FromRuns(runs, order) && GreedyFrom(sources, trace, from, runs, order, picks, limit)
    ensures |trace| == from + |picks| && forall i :: 0 <= i < |picks| ==> picks[i] < |order|
  {
  }
}
