/** The order in which candidates are offered to the dispatcher. */
module Ranking {
  import opened Prelude
  import opened Domain
  import Utf8

  datatype Ordering = Less | Equal | Greater
  {
    function Then(next: Ordering): Ordering {
      if this.Equal? then next else this
    }

    function Reverse(): Ordering {
      match this
      case Less => Greater
      case Equal => Equal
      case Greater => Less
    }
  }

  function CompareInt(a: int, b: int): Ordering {
    if a < b then Less else if a == b then Equal else Greater
  }

  /** Absent values come last. */
  function CompareOption(a: Option<int>, b: Option<int>): Ordering {
    match (a, b)
    case (Some(x), Some(y)) => CompareInt(x, y)
    case (Some(_), None) => Less
    case (None, Some(_)) => Greater
    case (None, None) => Equal
  }

  /** `str::cmp`, character by character. */
  function CompareText(a: string, b: string): Ordering {
    if a == "" then (if b == "" then Equal else Less)
    else if b == "" then Greater
    else CompareInt(a[0] as int, b[0] as int).Then(CompareText(a[1..], b[1..]))
  }

  function Sign(o: Ordering): int {
    match o
    case Less => -1
    case Equal => 0
    case Greater => 1
  }

  /** Comparing characters orders texts as comparing their UTF-8 bytes does. */
  lemma {:induction false} CompareTextIsByteOrder(a: string, b: string)
    ensures Sign(CompareText(a, b)) == Utf8.CompareBytes(Utf8.Encode(a), Utf8.Encode(b))
  {
    if a != "" && b != "" {
      var restA, restB := Utf8.Encode(a[1..]), Utf8.Encode(b[1..]);
      if a[0] < b[0] {
        Utf8.SmallerChar(a[0], b[0], restA, restB);
      } else if b[0] < a[0] {
        Utf8.SmallerChar(b[0], a[0], restB, restA);
      } else {
        Utf8.CommonPrefix(Utf8.EncodeChar(a[0]), restA, restB);
        CompareTextIsByteOrder(a[1..], b[1..]);
      }
    }
  }

  /** The single-source order. */
  function CompareIssueForDispatch(a: Issue, b: Issue): Ordering {
    CompareOption(a.priority, b.priority)
    .Then(CompareOption(a.createdAt, b.createdAt))
    .Then(CompareText(a.identifier, b.identifier))
  }

  /** A candidate: the index of its source's run and the issue. */
  datatype Candidate = Candidate(run: nat, sourceId: string, issue: Issue)

  /** The order across sources. */
  function CompareSourceIssue(a: Candidate, b: Candidate): Ordering {
    CompareOption(a.issue.priority, b.issue.priority)
    .Then(CompareOption(a.issue.createdAt, b.issue.createdAt))
    .Then(CompareText(a.sourceId, b.sourceId))
    .Then(CompareText(a.issue.identifier, b.issue.identifier))
  }

  /** A smaller value comes sooner, and any value before none. */
  predicate Sooner(x: Option<int>, y: Option<int>) {
    x.Some? && (y.None? || x.value < y.value)
  }

  /** In the order of UTF-8 bytes. */
  predicate SmallerText(a: string, b: string) {
    Utf8.FirstSmaller(Utf8.Encode(a), Utf8.Encode(b))
  }

  /** Priority decides, then age, then the source's name, then the identifier. */
  predicate Precedes(a: Candidate, b: Candidate) {
    || Sooner(a.issue.priority, b.issue.priority)
    || (a.issue.priority == b.issue.priority &&
        (|| Sooner(a.issue.createdAt, b.issue.createdAt)
         || (a.issue.createdAt == b.issue.createdAt &&
             (|| SmallerText(a.sourceId, b.sourceId)
              || (a.sourceId == b.sourceId && SmallerText(a.issue.identifier, b.issue.identifier))))))
  }

  lemma CompareTextMeaning(a: string, b: string)
    ensures CompareText(a, b).Less? <==> SmallerText(a, b)
    ensures CompareText(a, b).Equal? <==> a == b
  {
    CompareTextIsByteOrder(a, b);
    Utf8.CompareBytesMeaning(Utf8.Encode(a), Utf8.Encode(b));
    CompareTextReverses(a, b);
  }

  /**
    Strictly before means: the numerically smaller priority, any before none; at equal priority the older one, again
    any time before none;
      then the smaller source and the smaller identifier. The single-source order leaves the source out.
  */
  lemma RankMeaning(a: Candidate, b: Candidate)
    ensures CompareSourceIssue(a, b).Less? <==> Precedes(a, b)
    ensures CompareIssueForDispatch(a.issue, b.issue).Less? <==>
            || Sooner(a.issue.priority, b.issue.priority)
            || (a.issue.priority == b.issue.priority &&
                (|| Sooner(a.issue.createdAt, b.issue.createdAt)
                 || (a.issue.createdAt == b.issue.createdAt && SmallerText(a.issue.identifier, b.issue.identifier))))
  {
    hide CompareText, SmallerText;
    CompareTextMeaning(a.sourceId, b.sourceId);
    CompareTextMeaning(a.issue.identifier, b.issue.identifier);
  }

  lemma {:induction false} CompareTextReverses(a: string, b: string)
    ensures CompareText(b, a) == CompareText(a, b).Reverse()
    ensures CompareText(a, b).Equal? <==> a == b
  {
    if a != "" && b != "" {
      CompareTextReverses(a[1..], b[1..]);
      assert a == [a[0]] + a[1..] && b == [b[0]] + b[1..];
    }
  }

  /** How the comparisons of three things fit together. */
  predicate Coherent(ab: Ordering, bc: Ordering, ac: Ordering) {
    && (ab.Equal? ==> ac == bc)
    && (bc.Equal? ==> ac == ab)
    && (ab.Less? && bc.Less? ==> ac.Less?)
  }

  /** Comparing by one thing and then by another stays coherent. */
  lemma ThenCoherent(ab: Ordering, bc: Ordering, ac: Ordering, ab2: Ordering, bc2: Ordering, ac2: Ordering)
    requires Coherent(ab, bc, ac) && Coherent(ab2, bc2, ac2)
    ensures Coherent(ab.Then(ab2), bc.Then(bc2), ac.Then(ac2))
  {
  }

  lemma {:induction false} CompareTextCoherent(a: string, b: string, c: string)
    ensures Coherent(CompareText(a, b), CompareText(b, c), CompareText(a, c))
  {
    if a != "" && b != "" && c != "" {
      CompareTextCoherent(a[1..], b[1..], c[1..]);
    }
  }

  predicate NotAfter(a: Candidate, b: Candidate) {
    !CompareSourceIssue(a, b).Greater?
  }

  lemma RankReverses(a: Candidate, b: Candidate)
    ensures CompareSourceIssue(b, a) == CompareSourceIssue(a, b).Reverse()
  {
    CompareTextReverses(a.sourceId, b.sourceId);
    CompareTextReverses(a.issue.identifier, b.issue.identifier);
  }

  lemma RankCoherent(a: Candidate, b: Candidate, c: Candidate)
    ensures Coherent(CompareSourceIssue(a, b), CompareSourceIssue(b, c), CompareSourceIssue(a, c))
  {
    CompareTextCoherent(a.sourceId, b.sourceId, c.sourceId);
    CompareTextCoherent(a.issue.identifier, b.issue.identifier, c.issue.identifier);
    ghost var Rank := (x: Candidate, y: Candidate) =>
      CompareOption(x.issue.priority, y.issue.priority).Then(CompareOption(x.issue.createdAt, y.issue.createdAt));
    ThenCoherent(Rank(a, b), Rank(b, c), Rank(a, c),
                 CompareText(a.sourceId, b.sourceId), CompareText(b.sourceId, c.sourceId),
                 CompareText(a.sourceId, c.sourceId));
  }

  /** The order across sources is a total preorder. */
  lemma RankIsTotalPreorder(a: Candidate, b: Candidate, c: Candidate)
    ensures NotAfter(a, a)
    ensures NotAfter(a, b) || NotAfter(b, a)
    ensures NotAfter(a, b) && NotAfter(b, c) ==> NotAfter(a, c)
  {
    RankReverses(a, a);
    RankReverses(a, b);
    RankCoherent(a, b, c);
  }

  /** Candidates tie only in everything the order looks at. */
  lemma RankTies(a: Candidate, b: Candidate)
    ensures CompareSourceIssue(a, b).Equal? <==>
            && a.issue.priority == b.issue.priority && a.issue.createdAt == b.issue.createdAt
            && a.sourceId == b.sourceId && a.issue.identifier == b.issue.identifier
  {
    CompareTextReverses(a.sourceId, b.sourceId);
    CompareTextReverses(a.issue.identifier, b.issue.identifier);
  }

  /** Within one source it is the single-source order. */
  lemma AgreesWithinSource(a: Candidate, b: Candidate)
    requires a.sourceId == b.sourceId
    ensures CompareSourceIssue(a, b) == CompareIssueForDispatch(a.issue, b.issue)
  {
    CompareTextReverses(a.sourceId, b.sourceId);
  }

  // ---- Sorting

  predicate Ranked(candidates: seq<Candidate>) {
    forall i, j :: 0 <= i < j < |candidates| ==> NotAfter(candidates[i], candidates[j])
  }

  /** Where a later element goes among ranked ones: behind every element that does not come after it. */
  function Insert(candidates: seq<Candidate>, c: Candidate): seq<Candidate> {
    if candidates == [] || NotAfter(candidates[|candidates| - 1], c) then candidates + [c]
    else Insert(candidates[..|candidates| - 1], c) + [candidates[|candidates| - 1]]
  }

  /** The stable sort by rank. */
  function SortByRank(candidates: seq<Candidate>): seq<Candidate> {
    if candidates == [] then []
    else Insert(SortByRank(candidates[..|candidates| - 1]), candidates[|candidates| - 1])
  }

  lemma {:induction false} InsertRanked(candidates: seq<Candidate>, c: Candidate)
    requires Ranked(candidates)
    ensures Ranked(Insert(candidates, c))
    ensures multiset(Insert(candidates, c)) == multiset(candidates) + multiset{c}
  {
    if candidates != [] {
      var init, last := candidates[..|candidates| - 1], candidates[|candidates| - 1];
      assert candidates == init + [last];
      if NotAfter(last, c) {
        forall i | 0 <= i < |candidates|
          ensures NotAfter(candidates[i], c)
        {
          RankIsTotalPreorder(candidates[i], last, c);
          RankIsTotalPreorder(last, last, last);
        }
      } else {
        InsertRanked(init, c);
        var rest := Insert(init, c);
        RankIsTotalPreorder(last, c, c);
        forall i | 0 <= i < |rest|
          ensures NotAfter(rest[i], last)
        {
          assert rest[i] in multiset(rest);
          if rest[i] != c {
            assert rest[i] in init;
          }
        }
      }
    }
  }

  lemma NothingRanked()
    ensures Ranked([])
  {
  }

  /** Sorting ranks the candidates and neither loses nor invents one. */
  lemma {:induction false} SortRanks(candidates: seq<Candidate>)
    ensures Ranked(SortByRank(candidates))
    ensures multiset(SortByRank(candidates)) == multiset(candidates)
    ensures |SortByRank(candidates)| == |candidates|
  {
    hide NotAfter, Ranked, Insert;
    if candidates == [] {
      NothingRanked();
    } else {
      var init, last := candidates[..|candidates| - 1], candidates[|candidates| - 1];
      SortRanks(init);
      InsertRanked(SortByRank(init), last);
      assert candidates == init + [last];
    }
    assert |multiset(SortByRank(candidates))| == |multiset(candidates)|;
  }
}
