/**
  Cursor pagination against a server that answers each cursor with one fixed page. A finished fetch holds every
  node of the chain of pages, once and in order; anything else is an error, never a partial list.
*/
module Pagination {
  import opened Prelude
  import opened Names
  import opened Domain

  const MAX_PAGES: nat := 1000

  datatype PageInfo = PageInfo(hasNextPage: bool, endCursor: Option<string>)

  datatype Page<+N> = Page(nodes: seq<N>, info: PageInfo)

  type Server<!N> = Option<string> -> Result<Page<N>, string>

  /** Page `next` is what the server returns behind page `page`. */
  predicate Follows<N(==)>(server: Server<N>, page: Page<N>, next: Page<N>) {
    page.info.hasNextPage && page.info.endCursor.Some? && server(page.info.endCursor) == Ok(next)
  }

  predicate IsChain<N(==)>(server: Server<N>, pages: seq<Page<N>>) {
    forall i :: 0 <= i < |pages| - 1 ==> Follows(server, pages[i], pages[i + 1])
  }

  /** All the pages from `first` to one that has no next page. */
  predicate CompleteChain<N(==)>(server: Server<N>, first: Page<N>, pages: seq<Page<N>>) {
    pages != [] && pages[0] == first && IsChain(server, pages) && !pages[|pages| - 1].info.hasNextPage
  }

  function Nodes<N>(pages: seq<Page<N>>): seq<N> {
    if pages == [] then [] else Nodes(pages[..|pages| - 1]) + pages[|pages| - 1].nodes
  }

  /** A complete chain runs along every chain from the same page and cannot end before it. */
  lemma {:induction false} ChainsAgree<N>(server: Server<N>, first: Page<N>, pages: seq<Page<N>>, chain: seq<Page<N>>)
    requires CompleteChain(server, first, pages)
    requires chain != [] && chain[0] == first && IsChain(server, chain)
    ensures chain <= pages
    decreases |chain|
  {
    if |chain| > 1 {
      var shorter := chain[..|chain| - 1];
      ChainsAgree(server, first, pages, shorter);
      var last := |shorter| - 1;
      assert Follows(server, chain[last], chain[last + 1]);
      assert pages[last] == chain[last];
      assert last < |pages| - 1;
      assert Follows(server, pages[last], pages[last + 1]);
      assert chain == shorter + [chain[last + 1]];
    }
  }

  /** The complete chain from a page is unique. */
  lemma CompleteChainUnique<N>(server: Server<N>, first: Page<N>, a: seq<Page<N>>, b: seq<Page<N>>)
    requires CompleteChain(server, first, a) && CompleteChain(server, first, b)
    ensures a == b
  {
    ChainsAgree(server, first, a, b);
    ChainsAgree(server, first, b, a);
  }

  /** On a complete chain no cursor comes twice, so no page is fetched twice. */
  lemma CursorsDistinct<N>(server: Server<N>, first: Page<N>, pages: seq<Page<N>>, i: nat, j: nat)
    requires CompleteChain(server, first, pages)
    requires i < j < |pages| - 1
    ensures pages[i].info.endCursor != pages[j].info.endCursor
  {
    assert |pages[i + 1..]| != |pages[j + 1..]|;
    if pages[i].info.endCursor == pages[j].info.endCursor {
      assert Follows(server, pages[i], pages[i + 1]) && Follows(server, pages[j], pages[j + 1]);
      SuffixComplete(server, first, pages, i + 1);
      SuffixComplete(server, first, pages, j + 1);
      CompleteChainUnique(server, pages[i + 1], pages[i + 1..], pages[j + 1..]);
    }
  }

  lemma SuffixComplete<N>(server: Server<N>, first: Page<N>, pages: seq<Page<N>>, from: nat)
    requires CompleteChain(server, first, pages) && from < |pages|
    ensures CompleteChain(server, pages[from], pages[from..])
  {
    forall i | 0 <= i < |pages[from..]| - 1
      ensures Follows(server, pages[from..][i], pages[from..][i + 1])
    {
      assert Follows(server, pages[from + i], pages[from + i + 1]);
    }
  }

  lemma ChainExtends<N>(server: Server<N>, chain: seq<Page<N>>, next: Page<N>)
    requires chain != [] && IsChain(server, chain) && Follows(server, chain[|chain| - 1], next)
    ensures IsChain(server, chain + [next])
    ensures Nodes(chain + [next]) == Nodes(chain) + next.nodes
  {
    hide Follows;
    var longer := chain + [next];
    assert longer[..|chain|] == chain;
    forall i | 0 <= i < |longer| - 1
      ensures Follows(server, longer[i], longer[i + 1])
    {
      if i < |chain| - 1 {
        assert Follows(server, chain[i], chain[i + 1]);
      }
    }
  }

  /** A page with a next page is not the last of a complete chain. */
  lemma NextOnChain<N>(server: Server<N>, first: Page<N>, pages: seq<Page<N>>, k: nat)
    requires CompleteChain(server, first, pages) && k < |pages| && pages[k].info.hasNextPage
    ensures k + 1 < |pages| && Follows(server, pages[k], pages[k + 1])
  {
  }

  /** A chain whose last page sends the reader nowhere is not part of a complete chain. */
  lemma DeadEnd<N>(server: Server<N>, first: Page<N>, chain: seq<Page<N>>, pages: seq<Page<N>>)
    requires chain != [] && chain[0] == first && IsChain(server, chain)
    requires var info := chain[|chain| - 1].info;
             info.hasNextPage && (info.endCursor.None? || server(info.endCursor).Err?)
    ensures !CompleteChain(server, first, pages)
  {
    if CompleteChain(server, first, pages) {
      ChainsAgree(server, first, pages, chain);
      NextOnChain(server, first, pages, |chain| - 1);
    }
  }

  /** A chain that meets the same cursor twice in a row goes round for ever. */
  lemma Loop<N>(server: Server<N>, first: Page<N>, chain: seq<Page<N>>, pages: seq<Page<N>>)
    requires |chain| >= 2 && chain[0] == first && IsChain(server, chain)
    requires chain[|chain| - 1].info.hasNextPage
    requires chain[|chain| - 1].info.endCursor == chain[|chain| - 2].info.endCursor
    ensures !CompleteChain(server, first, pages)
  {
    if CompleteChain(server, first, pages) {
      ChainsAgree(server, first, pages, chain);
      NextOnChain(server, first, pages, |chain| - 1);
      CursorsDistinct(server, first, pages, |chain| - 2, |chain| - 1);
    }
  }

  /**
    The pages behind an embedded first page, as for labels, project items and field values. Success and failure
    are both exact.
  */
  method AppendPages<N(==)>(server: Server<N>, first: Page<N>) returns (r: Result<seq<N>, string>)
    ensures r.Ok? ==>
              exists pages :: CompleteChain(server, first, pages) && |pages| <= MAX_PAGES && r.value == Nodes(pages)
    ensures r.Err? ==> forall pages :: CompleteChain(server, first, pages) ==> |pages| > MAX_PAGES
  {
    var nodes := first.nodes;
    var pageInfo := first.info;
    var after := pageInfo.endCursor;
    ghost var chain := [first];
    assert Nodes(chain) == Nodes([]) + first.nodes;
    for i := 0 to MAX_PAGES
      invariant |chain| == i + 1 && chain[0] == first && IsChain(server, chain)
      invariant pageInfo == chain[i].info && after == pageInfo.endCursor
      invariant nodes == Nodes(chain)
    {
      if !pageInfo.hasNextPage {
        assert CompleteChain(server, first, chain);
        return Ok(nodes);
      }
      if after.None? {
        forall pages { DeadEnd(server, first, chain, pages); }
        return Err("GitHub returned hasNextPage=true without endCursor");
      }
      var next := server(after);
      if next.Err? {
        forall pages { DeadEnd(server, first, chain, pages); }
        return Err(next.error);
      }
      nodes := nodes + next.value.nodes;
      ChainExtends(server, chain, next.value);
      chain := chain + [next.value];
      if next.value.info.endCursor == after && next.value.info.hasNextPage {
        forall pages { Loop(server, first, chain, pages); }
        return Err("GitHub returned the same pagination cursor twice");
      }
      after := next.value.info.endCursor;
      pageInfo := next.value.info;
    }
    forall pages | CompleteChain(server, first, pages)
      ensures |pages| > MAX_PAGES
    {
      ChainsAgree(server, first, pages, chain);
    }
    return Err("pagination exceeded safety limit");
  }

  // ---- Project items, filtered by state

  /** What becomes of one item: an error, nothing, or an issue and its state. */
  type Normalizer<!N, !I> = N -> Result<Option<I>, string>

  predicate AllNormalize<N, I>(normalize: Normalizer<N, I>, items: seq<N>) {
    forall i :: 0 <= i < |items| ==> normalize(items[i]).Ok?
  }

  /** The wanted issues among the items, in order. */
  function Selected<N, I>(normalize: Normalizer<N, I>, wanted: I -> bool, items: seq<N>): seq<I> {
    if items == [] then []
    else
      var last := normalize(items[|items| - 1]);
      Selected(normalize, wanted, items[..|items| - 1])
      + if last.Ok? && last.value.Some? && wanted(last.value.value) then [last.value.value] else []
  }

  lemma {:induction false} SelectedConcat<N, I>(normalize: Normalizer<N, I>, wanted: I -> bool, a: seq<N>, b: seq<N>)
    ensures Selected(normalize, wanted, a + b) == Selected(normalize, wanted, a) + Selected(normalize, wanted, b)
    decreases |b|
  {
    if b == [] {
      assert a + b == a;
    } else {
      var shorter := b[..|b| - 1];
      SelectedConcat(normalize, wanted, a, shorter);
      assert (a + b)[..|a + b| - 1] == a + shorter;
    }
  }

  /** The item is read, and is an issue that is wanted. */
  predicate Takes<N, I>(normalize: Normalizer<N, I>, wanted: I -> bool, item: N) {
    match normalize(item)
    case Ok(Some(issue)) => wanted(issue)
    case _ => false
  }

  /**
    The issues are those of the items at `positions`, in their order; all of them are wanted, and no wanted issue among
    the items is passed over.
  */
  predicate SelectedAt<N, I(==)>(
      normalize: Normalizer<N, I>, wanted: I -> bool, items: seq<N>, positions: seq<nat>, issues: seq<I>)
  {
    && |positions| == |issues|
    && (forall j, k :: 0 <= j < k < |positions| ==> positions[j] < positions[k])
    && (forall k :: 0 <= k < |positions| ==>
          && positions[k] < |items| && normalize(items[positions[k]]) == Ok(Some(issues[k])) && wanted(issues[k]))
    && forall i :: 0 <= i < |items| && Takes(normalize, wanted, items[i]) ==> i in positions
  }

  /** Where the selected issues come from. */
  lemma {:induction false} SelectedMeaning<N, I>(normalize: Normalizer<N, I>, wanted: I -> bool, items: seq<N>)
    returns (positions: seq<nat>)
    ensures SelectedAt(normalize, wanted, items, positions, Selected(normalize, wanted, items))
  {
    if items == [] {
      positions := [];
    } else {
      var shorter, last := items[..|items| - 1], items[|items| - 1];
      positions := SelectedMeaning(normalize, wanted, shorter);
      assert items == shorter + [last];
      var issues := Selected(normalize, wanted, shorter);
      if Takes(normalize, wanted, last) {
        SelectedTakes(normalize, wanted, shorter, positions, issues, last);
        positions := positions + [|shorter|];
      } else {
        SelectedPasses(normalize, wanted, shorter, positions, issues, last);
        assert issues + [] == issues;
      }
    }
  }

  lemma SelectedPasses<N, I>(
      normalize: Normalizer<N, I>, wanted: I -> bool, items: seq<N>, positions: seq<nat>, issues: seq<I>, item: N)
    requires SelectedAt(normalize, wanted, items, positions, issues) && !Takes(normalize, wanted, item)
    ensures SelectedAt(normalize, wanted, items + [item], positions, issues)
  {
  }

  lemma SelectedTakes<N, I>(
      normalize: Normalizer<N, I>, wanted: I -> bool, items: seq<N>, positions: seq<nat>, issues: seq<I>, item: N)
    requires SelectedAt(normalize, wanted, items, positions, issues) && Takes(normalize, wanted, item)
    ensures SelectedAt(normalize, wanted, items + [item], positions + [|items|], issues + [normalize(item).value.value])
  {
    assert normalize(item) == Ok(Some(normalize(item).value.value)) && wanted(normalize(item).value.value);
    hide Takes;
    var more := positions + [|items|];
    assert more[|positions|] == |items|;
    assert forall i :: i in positions ==> i in more;
  }

  /** A selection by one test is a selection by any test that agrees with it. */
  lemma SameSelection<N, I>(
      normalize: Normalizer<N, I>, a: I -> bool, b: I -> bool, items: seq<N>, positions: seq<nat>, issues: seq<I>)
    requires SelectedAt(normalize, a, items, positions, issues)
    requires forall k :: 0 <= k < |issues| ==> a(issues[k]) == b(issues[k])
    requires forall i :: 0 <= i < |items| ==> Takes(normalize, a, items[i]) == Takes(normalize, b, items[i])
    ensures SelectedAt(normalize, b, items, positions, issues)
  {
  }

  method SelectItems<N, I>(normalize: Normalizer<N, I>, wanted: I -> bool, items: seq<N>)
    returns (r: Result<seq<I>, string>)
    ensures r.Ok? <==> AllNormalize(normalize, items)
    ensures r.Ok? ==> r.value == Selected(normalize, wanted, items)
    ensures r.Ok? ==> exists positions :: SelectedAt(normalize, wanted, items, positions, r.value)
  {
    var issues: seq<I> := [];
    for i := 0 to |items|
      invariant AllNormalize(normalize, items[..i])
      invariant issues == Selected(normalize, wanted, items[..i])
    {
      var item := normalize(items[i]);
      assert items[..i + 1][..i] == items[..i];
      match item {
        case Err(error) => return Err(error);
        case Ok(None) =>
        case Ok(Some(issue)) =>
          if wanted(issue) {
            issues := issues + [issue];
          }
      }
    }
    assert items[..|items|] == items;
    ghost var positions := SelectedMeaning(normalize, wanted, items);
    return Ok(issues);
  }

  // ---- State names

  /** Unicode's White_Space. */
  predicate IsWhitespace(c: char) {
    || '\U{9}' <= c <= '\U{D}' || c in ['\U{20}', '\U{85}', '\U{A0}', '\U{1680}'] || '\U{2000}' <= c <= '\U{200A}'
    || c in ['\U{2028}', '\U{2029}', '\U{202F}', '\U{205F}', '\U{3000}']
  }

  function TrimStart(text: string): string {
    if text != "" && IsWhitespace(text[0]) then TrimStart(text[1..]) else text
  }

  function TrimEnd(text: string): string {
    if text != "" && IsWhitespace(text[|text| - 1]) then TrimEnd(text[..|text| - 1]) else text
  }

  /** `str::trim`. */
  function Trim(text: string): string {
    TrimEnd(TrimStart(text))
  }

  predicate Blank(text: string) {
    forall i :: 0 <= i < |text| ==> IsWhitespace(text[i])
  }

  lemma {:induction false} TrimStartMeaning(text: string) returns (front: string)
    ensures text == front + TrimStart(text) && Blank(front)
    ensures TrimStart(text) != "" ==> !IsWhitespace(TrimStart(text)[0])
  {
    if text != "" && IsWhitespace(text[0]) {
      front := TrimStartMeaning(text[1..]);
      front := [text[0]] + front;
    } else {
      front := "";
    }
  }

  lemma {:induction false} TrimEndMeaning(text: string) returns (back: string)
    ensures text == TrimEnd(text) + back && Blank(back)
    ensures TrimEnd(text) != "" ==> !IsWhitespace(TrimEnd(text)[|TrimEnd(text)| - 1])
  {
    if text != "" && IsWhitespace(text[|text| - 1]) {
      back := TrimEndMeaning(text[..|text| - 1]);
      back := back + [text[|text| - 1]];
    } else {
      back := "";
    }
  }

  /** Trimming takes away white space at both ends, all of it and nothing else. */
  lemma TrimMeaning(text: string) returns (front: string, back: string)
    ensures text == front + Trim(text) + back && Blank(front) && Blank(back)
    ensures Trim(text) != "" ==> !IsWhitespace(Trim(text)[0]) && !IsWhitespace(Trim(text)[|Trim(text)| - 1])
  {
    front := TrimStartMeaning(text);
    back := TrimEndMeaning(TrimStart(text));
    Associative(front, Trim(text), back);
    assert Trim(text) != "" ==> Trim(text)[0] == TrimStart(text)[0];
  }

  /** State names are compared trimmed and in lower case. */
  function StateName(state: string): string {
    AsciiLower(Trim(state))
  }

  /** Whether an issue is in one of the states, but for white space around them and the case of letters. */
  ghost function InStates(states: seq<string>): Issue -> bool {
    (issue: Issue) => exists i :: 0 <= i < |states| && SameLetters(Trim(states[i]), Trim(issue.state))
  }

  lemma WantedStates(states: seq<string>, issue: Issue)
    ensures InStates(states)(issue) <==> exists i :: 0 <= i < |states| && StateName(states[i]) == StateName(issue.state)
  {
    forall i | 0 <= i < |states|
      ensures SameLetters(Trim(states[i]), Trim(issue.state)) <==> StateName(states[i]) == StateName(issue.state)
    {
      LowerCaseMeaning(Trim(states[i]), Trim(issue.state));
    }
  }

  /** A finished fetch: all pages from the server's first, every item read. */
  predicate Fetched<N(==), I>(server: Server<N>, normalize: Normalizer<N, I>, pages: seq<Page<N>>) {
    && pages != [] && server(None) == Ok(pages[0])
    && CompleteChain(server, pages[0], pages)
    && AllNormalize(normalize, Nodes(pages))
  }

  lemma {:induction false} AllNormalizePrefix<N, I>(
      normalize: Normalizer<N, I>, chain: seq<Page<N>>, pages: seq<Page<N>>)
    requires chain <= pages && AllNormalize(normalize, Nodes(pages))
    ensures AllNormalize(normalize, Nodes(chain))
    decreases |pages|
  {
    if |chain| < |pages| {
      var shorter := pages[..|pages| - 1];
      assert forall i :: 0 <= i < |Nodes(shorter)| ==> Nodes(pages)[i] == Nodes(shorter)[i];
      AllNormalizePrefix(normalize, chain, shorter);
    } else {
      assert chain == pages;
    }
  }

  lemma SelectedInStates<N>(
      states: seq<string>, normalize: Normalizer<N, Issue>, wanted: Issue -> bool, items: seq<N>)
    returns (positions: seq<nat>)
    requires forall issue: Issue ::
               wanted(issue) <==> exists i :: 0 <= i < |states| && StateName(states[i]) == StateName(issue.state)
    ensures SelectedAt(normalize, InStates(states), items, positions, Selected(normalize, wanted, items))
  {
    hide StateName, InStates, Selected;
    positions := SelectedMeaning(normalize, wanted, items);
    forall issue: Issue
      ensures wanted(issue) == InStates(states)(issue)
    {
      WantedStates(states, issue);
    }
    SameSelection(normalize, wanted, InStates(states), items, positions, Selected(normalize, wanted, items));
  }

  /**
    The issues of a project in the wanted states, in the order of the project. An empty list of states asks for
    nothing. Otherwise the fetch succeeds exactly when at most MAX_PAGES pages make a complete chain whose items can all
    be read.
  */
  method FetchProjectIssuesForStates<N(==)>(
      states: seq<string>, server: Server<N>, normalize: Normalizer<N, Issue>)
    returns (r: Result<seq<Issue>, string>)
    ensures states == [] ==> r == Ok([])
    ensures states != [] && r.Ok? ==>
              exists pages, positions :: Fetched(server, normalize, pages) && |pages| <= MAX_PAGES
                                         && SelectedAt(normalize, InStates(states), Nodes(pages), positions, r.value)
    ensures r.Err? ==> forall pages :: Fetched(server, normalize, pages) ==> |pages| > MAX_PAGES
  {
    hide StateName, InStates, SelectedAt, Follows;
    if states == [] {
      return Ok([]);
    }
    var wantedStates := set i | 0 <= i < |states| :: StateName(states[i]);
    var wanted := (issue: Issue) => StateName(issue.state) in wantedStates;
    var after: Option<string> := None;
    var issues: seq<Issue> := [];
    ghost var chain: seq<Page<N>> := [];
    for i := 0 to MAX_PAGES
      invariant |chain| == i
      invariant Progress(server, normalize, wanted, chain, issues)
      invariant if i == 0 then after == None else chain[i - 1].info == PageInfo(true, after) && after.Some?
    {
      var connection := server(after);
      if connection.Err? {
        NoFetchAfter(server, normalize, chain);
        return Err(connection.error);
      }
      var page := connection.value;
      PageStep(server, normalize, wanted, chain, issues, after, page);
      chain := chain + [page];
      var selected := SelectItems(normalize, wanted, page.nodes);
      if selected.Err? {
        NoFetchOver(server, normalize, chain);
        return Err(selected.error);
      }
      issues := issues + selected.value;
      if !page.info.hasNextPage {
        assert Fetched(server, normalize, chain);
        ghost var positions := SelectedInStates(states, normalize, wanted, Nodes(chain));
        return Ok(issues);
      }
      if page.info.endCursor.None? {
        NoFetchAfter(server, normalize, chain);
        return Err("GitHub returned hasNextPage=true without endCursor");
      }
      if after == page.info.endCursor {
        forall pages { Loop(server, chain[0], chain, pages); }
        return Err("GitHub returned the same pagination cursor twice");
      }
      after := page.info.endCursor;
    }
    forall pages | CompleteChain(server, chain[0], pages)
      ensures |pages| > MAX_PAGES
    {
      ChainsAgree(server, chain[0], pages, chain);
    }
    return Err("GitHub project item pagination exceeded safety limit");
  }

  /** What holds of the pages read so far and the issues selected from them. */
  predicate Progress<N(==), I(==)>(
      server: Server<N>, normalize: Normalizer<N, I>, wanted: I -> bool, chain: seq<Page<N>>, issues: seq<I>)
  {
    && IsChain(server, chain)
    && (chain != [] ==> server(None) == Ok(chain[0]))
    && AllNormalize(normalize, Nodes(chain))
    && issues == Selected(normalize, wanted, Nodes(chain))
  }

  lemma PageStep<N, I>(
      server: Server<N>, normalize: Normalizer<N, I>, wanted: I -> bool, chain: seq<Page<N>>, issues: seq<I>,
      after: Option<string>, page: Page<N>)
    requires Progress(server, normalize, wanted, chain, issues)
    requires if chain == [] then after == None else chain[|chain| - 1].info == PageInfo(true, after) && after.Some?
    requires server(after) == Ok(page)
    ensures IsChain(server, chain + [page]) && server(None) == Ok((chain + [page])[0])
    ensures AllNormalize(normalize, page.nodes) ==>
              Progress(server, normalize, wanted, chain + [page], issues + Selected(normalize, wanted, page.nodes))
  {
    assert (chain + [page])[..|chain|] == chain;
    if chain != [] {
      ChainExtends(server, chain, page);
    }
    SelectedConcat(normalize, wanted, Nodes(chain), page.nodes);
  }

  /** No fetch finishes over an item of its last page that cannot be read. */
  lemma NoFetchOver<N, I>(server: Server<N>, normalize: Normalizer<N, I>, chain: seq<Page<N>>)
    requires chain != [] && IsChain(server, chain) && server(None) == Ok(chain[0])
    requires !AllNormalize(normalize, chain[|chain| - 1].nodes)
    ensures forall pages :: !Fetched(server, normalize, pages)
  {
    var before, last := Nodes(chain[..|chain| - 1]), chain[|chain| - 1].nodes;
    assert forall k :: 0 <= k < |last| ==> Nodes(chain)[|before| + k] == last[k];
    assert !AllNormalize(normalize, Nodes(chain));
    forall pages
      ensures !Fetched(server, normalize, pages)
    {
      if Fetched(server, normalize, pages) {
        ChainsAgree(server, chain[0], pages, chain);
        AllNormalizePrefix(normalize, chain, pages);
      }
    }
  }

  /** No fetch finishes once the pages read so far lead nowhere. */
  lemma NoFetchAfter<N, I>(server: Server<N>, normalize: Normalizer<N, I>, chain: seq<Page<N>>)
    requires IsChain(server, chain)
    requires chain == [] ==> server(None).Err?
    requires chain != [] ==>
               var info := chain[|chain| - 1].info;
               server(None) == Ok(chain[0]) && info.hasNextPage && (info.endCursor.None? || server(info.endCursor).Err?)
    ensures forall pages :: !Fetched(server, normalize, pages)
  {
    forall pages
      ensures !Fetched(server, normalize, pages)
    {
      if chain != [] && Fetched(server, normalize, pages) {
        DeadEnd(server, chain[0], chain, pages);
      }
    }
  }
}
