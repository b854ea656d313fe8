/** The entry point of `rag/final/pipeline.py`: which source each report
    item is generated from, the dispatch on that source with its error
    cases, the patent-classification search keyword, and the loop over
    items that turns an exception inside one item into a failure record. */
module Pipeline {
  import opened Wrappers
  import opened Text
  import opened Schemas
  import opened Generator

  /** The market-and-competitors item, always answered by a grounded search. */
  const MarketItemId := 3
  /** The patent item, the only one that may take the patent route. */
  const PatentItemId := 2
  const DefaultSource := "vectordb"

  /** `_resolve_source`: the fixed source of the market item comes first,
      then the caller's override map (Python tests it for emptiness before
      looking the id up), then the default. */
  function ResolveSource(itemId: int, sourceMap: Option<map<int, string>>, defaultSource: string): (r: string)
    ensures itemId == MarketItemId ==> r == "googlesearch"
    ensures itemId != MarketItemId && sourceMap.Some? && itemId in sourceMap.value ==> r == sourceMap.value[itemId]
    ensures itemId != MarketItemId && (sourceMap.None? || itemId !in sourceMap.value) ==> r == defaultSource
  {
    if itemId == MarketItemId then "googlesearch"
    else if sourceMap.Some? && |sourceMap.value| > 0 && itemId in sourceMap.value then sourceMap.value[itemId]
    else defaultSource
  }

  /** An empty override map behaves as no map at all. */
  lemma EmptySourceMapIsNone(itemId: int, defaultSource: string)
    ensures ResolveSource(itemId, Some(map[]), defaultSource) == ResolveSource(itemId, None, defaultSource)
  {
  }

  /** The generator a source selects. */
  datatype Route = PatentRoute | SearchRoute | VectorDbRoute | FileRoute | FileAndVectorDbRoute

  /** The source string that selects a route. */
  function RouteSource(route: Route): string
  {
    match route
    case PatentRoute => "ipc+kipris"
    case SearchRoute => "googlesearch"
    case VectorDbRoute => "vectordb"
    case FileRoute => "file"
    case FileAndVectorDbRoute => "file+vectordb"
  }

  /** `not business_plan_pdf` is false: a path is given and is not empty. */
  predicate HasPdf(pdf: Option<string>)
  {
    pdf.Some? && pdf.value != ""
  }

  /** Sources the dispatcher knows for an item. */
  predicate Supported(itemId: int, source: string)
  {
    (itemId == PatentItemId && source == "ipc+kipris")
    || source == "googlesearch" || source == "vectordb" || source == "file" || source == "file+vectordb"
  }

  /** The branching of `_generate_by_item`: the route taken, or the message
      of the ValueError it raises. In each branch that needs the file,
      `source` is the literal the branch tests, so the message is that
      branch's literal text. */
  function Dispatch(itemId: int, source: string, pdf: Option<string>): (r: Result<Route, string>)
    ensures r.Ok? ==> RouteSource(r.value) == source
    ensures r.Ok? && r.value == PatentRoute ==> itemId == PatentItemId
    ensures r.Ok? <==> Supported(itemId, source) && (RouteNeedsPdf(source) ==> HasPdf(pdf))
    ensures !Supported(itemId, source) ==> r == Err("Unsupported source: " + source)
    ensures Supported(itemId, source) && RouteNeedsPdf(source) && !HasPdf(pdf) ==>
      r == Err(source + " source requires business_plan_pdf")
  {
    if itemId == PatentItemId && source == "ipc+kipris" then
      if !HasPdf(pdf) then Err(source + " source requires business_plan_pdf") else Ok(PatentRoute)
    else if source == "googlesearch" then Ok(SearchRoute)
    else if source == "vectordb" then Ok(VectorDbRoute)
    else if source == "file" then
      if !HasPdf(pdf) then Err(source + " source requires business_plan_pdf") else Ok(FileRoute)
    else if source == "file+vectordb" then
      if !HasPdf(pdf) then Err(source + " source requires business_plan_pdf") else Ok(FileAndVectorDbRoute)
    else Err("Unsupported source: " + source)
  }

  /** Source strings whose route reads the business plan file. */
  predicate RouteNeedsPdf(source: string)
  {
    source == "ipc+kipris" || source == "file" || source == "file+vectordb"
  }

  /** The patent source names a route only for the patent item. */
  lemma PatentSourceElsewhereIsUnsupported(itemId: int, pdf: Option<string>)
    requires itemId != PatentItemId
    ensures Dispatch(itemId, "ipc+kipris", pdf) == Err("Unsupported source: " + "ipc+kipris")
  {
  }

  // ---------------------------------------------------------------------
  // Patent search keyword
  // ---------------------------------------------------------------------

  /** `s.replace(" ", "")`. */
  function RemoveSpaces(s: string): (r: string)
    ensures ' ' !in r
    ensures |r| <= |s|
    ensures ' ' !in s ==> r == s
  {
    if s == [] then []
    else (if s[0] == ' ' then [] else [s[0]]) + RemoveSpaces(s[1..])
  }

  /** Removing spaces works piecewise, so every other character is kept in
      its order. */
  lemma {:induction false} RemoveSpacesAppend(a: string, b: string)
    ensures RemoveSpaces(a + b) == RemoveSpaces(a) + RemoveSpaces(b)
  {
    if a != [] {
      var h := if a[0] == ' ' then [] else [a[0]];
      assert (a + b)[1..] == a[1..] + b;
      assert RemoveSpaces(a + b) == h + RemoveSpaces(a[1..] + b);
      RemoveSpacesAppend(a[1..], b);
      assert RemoveSpaces(a) == h + RemoveSpaces(a[1..]);
      assert h + (RemoveSpaces(a[1..]) + RemoveSpaces(b)) == (h + RemoveSpaces(a[1..])) + RemoveSpaces(b);
    } else {
      assert a + b == b;
    }
  }

  function NormalisedCodes(items: seq<IpcAnalysisItem>): (r: seq<string>)
    ensures |r| == |items|
    ensures forall i :: 0 <= i < |items| ==> r[i] == RemoveSpaces(items[i].ipcCode)
  {
    seq(|items|, i requires 0 <= i < |items| => RemoveSpaces(items[i].ipcCode))
  }

  lemma {:induction false} JoinWithout(sep: string, xs: seq<string>, c: char)
    requires c !in sep
    requires forall i :: 0 <= i < |xs| ==> c !in xs[i]
    ensures c !in Join(sep, xs)
  {
    if |xs| > 1 {
      JoinWithout(sep, xs[1..], c);
    }
  }

  /** `build_kipris_ipc_keyword`: the codes with their spaces removed,
      joined by `*` in input order. Splitting the keyword on `*` gives the
      codes back when no code contains a `*`. */
  method BuildKiprisIpcKeyword(items: seq<IpcAnalysisItem>) returns (keyword: string)
    ensures keyword == Join("*", NormalisedCodes(items))
    ensures ' ' !in keyword
    ensures items == [] ==> keyword == ""
    ensures items != [] && (forall i :: 0 <= i < |items| ==> '*' !in items[i].ipcCode) ==>
      Split(keyword, '*') == NormalisedCodes(items)
  {
    var codes: seq<string> := [];
    for i := 0 to |items|
      invariant |codes| == i
      invariant forall k :: 0 <= k < i ==> codes[k] == RemoveSpaces(items[k].ipcCode)
    {
      codes := codes + [RemoveSpaces(items[i].ipcCode)];
    }
    assert codes == NormalisedCodes(items);
    keyword := Join("*", codes);
    JoinWithout("*", codes, ' ');
    if items != [] && (forall i :: 0 <= i < |items| ==> '*' !in items[i].ipcCode) {
      forall i | 0 <= i < |codes| ensures '*' !in codes[i] {
        RemoveSpacesKeeps(items[i].ipcCode, '*');
      }
      SplitJoin(codes, '*');
    }
  }

  lemma RemoveLeadingSpace(b: string)
    ensures RemoveSpaces(" " + b) == RemoveSpaces(b)
  {
    var t := " " + b;
    assert t[0] == ' ' && t[1..] == b;
  }

  lemma RemoveInnerSpace(a: string, b: string)
    requires ' ' !in a && ' ' !in b
    ensures RemoveSpaces(a + " " + b) == a + b
  {
    Concat3(a, " ", b);
    RemoveLeadingSpace(b);
    RemoveSpacesAppend(a, " " + b);
  }

  /** Three codes, the first written with a space inside: the keyword is
      the codes without the space, joined by `*`. */
  lemma KeywordOfThree(a: string, b: string, c: string, d: string)
    requires ' ' !in a && ' ' !in b && ' ' !in c && ' ' !in d
    ensures Join("*", NormalisedCodes([
      IpcAnalysisItem(a + " " + b, "", "", ""),
      IpcAnalysisItem(c, "", "", ""),
      IpcAnalysisItem(d, "", "", "")])) == a + b + "*" + c + "*" + d
  {
    RemoveInnerSpace(a, b);
    var codes := NormalisedCodes([
      IpcAnalysisItem(a + " " + b, "", "", ""),
      IpcAnalysisItem(c, "", "", ""),
      IpcAnalysisItem(d, "", "", "")]);
    assert codes == [a + b, c, d];
    assert codes[1..] == [c, d] && codes[1..][1..] == [d];
    assert Join("*", [d]) == d;
    assert Join("*", [c, d]) == c + "*" + d;
    assert Join("*", codes) == (a + b) + "*" + (c + "*" + d);
  }

  /** The example of the source's documentation, `G06Q 50/16`, `G06T19/00`,
      `G06Q10/06` giving `G06Q50/16*G06T19/00*G06Q10/06`. */
  lemma KeywordExample()
    ensures Join("*", NormalisedCodes([
      IpcAnalysisItem("G06Q" + " " + "50/16", "", "", ""),
      IpcAnalysisItem("G06T19/00", "", "", ""),
      IpcAnalysisItem("G06Q10/06", "", "", "")])) == "G06Q" + "50/16" + "*" + "G06T19/00" + "*" + "G06Q10/06"
  {
    KeywordOfThree("G06Q", "50/16", "G06T19/00", "G06Q10/06");
  }

  /** Removing spaces adds no other character. */
  lemma {:induction false} RemoveSpacesKeeps(s: string, c: char)
    requires c !in s
    ensures c !in RemoveSpaces(s)
  {
    if s != [] {
      RemoveSpacesKeeps(s[1..], c);
    }
  }

  // ---------------------------------------------------------------------
  // The item loop
  // ---------------------------------------------------------------------

  /** An entry of the item catalogue. */
  datatype ItemDefinition = ItemDefinition(title: string, query: string, sections: seq<string>)

  /** The content a generator produced for an item. */
  datatype ItemContent =
    | EvaluationText(text: string)
    | MarketContent(parsed: MarketForecastAndCompetitors, grounding: Option<string>)
    | PatentContent(analysis: seq<IpcAnalysisItem>, statistics: KiprisYearAggregates)

  /** One entry of the result: the item's output, or the failure record
      `{title, error: True, message, content: None}`. */
  datatype ItemRecord =
    | Completed(title: string, content: ItemContent)
    | Failed(title: string, message: string)

  /** Exceptions that escape the loop and abort the run: items missing from
      the catalogue and failures of the embedding or retrieval, which sit
      outside the `try`. */
  datatype RunError = MissingItem(itemId: int) | RetrievalFailed(itemId: int, message: string)

  /** The first and last item ids: the caller's range, or the whole catalogue. */
  function ItemBounds(itemRange: Option<(int, int)>, catalogSize: nat): (b: (int, int))
    ensures itemRange.Some? ==> b == itemRange.value
    ensures itemRange.None? ==> b == (1, catalogSize)
  {
    if itemRange.Some? then itemRange.value else (1, catalogSize)
  }

  /** `PROMPT_MAP.get(title)`: the item's prompt, or `None` for a title
      without one. */
  function PromptFor(title: string, prompts: map<string, string>): (t: Option<string>)
    ensures t.Some? <==> title in prompts
    ensures t.Some? ==> t.value == prompts[title]
  {
    if title in prompts then Some(prompts[title]) else None
  }

  /** The body of the `try` for one item: resolution, the prompt lookup (a
      title without a prompt gives a `None` task) and dispatch; `produce` runs
      the selected generator. */
  function ItemResult(itemId: int, item: ItemDefinition, blocks: seq<ContextBlock>,
                      sourceMap: Option<map<int, string>>, pdf: Option<string>,
                      prompts: map<string, string>,
                      produce: (int, Route, Option<string>, seq<ContextBlock>) -> Result<ItemContent, string>): (r: ItemRecord)
    ensures r.title == item.title
    ensures Dispatch(itemId, ResolveSource(itemId, sourceMap, DefaultSource), pdf).Err? ==>
      r == Failed(item.title, Dispatch(itemId, ResolveSource(itemId, sourceMap, DefaultSource), pdf).error)
    // Once dispatched, the item fails exactly when its generator raises, and
    // records what the generator returned, given the item's prompt.
    ensures var route := Dispatch(itemId, ResolveSource(itemId, sourceMap, DefaultSource), pdf);
      route.Ok? ==>
        var out := produce(itemId, route.value, PromptFor(item.title, prompts), blocks);
        (r.Failed? <==> out.Err?) &&
        (out.Err? ==> r.message == out.error) &&
        (out.Ok? ==> r.content == out.value)
    ensures r.Completed? ==> Dispatch(itemId, ResolveSource(itemId, sourceMap, DefaultSource), pdf).Ok?
  {
    var source := ResolveSource(itemId, sourceMap, DefaultSource);
    var task := PromptFor(item.title, prompts);
    match Dispatch(itemId, source, pdf)
    case Err(m) => Failed(item.title, m)
    case Ok(route) =>
      match produce(itemId, route, task, blocks)
      case Err(m) => Failed(item.title, m)
      case Ok(c) => Completed(item.title, c)
  }

  /** The item is in the catalogue and its context was retrieved. */
  predicate Ready(itemId: int, catalog: map<int, ItemDefinition>,
                  retrieve: (int, ItemDefinition) -> Result<seq<ContextBlock>, string>)
  {
    itemId in catalog && retrieve(itemId, catalog[itemId]).Ok?
  }

  /** The exception a non-ready item raises outside the `try`. */
  function AbortError(itemId: int, catalog: map<int, ItemDefinition>,
                      retrieve: (int, ItemDefinition) -> Result<seq<ContextBlock>, string>): RunError
    requires !Ready(itemId, catalog, retrieve)
  {
    if itemId !in catalog then MissingItem(itemId)
    else RetrievalFailed(itemId, retrieve(itemId, catalog[itemId]).error)
  }

  /** `generate`. `retrieve` stands for the query formatting, embedding and
      retrieval of an item's context; `visited` lists the ids processed. */
  method Generate(sourceMap: Option<map<int, string>>, pdf: Option<string>, itemRange: Option<(int, int)>,
                  catalog: map<int, ItemDefinition>, prompts: map<string, string>,
                  retrieve: (int, ItemDefinition) -> Result<seq<ContextBlock>, string>,
                  produce: (int, Route, Option<string>, seq<ContextBlock>) -> Result<ItemContent, string>)
    returns (r: Result<map<int, ItemRecord>, RunError>, visited: seq<int>)
    ensures var (start, end) := ItemBounds(itemRange, |catalog|);
      forall k :: 0 <= k < |visited| ==> visited[k] == start + k && visited[k] <= end
    ensures forall k :: 0 <= k < |visited| - 1 ==> Ready(visited[k], catalog, retrieve)
    ensures var (start, end) := ItemBounds(itemRange, |catalog|);
      r.Ok? ==> |visited| == (if end < start then 0 else end - start + 1)
    ensures var (start, end) := ItemBounds(itemRange, |catalog|);
      r.Ok? ==> forall i :: i in r.value <==> start <= i <= end
    ensures r.Ok? ==> forall i :: i in r.value ==>
      Ready(i, catalog, retrieve) &&
      r.value[i] == ItemResult(i, catalog[i], retrieve(i, catalog[i]).value, sourceMap, pdf, prompts, produce)
    ensures r.Err? ==> visited != []
    ensures r.Err? ==>
      !Ready(visited[|visited| - 1], catalog, retrieve) &&
      r.error == AbortError(visited[|visited| - 1], catalog, retrieve)
  {
    var (start, end) := ItemBounds(itemRange, |catalog|);
    var results: map<int, ItemRecord> := map[];
    visited := [];
    var itemId := start;
    while itemId <= end
      invariant start <= itemId && (itemId == start || itemId <= end + 1)
      invariant |visited| == itemId - start
      invariant forall k :: 0 <= k < |visited| ==> visited[k] == start + k && visited[k] <= end
      invariant forall k :: 0 <= k < |visited| ==> Ready(visited[k], catalog, retrieve)
      invariant forall i :: i in results <==> start <= i < itemId
      invariant forall i :: i in results ==>
        Ready(i, catalog, retrieve) &&
        results[i] == ItemResult(i, catalog[i], retrieve(i, catalog[i]).value, sourceMap, pdf, prompts, produce)
      decreases end - itemId
    {
      visited := visited + [itemId];
      if itemId !in catalog {
        r := Err(MissingItem(itemId));
        return;
      }
      var item := catalog[itemId];
      match retrieve(itemId, item) {
        case Err(m) =>
          r := Err(RetrievalFailed(itemId, m));
          return;
        case Ok(blocks) =>
          results := results[itemId := ItemResult(itemId, item, blocks, sourceMap, pdf, prompts, produce)];
      }
      itemId := itemId + 1;
    }
    r := Ok(results);
  }
}
