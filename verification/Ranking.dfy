// The suggestions for a list of hits: collected, ranked, turned into predictions on demand, and
// reduced to one per document on demand.

module Ranking {
  import opened Wrappers
  import opened Strings
  import opened Text
  import opened Stopwords
  import opened Matching
  import opened ResponseTree
  import opened Predictive
  import opened FirstOfKey

  // ---------- Stable sorting ----------

  // The order in which suggestions are shown: by _rs_score, then by _score.
  predicate Better(a: Suggestion, b: Suggestion) {
    a.rsScore > b.rsScore || (a.rsScore == b.rsScore && a.score > b.score)
  }

  predicate SameRank(a: Suggestion, b: Suggestion) {
    a.rsScore == b.rsScore && a.score == b.score
  }

  // By falling _rs_score, and among equals by falling _score.
  predicate Sorted(gs: seq<Suggestion>) {
    forall i, j :: 0 <= i < j < |gs| ==>
      gs[i].rsScore > gs[j].rsScore || (gs[i].rsScore == gs[j].rsScore && gs[i].score >= gs[j].score)
  }

  // The suggestions ranked like g, in order.
  function RankedLike(gs: seq<Suggestion>, g: Suggestion): seq<Suggestion> {
    if gs == [] then []
    else (if SameRank(gs[0], g) then [gs[0]] else []) + RankedLike(gs[1..], g)
  }

  // What sort.SliceStable promises.
  ghost predicate StablySorted(gs: seq<Suggestion>, sorted: seq<Suggestion>) {
    Sorted(sorted) && forall g :: RankedLike(sorted, g) == RankedLike(gs, g)
  }

  function Inserted(g: Suggestion, sorted: seq<Suggestion>): seq<Suggestion> {
    if sorted == [] || !Better(sorted[0], g) then [g] + sorted
    else [sorted[0]] + Inserted(g, sorted[1..])
  }

  function StableSort(gs: seq<Suggestion>): seq<Suggestion> {
    if gs == [] then [] else Inserted(gs[0], StableSort(gs[1..]))
  }

  lemma {:induction false} InsertedSorted(g: Suggestion, sorted: seq<Suggestion>)
    requires Sorted(sorted)
    ensures Sorted(Inserted(g, sorted))
    ensures forall x :: x in Inserted(g, sorted) <==> x == g || x in sorted
  {
    var all := Inserted(g, sorted);
    if sorted != [] && Better(sorted[0], g) {
      var head, tail := sorted[0], sorted[1..];
      InsertedSorted(g, tail);
      assert forall x :: x in sorted <==> x == head || x in tail;
      SortedCons(head, Inserted(g, tail));
    } else {
      SortedCons(g, sorted);
    }
  }

  lemma SortedCons(head: Suggestion, tail: seq<Suggestion>)
    requires Sorted(tail) && forall x :: x in tail ==> !Better(x, head)
    ensures Sorted([head] + tail)
  {
    var all := [head] + tail;
    forall i, j | 0 <= i < j < |all|
      ensures !Better(all[j], all[i])
    {
      assert all[j] == tail[j - 1] && all[j] in tail;
    }
  }

  lemma {:induction false} InsertedStable(g: Suggestion, sorted: seq<Suggestion>, like: Suggestion)
    ensures RankedLike(Inserted(g, sorted), like) == RankedLike([g] + sorted, like)
  {
    if sorted != [] && Better(sorted[0], g) {
      var head, tail := sorted[0], sorted[1..];
      InsertedStable(g, tail, like);
      assert Inserted(g, sorted)[1..] == Inserted(g, tail);
      assert ([g] + tail)[1..] == tail && ([g] + sorted)[1..] == sorted;
    }
  }

  lemma {:induction false} StableSortSorts(gs: seq<Suggestion>)
    ensures StablySorted(gs, StableSort(gs))
    ensures forall x :: x in StableSort(gs) <==> x in gs
  {
    if gs != [] {
      var rest := StableSort(gs[1..]);
      StableSortSorts(gs[1..]);
      InsertedSorted(gs[0], rest);
      forall like
        ensures RankedLike(StableSort(gs), like) == RankedLike(gs, like)
      {
        InsertedStable(gs[0], rest, like);
        assert ([gs[0]] + rest)[1..] == rest;
      }
      assert forall x :: x in gs <==> x == gs[0] || x in gs[1..];
    }
  }

  lemma {:induction false} RankedLikeHead(gs: seq<Suggestion>, g: Suggestion)
    ensures RankedLike(gs, g) != [] ==> RankedLike(gs, g)[0] in gs && SameRank(RankedLike(gs, g)[0], g)
    ensures (exists x :: x in gs && SameRank(x, g)) ==> RankedLike(gs, g) != []
  {
    if gs != [] {
      RankedLikeHead(gs[1..], g);
      assert forall x :: x in gs <==> x == gs[0] || x in gs[1..];
    }
  }

  // Only one list is a stable sorting of a given one.
  lemma {:induction false} StablySortedUnique(a: seq<Suggestion>, b: seq<Suggestion>)
    requires Sorted(a) && Sorted(b) && forall g :: RankedLike(a, g) == RankedLike(b, g)
    ensures a == b
  {
    if a != [] {
      RankedLikeHead(a, a[0]);
      assert RankedLike(a, a[0])[0] == a[0];
      RankedLikeHead(b, a[0]);
      assert b != [];
      RankedLikeHead(a, b[0]);
      RankedLikeHead(b, b[0]);
      SameHead(a, b);
      forall g
        ensures RankedLike(a[1..], g) == RankedLike(b[1..], g)
      {
        var head := if SameRank(a[0], g) then [a[0]] else [];
        assert RankedLike(a, g) == RankedLike(b, g);
        assert RankedLike(a[1..], g) == RankedLike(a, g)[|head|..];
        assert RankedLike(b[1..], g) == RankedLike(b, g)[|head|..];
      }
      StablySortedUnique(a[1..], b[1..]);
    }
  }

  lemma SameHead(a: seq<Suggestion>, b: seq<Suggestion>)
    requires a != [] && b != [] && Sorted(a) && Sorted(b)
    requires RankedLike(a, a[0]) == RankedLike(b, a[0]) && RankedLike(a, b[0]) == RankedLike(b, b[0])
    ensures a[0] == b[0]
  {
    RankedLikeHead(b, a[0]);
    RankedLikeHead(a, b[0]);
    assert a[0] in a && b[0] in b;
    var x, y := RankedLike(b, a[0])[0], RankedLike(a, b[0])[0];
    assert x in b && SameRank(x, a[0]);
    assert y in a && SameRank(y, b[0]);
    assert !Better(x, b[0]) && !Better(y, a[0]);
    assert SameRank(a[0], b[0]);
    RankedLikeSame(b, a[0], b[0]);
  }

  lemma {:induction false} RankedLikeSame(gs: seq<Suggestion>, g: Suggestion, h: Suggestion)
    requires SameRank(g, h)
    ensures RankedLike(gs, g) == RankedLike(gs, h)
  {
    if gs != [] {
      RankedLikeSame(gs[1..], g, h);
    }
  }

  // ---------- One suggestion per document ----------

  function Documents(gs: seq<Suggestion>): seq<Option<string>> {
    seq(|gs|, i requires 0 <= i < |gs| => Some(gs[i].id))
  }

  // The first suggestion of each document.
  function FirstOnes(gs: seq<Suggestion>): seq<Suggestion> {
    Picked(gs, Survivors(Documents(gs), |gs|))
  }

  method KeepDistinct(gs: seq<Suggestion>) returns (filtered: seq<Suggestion>)
    ensures filtered == FirstOnes(gs)
  {
    filtered := [];
    ghost var documents := Documents(gs);
    var idMap: map<string, bool> := map[];
    for k := 0 to |gs|
      invariant filtered == Picked(gs, Survivors(documents, k))
      invariant idMap.Keys == Seen(documents, k)
    {
      if gs[k].id !in idMap {
        PickedAppend(gs, Survivors(documents, k), k);
        filtered := filtered + [gs[k]];
        idMap := idMap[gs[k].id := true];
      }
    }
  }

  // Of a sorted list, every document keeps exactly one suggestion, none of its others is better,
  // and the list stays sorted.
  lemma FirstOnesKeepBest(gs: seq<Suggestion>)
    requires Sorted(gs)
    ensures var list := FirstOnes(gs);
            && Sorted(list)
            && (forall a, b :: 0 <= a < b < |list| ==> list[a].id != list[b].id)
            && (forall g :: g in list ==> g in gs)
            && (forall g, h :: g in list && h in gs && h.id == g.id ==> !Better(h, g))
            && (forall h :: h in gs ==> exists g :: g in list && g.id == h.id)
  {
    FirstOnesApart(gs);
    FirstOnesCover(gs);
    var list := FirstOnes(gs);
    forall g, h | g in list && h in gs && h.id == g.id
      ensures !Better(h, g)
    {
      var best :| best in list && best.id == h.id && !Better(h, best);
      assert best == g;
    }
  }

  lemma FirstOnesApart(gs: seq<Suggestion>)
    requires Sorted(gs)
    ensures Sorted(FirstOnes(gs))
    ensures var list := FirstOnes(gs); forall a, b :: 0 <= a < b < |list| ==> list[a].id != list[b].id
  {
    var documents, picks, list := Documents(gs), Survivors(Documents(gs), |gs|), FirstOnes(gs);
    SurvivorsInOrder(documents, |gs|);
    forall a, b | 0 <= a < b < |list|
      ensures list[a].id != list[b].id && !Better(list[b], list[a])
    {
      SurvivorsDistinct(documents, |gs|, a, b);
      assert picks[a] < picks[b];
    }
  }

  lemma FirstOnesCover(gs: seq<Suggestion>)
    requires Sorted(gs)
    ensures forall h :: h in gs ==> exists g :: g in FirstOnes(gs) && g.id == h.id && !Better(h, g)
  {
    var documents, picks, list := Documents(gs), Survivors(Documents(gs), |gs|), FirstOnes(gs);
    SurvivorsInOrder(documents, |gs|);
    forall h | h in gs
      ensures exists g :: g in list && g.id == h.id && !Better(h, g)
    {
      var j :| 0 <= j < |gs| && gs[j] == h;
      var i := SurvivorOf(documents, j);
      assert i in picks;
      var a :| 0 <= a < |picks| && picks[a] == i;
      assert list[a].id == h.id && list[a] in list;
    }
  }

  // ---------- The suggestions of a request ----------

  datatype Settings = Settings(
    value: string,
    valueFields: seq<string>,
    highlightField: seq<string>,
    dataFields: seq<string>,
    showDistinct: bool,
    enablePredictive: bool,
    applyStopwords: bool,
    maxPredictedWords: int,
    preTags: string,
    postTags: string,
    stopwords: seq<string>,
    stem: string -> string,
    cleanString: string -> string,
    rank: (string, seq<string>) -> seq<Rank>,
    lower: char -> char,
    stripHtml: string -> string,
    compress: string -> string,
    extractFields: map<string, Tree> -> seq<string>)
  {
    // The stopwords of the user count only if they are to be applied.
    function Stopless(text: string): string {
      WithoutStopwords(lower, cleanString, if applyStopwords then stopwords else [], text)
    }

    function Lang(): Lang {
      Matching.Lang.Lang(stem, text => Stopless(text), rank)
    }

    function Value(): string {
      Normalize(lower, value)
    }

    function Clean(): string -> string {
      body => Normalize(lower, stripHtml(body))
    }

    // parseSuggestionLabel: the stems of the text in lower case, without stopwords and surplus space.
    function ParseLabel(text: string): string {
      RemoveSpaces(Join(StemmedTokens(Lang(), Stopless(Lower(lower, RemoveSpaces(text)))), ' '))
    }

    function Config(): Config {
      ResponseTree.Config.Config(Value(), s => Lower(lower, s), text => ParseLabel(text), Clean(), (fieldValue, query) => Match(Lang(), fieldValue, query))
    }

    function Predictor(): Predictor {
      Predictive.Predictor.Predictor(Value(), s => Normalize(lower, s), Clean(), text => Stopless(text), stem, compress,
                                     applyStopwords, maxPredictedWords, preTags, postTags)
    }

    // The fields that are searched: valueFields, else highlightField, else dataFields, else the
    // fields of the first hit.
    function Fields(hits: seq<Hit>): seq<string> {
      if valueFields != [] then valueFields
      else if highlightField != [] then highlightField
      else if dataFields == [] && hits != [] then extractFields(hits[0].source)
      else dataFields
    }
  }

  // The suggestions in the order of the search.
  function Collection(s: Settings, docs: seq<DocField>): seq<Suggestion> {
    PopulatedAll(s.Config(), docs, Lists([], [])).suggestions
  }

  function Ranked(s: Settings, docs: seq<DocField>): seq<Suggestion> {
    StableSort(Collection(s, docs))
  }

  function Shown(s: Settings, docs: seq<DocField>): seq<Suggestion> {
    if s.enablePredictive then Predictions(s.Predictor(), Ranked(s, docs)) else Ranked(s, docs)
  }

  function Final(s: Settings, docs: seq<DocField>): seq<Suggestion> {
    var shown := Shown(s, docs);
    if s.showDistinct then FirstOnes(shown) else shown
  }

  // GetIndexSuggestions; None when the search panics.
  method GetIndexSuggestions(s: Settings, hits: seq<Hit>) returns (r: Option<seq<Suggestion>>)
    ensures var docs := AllDocs(s.Config(), hits, s.Fields(hits));
            r == if docs.Some? then Some(Final(s, docs.value)) else None
  {
    var lists := new SuggestionLists();
    var ok := lists.GetDefaultSuggestions(s.Config(), hits, s.Fields(hits));
    if !ok {
      return None;
    }
    var list := StableSort(lists.suggestions);
    if s.enablePredictive {
      list := GetPredictiveSuggestions(s.Predictor(), list);
    }
    if s.showDistinct {
      list := KeepDistinct(list);
    }
    return Some(list);
  }

  // Predicting keeps the list sorted.
  lemma PredictionsSorted(p: Predictor, gs: seq<Suggestion>)
    requires Sorted(gs)
    ensures Sorted(Predictions(p, gs))
    ensures forall r :: r in Predictions(p, gs) ==> exists g :: g in gs && SameSource(r, g)
  {
    if p.value != "" {
      var list, picks := Predictions(p, gs), KeptPredictions(p, gs);
      PredictionsInOrder(p, gs);
      forall k | 0 <= k < |list|
        ensures SameSource(list[k], gs[picks[k]])
      {
        WordBudget(p, gs[picks[k]]);
      }
      forall i, j | 0 <= i < j < |list|
        ensures !Better(list[j], list[i])
      {
        assert picks[i] < picks[j];
      }
    }
  }

  // Whatever the settings, the final suggestions are sorted.
  lemma FinalSorted(s: Settings, docs: seq<DocField>)
    ensures Sorted(Shown(s, docs)) && Sorted(Final(s, docs))
  {
    StableSortSorts(Collection(s, docs));
    PredictionsSorted(s.Predictor(), Ranked(s, docs));
    FirstOnesKeepBest(Shown(s, docs));
  }

  // With distinct suggestions on, every document that would be shown is shown once, with a
  // suggestion that none of its others beats.
  lemma DistinctKeepsBest(s: Settings, docs: seq<DocField>)
    requires s.showDistinct
    ensures var shown, list := Shown(s, docs), Final(s, docs);
            && (forall a, b :: 0 <= a < b < |list| ==> list[a].id != list[b].id)
            && (forall g :: g in list ==> g in shown)
            && (forall h :: h in shown ==> exists g :: g in list && g.id == h.id)
            && (forall g, h :: g in list && h in shown && h.id == g.id ==> !Better(h, g))
  {
    FinalSorted(s, docs);
    var shown := Shown(s, docs);
    FirstOnesKeepBest(shown);
  }

  // ---------- Where suggestions come from ----------

  lemma {:induction false} DocsFrom(texts: seq<string>, hit: Hit)
    ensures forall d :: d in Docs(texts, hit) ==> d.rawHit == hit && d.value in texts
  {
    if texts != [] {
      DocsFrom(texts[1..], hit);
    }
  }

  // The text is at one of the fields of the hit.
  ghost predicate Shows(hit: Hit, fields: seq<string>, text: string) {
    exists f :: f in fields && Leads(ParsedSource(hit), Split(f, '.'), text)
  }

  lemma {:induction false} HitDocsFrom(c: Config, hit: Hit, fields: seq<string>)
    requires HitDocs(c, hit, fields).Some?
    ensures forall d :: d in HitDocs(c, hit, fields).value ==> d.rawHit == hit && Shows(hit, fields, d.value)
  {
    if fields != [] {
      var n := |fields| - 1;
      HitDocsFrom(c, hit, fields[..n]);
      var path := Split(fields[n], '.');
      var texts := Candidates(c, ParsedSource(hit), path).value;
      DocsFrom(texts, hit);
      assert fields[n] in fields && forall f :: f in fields[..n] ==> f in fields;
      forall text | text in texts
        ensures Leads(ParsedSource(hit), path, text)
      {
        CandidatesLead(c, ParsedSource(hit), path, text);
      }
    }
  }

  lemma {:induction false} AllDocsFrom(c: Config, hits: seq<Hit>, fields: seq<string>)
    requires AllDocs(c, hits, fields).Some?
    ensures forall d :: d in AllDocs(c, hits, fields).value ==> d.rawHit in hits && Shows(d.rawHit, fields, d.value)
  {
    if hits != [] {
      var n := |hits| - 1;
      AllDocsFrom(c, hits[..n], fields);
      HitDocsFrom(c, hits[n], fields);
    }
  }

  // The suggestion was made for the text, from a hit that shows it.
  ghost predicate MadeFrom(s: Settings, hits: seq<Hit>, g: Suggestion, hit: Hit, text: string) {
    && hit in hits && Shows(hit, s.Fields(hits), text)
    && g.id == hit.id && g.score == hit.score
    && var rank := Match(s.Lang(), s.Clean()(Unquoted(text)), s.Value());
       g.rsScore == rank.score && g.matchedTokens == rank.matchedTokens
  }

  // Every final suggestion was made for a text at one of the fields of a hit, with the hit's id and
  // score. Its _rs_score, in tenths, lies between 0 and 11 n - 1 for the n stems of the query, and
  // unless predictions are on, the text without its quotes is its label, and cleaned its value.
  lemma SuggestionsComeFromHits(s: Settings, hits: seq<Hit>, docs: seq<DocField>, r: Suggestion)
    requires AllDocs(s.Config(), hits, s.Fields(hits)) == Some(docs) && r in Final(s, docs)
    ensures exists hit, text :: MadeFrom(s, hits, r, hit, text)
              && (!s.enablePredictive ==> r.labelText == Unquoted(text) && r.value == s.Clean()(r.labelText))
    ensures 0 <= r.rsScore <= 11 * |StemmedTokens(s.Lang(), s.Stopless(s.Value()))| - 1
  {
    var g := Original(s, docs, r);
    CollectedFrom(s, hits, docs, g);
    var hit, text :| MadeFrom(s, hits, g, hit, text) && g.labelText == Unquoted(text) && g.value == s.Clean()(g.labelText);
    SameSourceMade(s, hits, g, r, hit, text);
  }

  lemma SameSourceMade(s: Settings, hits: seq<Hit>, g: Suggestion, r: Suggestion, hit: Hit, text: string)
    requires MadeFrom(s, hits, g, hit, text) && SameSource(r, g)
    ensures MadeFrom(s, hits, r, hit, text)
  {
  }

  lemma CollectedFrom(s: Settings, hits: seq<Hit>, docs: seq<DocField>, g: Suggestion)
    requires AllDocs(s.Config(), hits, s.Fields(hits)) == Some(docs) && g in Collection(s, docs)
    ensures exists hit, text :: MadeFrom(s, hits, g, hit, text) && g.labelText == Unquoted(text) && g.value == s.Clean()(g.labelText)
    ensures 0 <= g.rsScore <= 11 * |StemmedTokens(s.Lang(), s.Stopless(s.Value()))| - 1
  {
    CollectsAll(s.Config(), docs, Lists([], []));
    var d :| d in docs && g == SuggestionOf(s.Config(), d);
    AllDocsFrom(s.Config(), hits, s.Fields(hits));
    assert MadeFrom(s, hits, g, d.rawHit, d.value);
    MatchBounds(s.Lang(), s.Clean()(Unquoted(d.value)), s.Value());
  }

  lemma MatchBounds(l: Lang, fieldValue: string, query: string)
    ensures 0 <= Match(l, fieldValue, query).score <= 11 * |StemmedTokens(l, l.removeStopwords(query))| - 1
  {
    var tokens := StemmedTokens(l, l.removeStopwords(query));
    ScoreBounds(l, tokens, Stemmed(l.stem, Split(l.removeStopwords(fieldValue), ' ')));
  }

  lemma Original(s: Settings, docs: seq<DocField>, r: Suggestion) returns (g: Suggestion)
    requires r in Final(s, docs)
    ensures g in Collection(s, docs) && SameSource(r, g) && (!s.enablePredictive ==> r == g)
  {
    FinalShown(s, docs, r);
    StableSortSorts(Collection(s, docs));
    g := r;
    if s.enablePredictive {
      var ranked := Ranked(s, docs);
      PredictionsSorted(s.Predictor(), ranked);
      g :| g in ranked && SameSource(r, g);
    }
  }

  lemma FinalShown(s: Settings, docs: seq<DocField>, r: Suggestion)
    requires r in Final(s, docs)
    ensures r in Shown(s, docs)
  {
    FinalSorted(s, docs);
    FirstOnesKeepBest(Shown(s, docs));
  }

  // ---------- The predictions of a request ----------

  // The words of a label, as the request normalizes it, are free of white space, and none is empty
  // unless it is the only one.
  lemma FieldWordsClean(s: Settings, g: Suggestion)
    requires Sane(s.lower)
    ensures var words := s.Predictor().FieldWords(g); (Text.Clean(words) || words == [""]) && BlankFree(words)
  {
    var body := s.stripHtml(g.labelText);
    var words := Words(s.lower, body);
    NormalizeIsWords(s.lower, body);
    assert IsSpace(' ');
    if words != [] {
      SplitJoin(words, ' ');
    }
  }

  // The predictions of a request without stopwords surround the query with words next to the
  // matches of the field.
  lemma RequestSurrounds(s: Settings, g: Suggestion)
    requires Sane(s.lower) && !s.applyStopwords && Predict(s.Predictor(), g).Some?
    ensures var p := s.Predictor(); var r := Predict(p, g).value;
            r == g || exists i, j, k :: Surrounds(p, p.FieldWords(g), r.value, i, j, k)
  {
    FieldWordsClean(s, g);
    WordsAroundMatches(s.Predictor(), g);
  }

  // Of the words of the field on one side of the matches the library changes none, if it is asked.
  predicate CleansOnly(s: Settings, words: seq<string>) {
    s.applyStopwords ==> WordsIn(s.cleanString(Join(words, ' ')), words)
  }

  lemma SideDrops(s: Settings, g: Suggestion, side: seq<string>)
    requires Sane(s.lower) && CleansOnly(s, side) && forall w :: w in side ==> w in s.Predictor().FieldWords(g)
    ensures DropsOn(s.Predictor(), side)
  {
    FieldWordsClean(s, g);
    FieldWordsLowered(s, g);
    if s.applyStopwords {
      RemovalOnlyDrops(s.lower, s.cleanString, s.stopwords, side);
    }
  }

  lemma FieldWordsLowered(s: Settings, g: Suggestion)
    requires Sane(s.lower)
    ensures Lowered(s.lower, s.Predictor().FieldWords(g))
  {
    var body := s.stripHtml(g.labelText);
    var words := Words(s.lower, body);
    NormalizeIsWords(s.lower, body);
    WordsLowered(s.lower, Split(TrimSpace(body), ' '));
    LoweredWords(s.lower, words);
    SplitWords(words);
  }

  lemma SplitWords(words: seq<string>)
    requires Text.Clean(words)
    ensures Split(Join(words, ' '), ' ') == if words == [] then [""] else words
  {
    assert IsSpace(' ');
    if words != [] {
      SplitJoin(words, ' ');
    }
  }

  // With stopwords too the words come from the right side of the matches, as long as the library
  // changes none of the words it is given there.
  lemma RequestKeepsSides(s: Settings, g: Suggestion)
    requires Sane(s.lower) && Predict(s.Predictor(), g).Some?
    requires var p := s.Predictor(); var words := p.FieldWords(g); var b := FieldBounds(p, words);
             CleansOnly(s, words[..b.prefixEnds + 1]) && CleansOnly(s, words[b.suffixStarts..])
    ensures var p := s.Predictor(); var r, words := Predict(p, g).value, p.FieldWords(g);
            var b := FieldBounds(p, words);
            && Tight(Stemmed(p.stem, words), p.QueryStems(), b)
            && (r == g || exists prefix, suffix :: Predicts(p, r, prefix, suffix)
                                                   && WordsIn(prefix, words[..b.prefixEnds + 1])
                                                   && WordsIn(suffix, words[b.suffixStarts..]))
  {
    var p := s.Predictor();
    var words := p.FieldWords(g);
    var b := FieldBounds(p, words);
    FieldWordsClean(s, g);
    SideDrops(s, g, words[..b.prefixEnds + 1]);
    SideDrops(s, g, words[b.suffixStarts..]);
    WordsKeepTheirSide(p, g);
  }

  // ---------- What a request searches ----------

  // The first of valueFields, highlightField and dataFields that names any field is searched, and
  // without any the fields of the first hit.
  lemma FieldsMeaning(s: Settings, hits: seq<Hit>)
    ensures s.valueFields != [] ==> s.Fields(hits) == s.valueFields
    ensures s.valueFields == [] && s.highlightField != [] ==> s.Fields(hits) == s.highlightField
    ensures s.valueFields == [] && s.highlightField == [] && s.dataFields != [] ==> s.Fields(hits) == s.dataFields
    ensures s.valueFields == s.highlightField == s.dataFields == [] ==>
              s.Fields(hits) == if hits == [] then [] else s.extractFields(hits[0].source)
  {
  }

  // The texts a request works with: the query and the field values are lists of clean words in lower
  // case, and the query is the same for searching and for predicting.
  lemma RequestTexts(s: Settings, body: string)
    requires Sane(s.lower)
    ensures s.Config().value == s.Predictor().value == Join(Words(s.lower, s.value), ' ')
    ensures s.Config().clean(body) == s.Predictor().clean(body) == Join(Words(s.lower, s.stripHtml(body)), ' ')
    ensures s.Value() == s.Config().value && s.Clean()(body) == s.Config().clean(body)
    ensures s.Config().lower(body) == Lower(s.lower, body)
    ensures s.Config().parseLabel(body) ==
              var text := Lower(s.lower, Join(Fields(body), ' '));
              var left := WithoutStopwords(s.lower, s.cleanString, if s.applyStopwords then s.stopwords else [], text);
              Join(Fields(Join(Stemmed(s.stem, Split(left, ' ')), ' ')), ' ')
    ensures s.Predictor().normalize(body) == Join(Words(s.lower, body), ' ')
    ensures s.Predictor().removeStopwords(body) == s.Lang().removeStopwords(body)
         == WithoutStopwords(s.lower, s.cleanString, if s.applyStopwords then s.stopwords else [], body)
  {
    NormalizeIsWords(s.lower, s.value);
    NormalizeIsWords(s.lower, s.stripHtml(body));
    NormalizeIsWords(s.lower, body);
  }

  // One list after the other; a panic in either is one in both.
  function Both(a: Option<seq<DocField>>, b: Option<seq<DocField>>): Option<seq<DocField>> {
    if a.Some? && b.Some? then Some(a.value + b.value) else None
  }

  lemma BothTwice(a: Option<seq<DocField>>, b: Option<seq<DocField>>, c: Option<seq<DocField>>)
    ensures Both(Both(a, b), c) == Both(a, Both(b, c)) && Both(a, Some([])) == a
  {
    if a.Some? {
      assert a.value + [] == a.value;
      if b.Some? && c.Some? {
        assert a.value + b.value + c.value == a.value + (b.value + c.value);
      }
    }
  }

  // Hits and fields are gone through in order, hit by hit.
  lemma {:induction false} HitsInOrder(c: Config, a: seq<Hit>, b: seq<Hit>, fields: seq<string>)
    ensures AllDocs(c, a + b, fields) == Both(AllDocs(c, a, fields), AllDocs(c, b, fields))
  {
    if b == [] {
      assert a + b == a;
      BothTwice(AllDocs(c, a, fields), None, None);
    } else {
      var init, last := b[..|b| - 1], b[|b| - 1];
      assert (a + b)[..|a + b| - 1] == a + init && (a + b)[|a + b| - 1] == last;
      HitsInOrder(c, a, init, fields);
      assert AllDocs(c, b, fields) == Both(AllDocs(c, init, fields), HitDocs(c, last, fields));
      BothTwice(AllDocs(c, a, fields), AllDocs(c, init, fields), HitDocs(c, last, fields));
    }
  }

  lemma {:induction false} FieldsInOrder(c: Config, hit: Hit, a: seq<string>, b: seq<string>)
    ensures HitDocs(c, hit, a + b) == Both(HitDocs(c, hit, a), HitDocs(c, hit, b))
  {
    if b == [] {
      assert a + b == a;
      BothTwice(HitDocs(c, hit, a), None, None);
    } else {
      var init, last := b[..|b| - 1], b[|b| - 1];
      assert (a + b)[..|a + b| - 1] == a + init && (a + b)[|a + b| - 1] == last;
      FieldsInOrder(c, hit, a, init);
      var texts := Candidates(c, ParsedSource(hit), Split(last, '.'));
      var docs := if texts.Some? then Some(Docs(texts.value, hit)) else None;
      assert HitDocs(c, hit, b) == Both(HitDocs(c, hit, init), docs);
      BothTwice(HitDocs(c, hit, a), HitDocs(c, hit, init), docs);
    }
  }

  // One hit and one field: the texts found at the field.
  lemma OneField(c: Config, hit: Hit, field: string)
    ensures AllDocs(c, [hit], [field]) ==
              var texts := Candidates(c, ParsedSource(hit), Split(field, '.'));
              if texts.Some? then Some(Docs(texts.value, hit)) else None
  {
    assert [hit][..0] == [] && [field][..0] == [];
    assert HitDocs(c, hit, []) == Some([]) && AllDocs(c, [], [field]) == Some([]);
    var texts := Candidates(c, ParsedSource(hit), Split(field, '.'));
    if texts.Some? {
      assert [] + Docs(texts.value, hit) == Docs(texts.value, hit);
      assert HitDocs(c, hit, [field]) == Some(Docs(texts.value, hit));
    }
  }

  // The stages that the two switches turn on: the collected suggestions are sorted, then turned into
  // predictions if those are enabled, and then the first of each document is kept if only distinct
  // ones are shown.
  lemma StagesMeaning(s: Settings, docs: seq<DocField>)
    ensures var collected := PopulatedAll(s.Config(), docs, Lists([], [])).suggestions;
            var sorted := StableSort(collected);
            && StablySorted(collected, sorted)
            && (!s.enablePredictive && !s.showDistinct ==> Final(s, docs) == sorted)
            && (s.enablePredictive && !s.showDistinct ==> Final(s, docs) == Predictions(s.Predictor(), sorted))
            && (!s.enablePredictive && s.showDistinct ==> Final(s, docs) == FirstOnes(sorted))
            && (s.enablePredictive && s.showDistinct ==> Final(s, docs) == FirstOnes(Predictions(s.Predictor(), sorted)))
  {
    StableSortSorts(PopulatedAll(s.Config(), docs, Lists([], [])).suggestions);
  }
}
