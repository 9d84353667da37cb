// Predictive suggestions: the query with the next few words of a field value around it.

module Predictive {
  import opened Wrappers
  import opened Strings
  import opened Text
  import opened Stopwords
  import opened Matching
  import opened ResponseTree
  import opened FirstOfKey

  // The query, stripping HTML and normalizing, removing stopwords, stemming, the form under which
  // predictions count as equal, and the settings of the request.
  datatype Predictor = Predictor(
    value: string,
    normalize: string -> string,
    clean: string -> string,
    removeStopwords: string -> string,
    stem: string -> string,
    compress: string -> string,
    applyStopwords: bool,
    maxPredictedWords: int,
    preTags: string,
    postTags: string)
  {
    function StemmedTokens(s: string): seq<string> {
      Stemmed(stem, Split(s, ' '))
    }

    function FieldWords(g: Suggestion): (words: seq<string>)
      ensures words != []
    {
      Split(clean(g.labelText), ' ')
    }

    // The stems of the query, without its stopwords unless nothing would be left.
    function QueryStems(): seq<string> {
      var normQuery := normalize(value);
      var removed := removeStopwords(normQuery);
      StemmedTokens(Join(Split(if removed != "" then removed else normQuery, ' '), ' '))
    }

    // At least one word may always be added after the match.
    function Budget(): nat {
      if maxPredictedWords < 1 then 1 else maxPredictedWords
    }
  }

  // The stems of the words of the query without stopwords, or of all its words if none would be left.
  lemma QueryStemsMeaning(p: Predictor)
    ensures var text := if p.removeStopwords(p.normalize(p.value)) == "" then p.normalize(p.value) else p.removeStopwords(p.normalize(p.value));
            var words := Split(text, ' ');
            |p.QueryStems()| == |words| && forall i :: 0 <= i < |words| ==> p.QueryStems()[i] == p.stem(words[i])
  {
    var normQuery := p.normalize(p.value);
    JoinSplit(if p.removeStopwords(normQuery) != "" then p.removeStopwords(normQuery) else normQuery, ' ');
  }

  // ---------- Where the query matches ----------

  // The first stem that contains the token, or -1.
  function MatchIndex(stems: seq<string>, token: string): (i: int)
    ensures -1 <= i < |stems|
    ensures i >= 0 ==> Contains(stems[i], token)
    ensures forall j :: 0 <= j < (if i == -1 then |stems| else i) ==> !Contains(stems[j], token)
  {
    if stems == [] then -1
    else if Contains(stems[0], token) then 0
    else
      var i := MatchIndex(stems[1..], token);
      assert forall j :: 0 < j < |stems| ==> stems[j] == stems[1..][j - 1];
      if i == -1 then -1 else i + 1
  }

  // The last word before every match and the first word after every match.
  datatype Bounds = Bounds(prefixEnds: int, suffixStarts: int)

  function BoundsOf(stems: seq<string>, query: seq<string>): Bounds {
    if query == [] then Bounds(|stems| - 1, 0)
    else
      var n := |query| - 1;
      var b, m := BoundsOf(stems, query[..n]), MatchIndex(stems, query[n]);
      if m == -1 then b
      else Bounds(if m - 1 < b.prefixEnds then m - 1 else b.prefixEnds, if m + 1 > b.suffixStarts then m + 1 else b.suffixStarts)
  }

  predicate MatchesAt(stems: seq<string>, query: seq<string>, i: int) {
    exists q :: q in query && MatchIndex(stems, q) == i
  }

  lemma MatchesAtStep(stems: seq<string>, query: seq<string>, i: int)
    requires query != []
    ensures MatchesAt(stems, query, i)
       <==> MatchesAt(stems, query[..|query| - 1], i) || MatchIndex(stems, query[|query| - 1]) == i
  {
    var before, last := query[..|query| - 1], query[|query| - 1];
    assert forall q :: q in query <==> q in before || q == last;
  }

  ghost predicate Tight(stems: seq<string>, query: seq<string>, b: Bounds) {
    && -1 <= b.prefixEnds < |stems| && 0 <= b.suffixStarts <= |stems|
    && (forall i :: 0 <= i < |stems| && MatchesAt(stems, query, i) ==> b.prefixEnds < i < b.suffixStarts)
    && (b.suffixStarts > 0 ==> MatchesAt(stems, query, b.suffixStarts - 1))
    && (b.prefixEnds < |stems| - 1 ==> MatchesAt(stems, query, b.prefixEnds + 1))
  }

  // The bounds never leave the field and are tight around the matches.
  lemma {:induction false} BoundsMeaning(stems: seq<string>, query: seq<string>)
    ensures Tight(stems, query, BoundsOf(stems, query))
  {
    if query != [] {
      var n := |query| - 1;
      BoundsMeaning(stems, query[..n]);
      forall i
        ensures MatchesAt(stems, query, i) <==> MatchesAt(stems, query[..n], i) || MatchIndex(stems, query[n]) == i
      {
        MatchesAtStep(stems, query, i);
      }
    }
  }

  method FindBounds(stems: seq<string>, query: seq<string>, fvl: nat) returns (prefixEnds: int, suffixStarts: int)
    requires fvl == |stems|
    ensures Bounds(prefixEnds, suffixStarts) == BoundsOf(stems, query)
  {
    prefixEnds, suffixStarts := fvl - 1, 0;
    for k := 0 to |query|
      invariant Bounds(prefixEnds, suffixStarts) == BoundsOf(stems, query[..k])
    {
      assert query[..k + 1][..k] == query[..k];
      var matchIndex := MatchIndex(stems, query[k]);
      if matchIndex != -1 {
        prefixEnds := if matchIndex - 1 < prefixEnds then matchIndex - 1 else prefixEnds;
        suffixStarts := if matchIndex + 1 > suffixStarts then matchIndex + 1 else suffixStarts;
      }
    }
    assert query[..|query|] == query;
  }

  // ---------- Phrases ----------

  function WordCount(phrase: string): nat {
    if phrase == "" then 0 else |Split(phrase, ' ')|
  }

  function HighlightedPhrase(p: Predictor, candidate: string, maxTokens: nat): string {
    var words := Split(if p.applyStopwords then p.removeStopwords(candidate) else candidate, ' ');
    TrimSpace(Join(if |words| > maxTokens then words[..maxTokens] else words, ' '))
  }

  // The phrase has a stem of the query.
  predicate Ignored(p: Predictor, phrase: string) {
    exists q :: q in p.QueryStems() && q in p.StemmedTokens(phrase)
  }

  // The phrase that is added, or nothing.
  function Usable(p: Predictor, phrase: string): string {
    if Ignored(p, phrase) then "" else phrase
  }

  lemma {:induction false} TrimLeftWords(s: string)
    ensures |Split(TrimLeft(s), ' ')| <= |Split(s, ' ')|
  {
    if s != "" && IsSpace(s[0]) {
      TrimLeftWords(s[1..]);
    }
  }

  lemma {:induction false} TrimRightWords(s: string)
    ensures |Split(TrimRight(s), ' ')| <= |Split(s, ' ')|
  {
    if s != "" && IsSpace(s[|s| - 1]) {
      var n := |s| - 1;
      TrimRightWords(s[..n]);
      assert s[..n] + [s[n]] == s;
      if s[n] == ' ' {
        SplitConcat(s[..n], "", ' ');
        assert s[..n] + [' '] + "" == s;
      } else {
        SplitAppend(s[..n], [s[n]], ' ');
      }
    }
  }

  // A phrase never has more words than it may have.
  lemma PhraseWords(p: Predictor, candidate: string, maxTokens: nat)
    requires maxTokens >= 1
    ensures WordCount(HighlightedPhrase(p, candidate, maxTokens)) <= maxTokens
  {
    var words := Split(if p.applyStopwords then p.removeStopwords(candidate) else candidate, ' ');
    var taken := if |words| > maxTokens then words[..maxTokens] else words;
    SplitJoin(taken, ' ');
    var joined := Join(taken, ' ');
    TrimLeftWords(joined);
    TrimRightWords(TrimLeft(joined));
  }

  // With stopwords, a phrase is that of the candidates without them.
  lemma PhraseWithStopwords(p: Predictor, candidate: string, maxTokens: nat)
    requires p.applyStopwords
    ensures HighlightedPhrase(p, candidate, maxTokens)
         == HighlightedPhrase(p.(applyStopwords := false), p.removeStopwords(candidate), maxTokens)
  {
  }

  // Without stopwords, a phrase is the first words of the candidates.
  lemma PhraseIsWords(p: Predictor, words: seq<string>, maxTokens: nat)
    requires !p.applyStopwords && Clean(words) && maxTokens >= 1
    ensures HighlightedPhrase(p, Join(words, ' '), maxTokens)
         == Join(if |words| > maxTokens then words[..maxTokens] else words, ' ')
  {
    assert IsSpace(' ');
    if words == [] {
      assert Split("", ' ') == [""] && TrimSpace("") == "";
    } else {
      SplitJoin(words, ' ');
      TrimJoin(if |words| > maxTokens then words[..maxTokens] else words);
    }
  }

  // ---------- One prediction ----------

  function SuffixPhrase(p: Predictor, words: seq<string>, start: nat): string
    requires start <= |words|
  {
    if start > 0 then Usable(p, HighlightedPhrase(p, Join(words[start..], ' '), p.Budget())) else ""
  }

  // The words still to be added before the match.
  function Gap(p: Predictor, suffix: string): int {
    p.maxPredictedWords - WordCount(suffix)
  }

  function PrefixPhrase(p: Predictor, words: seq<string>, end: nat, gap: nat): string
    requires end <= |words|
  {
    Usable(p, HighlightedPhrase(p, Join(words[..end], ' '), gap))
  }

  function WithSuffix(p: Predictor, g: Suggestion, suffix: string): Suggestion {
    if suffix == "" then g
    else g.(value := p.value + " " + suffix, labelText := p.value + " " + p.preTags + suffix + p.postTags)
  }

  function WithPrefix(p: Predictor, g: Suggestion, prefix: string, suffix: string): Suggestion {
    var rest := if suffix == "" then g.(value := p.value, labelText := p.value) else WithSuffix(p, g, suffix);
    g.(value := prefix + " " + rest.value, labelText := p.preTags + prefix + p.postTags + " " + rest.labelText)
  }

  // Where words before the match are wanted and none can be used, there is no prediction.
  function PredictBefore(p: Predictor, g: Suggestion, words: seq<string>, end: nat, suffix: string): Option<Suggestion>
    requires end <= |words|
  {
    if end > 0 && Gap(p, suffix) > 0 then
      var prefix := PrefixPhrase(p, words, end, Gap(p, suffix));
      if prefix == "" then None else Some(WithPrefix(p, g, prefix, suffix))
    else Some(WithSuffix(p, g, suffix))
  }

  function FieldBounds(p: Predictor, words: seq<string>): (b: Bounds)
    ensures -1 <= b.prefixEnds < |words| && 0 <= b.suffixStarts <= |words|
  {
    BoundsMeaning(Stemmed(p.stem, words), p.QueryStems());
    BoundsOf(Stemmed(p.stem, words), p.QueryStems())
  }

  function Predict(p: Predictor, g: Suggestion): Option<Suggestion> {
    var words := p.FieldWords(g);
    var b := FieldBounds(p, words);
    PredictBefore(p, g, words, b.prefixEnds + 1, SuffixPhrase(p, words, b.suffixStarts))
  }

  // The value is the query between two phrases; an empty phrase leaves no blank.
  predicate Around(value: string, prefix: string, query: string, suffix: string) {
    value == (if prefix == "" then "" else prefix + " ") + query + (if suffix == "" then "" else " " + suffix)
  }

  // The tags around a phrase.
  function Tagged(p: Predictor, phrase: string): string {
    if phrase == "" then "" else p.preTags + phrase + p.postTags
  }

  // Value and label of r are the query between the two phrases, tagged in the label.
  predicate Predicts(p: Predictor, r: Suggestion, prefix: string, suffix: string) {
    Around(r.value, prefix, p.value, suffix) && Around(r.labelText, Tagged(p, prefix), p.value, Tagged(p, suffix))
  }

  predicate SameSource(r: Suggestion, g: Suggestion) {
    r.id == g.id && r.rsScore == g.rsScore && r.score == g.score && r.matchedTokens == g.matchedTokens
  }

  lemma PrefixPredicts(p: Predictor, g: Suggestion, prefix: string, suffix: string)
    requires prefix != ""
    ensures Predicts(p, WithPrefix(p, g, prefix, suffix), prefix, suffix)
  {
    var r := WithPrefix(p, g, prefix, suffix);
    if suffix != "" {
      assert r.value == prefix + " " + p.value + (" " + suffix);
      assert r.labelText == Tagged(p, prefix) + " " + p.value + (" " + Tagged(p, suffix));
    }
  }

  lemma SuffixPredicts(p: Predictor, g: Suggestion, suffix: string)
    requires suffix != ""
    ensures Predicts(p, WithSuffix(p, g, suffix), "", suffix)
  {
    var r := WithSuffix(p, g, suffix);
    assert r.value == p.value + (" " + suffix);
    assert r.labelText == p.value + (" " + Tagged(p, suffix));
  }

  lemma BudgetBefore(p: Predictor, g: Suggestion, words: seq<string>, end: nat, suffix: string)
    requires end <= |words| && WordCount(suffix) <= p.Budget()
    requires PredictBefore(p, g, words, end, suffix).Some?
    ensures var r, gap := PredictBefore(p, g, words, end, suffix).value, Gap(p, suffix);
            && SameSource(r, g)
            && (r == g || (var prefix := if end > 0 && gap > 0 then PrefixPhrase(p, words, end, gap) else "";
                           && Predicts(p, r, prefix, suffix)
                           && 1 <= WordCount(prefix) + WordCount(suffix) <= p.Budget()))
  {
    var gap := Gap(p, suffix);
    if end > 0 && gap > 0 {
      PhraseWords(p, Join(words[..end], ' '), gap);
      PrefixPredicts(p, g, PrefixPhrase(p, words, end, gap), suffix);
    } else if suffix != "" {
      SuffixPredicts(p, g, suffix);
    }
  }

  // The phrases come from the two sides of the matches, cut to what may be added there.
  predicate FromSides(p: Predictor, words: seq<string>, b: Bounds, prefix: string, suffix: string)
    requires -1 <= b.prefixEnds < |words| && 0 <= b.suffixStarts <= |words|
  {
    && (suffix == "" || (b.suffixStarts > 0 && suffix == HighlightedPhrase(p, Join(words[b.suffixStarts..], ' '), p.Budget())))
    && (prefix == "" || (Gap(p, suffix) > 0 && prefix == HighlightedPhrase(p, Join(words[..b.prefixEnds + 1], ' '), Gap(p, suffix))))
  }

  // A prediction is the suggestion itself, or the query with at most the allowed number of words
  // around it, the first of what lies before every match and of what follows the last one; the
  // suggestion's id, scores and matched tokens stay.
  lemma WordBudget(p: Predictor, g: Suggestion)
    requires Predict(p, g).Some?
    ensures var r, words := Predict(p, g).value, p.FieldWords(g);
            && SameSource(r, g)
            && Tight(Stemmed(p.stem, words), p.QueryStems(), FieldBounds(p, words))
            && (r == g || exists prefix, suffix :: Predicts(p, r, prefix, suffix)
                                                   && 1 <= WordCount(prefix) + WordCount(suffix) <= (if p.maxPredictedWords > 1 then p.maxPredictedWords else 1)
                                                   && FromSides(p, words, FieldBounds(p, words), prefix, suffix))
  {
    var words := p.FieldWords(g);
    BoundsMeaning(Stemmed(p.stem, words), p.QueryStems());
    BudgetBetween(p, g, words, FieldBounds(p, words));
  }

  lemma BudgetBetween(p: Predictor, g: Suggestion, words: seq<string>, b: Bounds)
    requires -1 <= b.prefixEnds < |words| && 0 <= b.suffixStarts <= |words|
    requires PredictBefore(p, g, words, b.prefixEnds + 1, SuffixPhrase(p, words, b.suffixStarts)).Some?
    ensures var r := PredictBefore(p, g, words, b.prefixEnds + 1, SuffixPhrase(p, words, b.suffixStarts)).value;
            && SameSource(r, g)
            && (r == g || exists prefix, suffix :: Predicts(p, r, prefix, suffix)
                                                   && 1 <= WordCount(prefix) + WordCount(suffix) <= p.Budget()
                                                   && FromSides(p, words, b, prefix, suffix))
  {
    var suffix := SuffixPhrase(p, words, b.suffixStarts);
    PhraseWords(p, Join(words[b.suffixStarts..], ' '), p.Budget());
    BudgetBefore(p, g, words, b.prefixEnds + 1, suffix);
    PhrasesFromSides(p, words, b);
  }

  lemma PhrasesFromSides(p: Predictor, words: seq<string>, b: Bounds)
    requires -1 <= b.prefixEnds < |words| && 0 <= b.suffixStarts <= |words|
    ensures var suffix := SuffixPhrase(p, words, b.suffixStarts);
            var gap := Gap(p, suffix);
            FromSides(p, words, b, if b.prefixEnds + 1 > 0 && gap > 0 then PrefixPhrase(p, words, b.prefixEnds + 1, gap) else "", suffix)
  {
  }

  // ---------- The words of a prediction ----------

  // From the words, stopwords, where they apply, are only dropped.
  predicate DropsOn(p: Predictor, words: seq<string>) {
    p.applyStopwords ==> WordsIn(p.removeStopwords(Join(words, ' ')), words)
  }

  predicate DropsOnSides(p: Predictor, words: seq<string>, b: Bounds)
    requires -1 <= b.prefixEnds < |words| && 0 <= b.suffixStarts <= |words|
  {
    DropsOn(p, words[..b.prefixEnds + 1]) && DropsOn(p, words[b.suffixStarts..])
  }

  // Every word of a phrase is one of the words it is taken from.
  lemma PhraseWordsIn(p: Predictor, words: seq<string>, maxTokens: nat)
    requires BlankFree(words) && maxTokens >= 1 && DropsOn(p, words)
    ensures WordsIn(HighlightedPhrase(p, Join(words, ' '), maxTokens), words)
  {
    assert IsSpace(' ');
    var candidate := Join(words, ' ');
    if words == [] {
      assert Split(candidate, ' ') == [""];
    } else {
      SplitJoin(words, ' ');
    }
    var left := Split(if p.applyStopwords then p.removeStopwords(candidate) else candidate, ' ');
    assert forall w :: w in left ==> w == "" || w in words;
    var taken := if |left| > maxTokens then left[..maxTokens] else left;
    assert forall w :: w in taken ==> w in left;
    SplitJoin(taken, ' ');
    BlankFreeSplit(Join(taken, ' '));
    TrimLeftWordsIn(Join(taken, ' '));
    TrimRightWordsIn(TrimLeft(Join(taken, ' ')));
  }

  // Every word added before the query is one of those before all matches, and every word added
  // after it is one of those after the last match; with stopwords, provided that the removal
  // changes none of the words on the two sides.
  lemma WordsKeepTheirSide(p: Predictor, g: Suggestion)
    requires BlankFree(p.FieldWords(g)) && Predict(p, g).Some?
    requires var words := p.FieldWords(g); DropsOnSides(p, words, FieldBounds(p, words))
    ensures var r, words := Predict(p, g).value, p.FieldWords(g);
            var b := FieldBounds(p, words);
            && Tight(Stemmed(p.stem, words), p.QueryStems(), b)
            && (r == g || exists prefix, suffix :: Predicts(p, r, prefix, suffix)
                                                   && WordsIn(prefix, words[..b.prefixEnds + 1])
                                                   && WordsIn(suffix, words[b.suffixStarts..]))
  {
    var r, words := Predict(p, g).value, p.FieldWords(g);
    var b := FieldBounds(p, words);
    WordBudget(p, g);
    if r != g {
      var prefix, suffix :| Predicts(p, r, prefix, suffix) && FromSides(p, words, b, prefix, suffix);
      SidesKept(p, words, b, prefix, suffix);
    }
  }

  lemma SidesKept(p: Predictor, words: seq<string>, b: Bounds, prefix: string, suffix: string)
    requires -1 <= b.prefixEnds < |words| && 0 <= b.suffixStarts <= |words| && FromSides(p, words, b, prefix, suffix)
    requires BlankFree(words) && DropsOnSides(p, words, b)
    ensures WordsIn(prefix, words[..b.prefixEnds + 1]) && WordsIn(suffix, words[b.suffixStarts..])
  {
    SliceBlankFree(words, b.prefixEnds + 1);
    SliceBlankFree(words, b.suffixStarts);
    assert Split("", ' ') == [""];
    if suffix != "" {
      PhraseWordsIn(p, words[b.suffixStarts..], p.Budget());
    }
    var gap := Gap(p, suffix);
    if prefix != "" && gap > 0 {
      PhraseWordsIn(p, words[..b.prefixEnds + 1], gap);
    }
  }

  // i words of the start of the field surround the query with k words from j on, every match lies
  // between them, j just after the last one, and they keep to the budget.
  ghost predicate Surrounds(p: Predictor, words: seq<string>, value: string, i: nat, j: nat, k: nat) {
    var stems, query := Stemmed(p.stem, words), p.QueryStems();
    && i <= |words| && j + k <= |words|
    && Around(value, Join(words[..i], ' '), p.value, Join(words[j..j + k], ' '))
    && 1 <= i + k <= (if p.maxPredictedWords > 1 then p.maxPredictedWords else 1)
    && (forall m :: 0 <= m < |words| && MatchesAt(stems, query, m) ==> i <= m < j)
    && (j > 0 ==> MatchesAt(stems, query, j - 1))
  }

  // The first words of a slice of the field, as a usable phrase.
  lemma UsableWords(p: Predictor, words: seq<string>, maxTokens: nat) returns (k: nat)
    requires !p.applyStopwords && Clean(words) && maxTokens >= 1
    ensures k <= |words| && k <= maxTokens
    ensures var phrase := Usable(p, HighlightedPhrase(p, Join(words, ' '), maxTokens));
            phrase == Join(words[..k], ' ') && WordCount(phrase) == k
  {
    k := if Ignored(p, HighlightedPhrase(p, Join(words, ' '), maxTokens)) then 0
         else if |words| > maxTokens then maxTokens else |words|;
    PhraseIsWords(p, words, maxTokens);
    assert words[..|words|] == words && words[..0] == [];
    CleanSlice(words, 0, k);
    assert words[0..k] == words[..k];
    CountJoined(words[..k]);
  }

  lemma SuffixIsWords(p: Predictor, words: seq<string>, j: nat) returns (k: nat)
    requires !p.applyStopwords && Clean(words) && j <= |words|
    ensures j + k <= |words| && k <= p.Budget()
    ensures SuffixPhrase(p, words, j) == Join(words[j..j + k], ' ')
    ensures WordCount(SuffixPhrase(p, words, j)) == k
  {
    k := 0;
    assert words[j..j] == [];
    if j > 0 {
      var after := words[j..];
      CleanSlice(words, j, |words|);
      assert words[j..|words|] == after;
      k := UsableWords(p, after, p.Budget());
      assert after[..k] == words[j..j + k];
    }
  }

  lemma PrefixIsWords(p: Predictor, words: seq<string>, end: nat, gap: nat) returns (i: nat)
    requires !p.applyStopwords && Clean(words) && end <= |words| && gap >= 1
    ensures i <= end && i <= gap
    ensures PrefixPhrase(p, words, end, gap) == Join(words[..i], ' ')
    ensures WordCount(PrefixPhrase(p, words, end, gap)) == i
  {
    var before := words[..end];
    CleanSlice(words, 0, end);
    assert words[0..end] == before;
    i := UsableWords(p, before, gap);
    assert before[..i] == words[..i];
  }

  lemma CleanSlice(words: seq<string>, a: nat, b: nat)
    requires Clean(words) && a <= b <= |words|
    ensures Clean(words[a..b])
  {
    forall w | w in words[a..b]
      ensures w in words
    {
      var i :| 0 <= i < |words[a..b]| && words[a..b][i] == w;
      assert words[a + i] == w;
    }
  }

  lemma CountJoined(words: seq<string>)
    requires Clean(words)
    ensures WordCount(Join(words, ' ')) == |words|
  {
    assert IsSpace(' ');
    if words != [] {
      JoinEnds(words);
      SplitJoin(words, ' ');
    }
  }

  // Without stopwords, a prediction is the suggestion itself or surrounds the query with words of
  // the field: the first ones before it, and those that follow the last match after it.
  lemma WordsAroundMatches(p: Predictor, g: Suggestion)
    requires !p.applyStopwords && (Clean(p.FieldWords(g)) || p.FieldWords(g) == [""]) && Predict(p, g).Some?
    ensures Predict(p, g).value == g
         || exists i, j, k :: Surrounds(p, p.FieldWords(g), Predict(p, g).value.value, i, j, k)
  {
    var words := p.FieldWords(g);
    FieldTight(p, words);
    FieldSurrounds(p, g, words, FieldBounds(p, words));
  }

  lemma FieldSurrounds(p: Predictor, g: Suggestion, words: seq<string>, b: Bounds)
    requires !p.applyStopwords && (Clean(words) || words == [""])
    requires Tight(Stemmed(p.stem, words), p.QueryStems(), b)
    requires PredictBefore(p, g, words, b.prefixEnds + 1, SuffixPhrase(p, words, b.suffixStarts)).Some?
    ensures var r := PredictBefore(p, g, words, b.prefixEnds + 1, SuffixPhrase(p, words, b.suffixStarts)).value;
            r == g || exists i, j, k :: Surrounds(p, words, r.value, i, j, k)
  {
    if words == [""] {
      EmptyFieldAddsNothing(p, g, b.prefixEnds + 1, b.suffixStarts);
    } else {
      AroundBetween(p, g, words, b.prefixEnds + 1, b.suffixStarts);
    }
  }

  lemma EmptyFieldAddsNothing(p: Predictor, g: Suggestion, end: nat, j: nat)
    requires !p.applyStopwords && end <= 1 && j <= 1
    requires PredictBefore(p, g, [""], end, SuffixPhrase(p, [""], j)).Some?
    ensures PredictBefore(p, g, [""], end, SuffixPhrase(p, [""], j)).value == g
  {
    assert [""][..1] == [""] && [""][1..] == [] && Join([""], ' ') == "" && Join([], ' ') == "";
    assert forall n: nat :: n >= 1 ==> HighlightedPhrase(p, "", n) == "" by {
      assert Split("", ' ') == [""] && TrimSpace("") == "";
    }
  }

  lemma AroundBetween(p: Predictor, g: Suggestion, words: seq<string>, end: nat, j: nat)
    requires !p.applyStopwords && Clean(words) && end <= |words| && j <= |words|
    requires forall m :: 0 <= m < |words| && MatchesAt(Stemmed(p.stem, words), p.QueryStems(), m) ==> end <= m < j
    requires j > 0 ==> MatchesAt(Stemmed(p.stem, words), p.QueryStems(), j - 1)
    requires PredictBefore(p, g, words, end, SuffixPhrase(p, words, j)).Some?
    ensures var r := PredictBefore(p, g, words, end, SuffixPhrase(p, words, j)).value;
            r == g || exists i, j, k :: Surrounds(p, words, r.value, i, j, k)
  {
    var suffix := SuffixPhrase(p, words, j);
    var r, gap := PredictBefore(p, g, words, end, suffix).value, Gap(p, suffix);
    var k := SuffixIsWords(p, words, j);
    BudgetBefore(p, g, words, end, suffix);
    if r != g {
      var i := 0;
      if end > 0 && gap > 0 {
        i := PrefixIsWords(p, words, end, gap);
      }
      assert words[..0] == [];
      assert Surrounds(p, words, r.value, i, j, k);
    }
  }

  // ---------- When there is no prediction ----------

  // A suggestion is dropped, whatever could follow its matches, exactly when the first word of the
  // field does not match, words before the match are still wanted, and the phrase before it is
  // empty or has a stem of the query.
  lemma DroppedIff(p: Predictor, g: Suggestion)
    ensures Predict(p, g).None? <==> Dropped(p, p.FieldWords(g), FieldBounds(p, p.FieldWords(g)))
  {
    var words := p.FieldWords(g);
    var b := FieldBounds(p, words);
    DroppedBefore(p, g, words, b);
    DroppedAtField(p, words);
  }

  lemma DroppedAtField(p: Predictor, words: seq<string>)
    requires words != []
    ensures DroppedAt(p, words, FieldBounds(p, words)) <==> Dropped(p, words, FieldBounds(p, words))
  {
    FieldTight(p, words);
    DroppedAtBounds(p, words, FieldBounds(p, words));
  }

  lemma FieldTight(p: Predictor, words: seq<string>)
    ensures Tight(Stemmed(p.stem, words), p.QueryStems(), FieldBounds(p, words))
  {
    BoundsMeaning(Stemmed(p.stem, words), p.QueryStems());
  }

  // The first word does not match, words before the matches are wanted, and none can be used.
  ghost predicate Dropped(p: Predictor, words: seq<string>, b: Bounds)
    requires -1 <= b.prefixEnds < |words| && 0 <= b.suffixStarts <= |words|
  {
    var gap := Gap(p, SuffixPhrase(p, words, b.suffixStarts));
    !MatchesAt(Stemmed(p.stem, words), p.QueryStems(), 0) && gap > 0 && Unusable(p, words[..b.prefixEnds + 1], gap)
  }

  ghost predicate DroppedAt(p: Predictor, words: seq<string>, b: Bounds)
    requires -1 <= b.prefixEnds < |words| && 0 <= b.suffixStarts <= |words|
  {
    var gap := Gap(p, SuffixPhrase(p, words, b.suffixStarts));
    b.prefixEnds >= 0 && gap > 0 && Unusable(p, words[..b.prefixEnds + 1], gap)
  }

  lemma DroppedAtBounds(p: Predictor, words: seq<string>, b: Bounds)
    requires words != [] && Tight(Stemmed(p.stem, words), p.QueryStems(), b)
    ensures DroppedAt(p, words, b) <==> Dropped(p, words, b)
  {
    FirstUnmatched(Stemmed(p.stem, words), p.QueryStems(), b);
  }

  // Words after the last match are added exactly if there is one, and the phrase is not unusable.
  lemma SuffixMeaning(p: Predictor, words: seq<string>, start: nat)
    requires start <= |words|
    ensures var most := if p.maxPredictedWords > 1 then p.maxPredictedWords else 1;
            SuffixPhrase(p, words, start) ==
              if start == 0 || Unusable(p, words[start..], most) then "" else HighlightedPhrase(p, Join(words[start..], ' '), most)
  {
  }

  // What the words after the match leave for those before it.
  lemma GapMeaning(p: Predictor, suffix: string)
    ensures Gap(p, suffix) == if suffix == "" then p.maxPredictedWords else p.maxPredictedWords - |Split(suffix, ' ')|
  {
  }

  // The phrase from the words is empty or has a stem of the query.
  predicate Unusable(p: Predictor, words: seq<string>, maxTokens: nat) {
    var phrase := HighlightedPhrase(p, Join(words, ' '), maxTokens);
    phrase == "" || exists q :: q in p.QueryStems() && q in p.StemmedTokens(phrase)
  }

  lemma FirstUnmatched(stems: seq<string>, query: seq<string>, b: Bounds)
    requires Tight(stems, query, b) && stems != []
    ensures b.prefixEnds >= 0 <==> !MatchesAt(stems, query, 0)
  {
  }

  lemma DroppedBefore(p: Predictor, g: Suggestion, words: seq<string>, b: Bounds)
    requires -1 <= b.prefixEnds < |words| && 0 <= b.suffixStarts <= |words|
    ensures PredictBefore(p, g, words, b.prefixEnds + 1, SuffixPhrase(p, words, b.suffixStarts)).None? <==> DroppedAt(p, words, b)
  {
  }

  // Without stopwords, and with some word in the label, there is always a prediction: no stem
  // before the first match is one of the query.
  lemma AlwaysPredicts(p: Predictor, g: Suggestion)
    requires !p.applyStopwords && Clean(p.FieldWords(g))
    ensures Predict(p, g).Some?
  {
    AlwaysBefore(p, g, p.FieldWords(g), SuffixPhrase(p, p.FieldWords(g), FieldBounds(p, p.FieldWords(g)).suffixStarts));
  }

  lemma AlwaysBefore(p: Predictor, g: Suggestion, words: seq<string>, suffix: string)
    requires !p.applyStopwords && Clean(words) && words != []
    ensures PredictBefore(p, g, words, FieldBounds(p, words).prefixEnds + 1, suffix).Some?
  {
    var end, gap := FieldBounds(p, words).prefixEnds + 1, Gap(p, suffix);
    if end > 0 && gap > 0 {
      StartUsable(p, words, end, gap);
    }
  }

  lemma StartUsable(p: Predictor, words: seq<string>, end: nat, gap: nat)
    requires !p.applyStopwords && Clean(words) && 0 < end <= |words| && gap >= 1
    requires end == FieldBounds(p, words).prefixEnds + 1
    ensures PrefixPhrase(p, words, end, gap) != ""
  {
    var before, k := words[..end], if end > gap then gap else end;
    CleanSlice(words, 0, end);
    assert words[0..end] == before;
    PhraseIsWords(p, before, gap);
    assert words[..k] == if |before| > gap then before[..gap] else before;
    StartNotIgnored(p, words, k);
    CleanSlice(words, 0, k);
    assert words[0..k] == words[..k];
    JoinEnds(words[..k]);
  }

  lemma StartNotIgnored(p: Predictor, words: seq<string>, k: nat)
    requires Clean(words) && 0 < k <= |words| && k <= FieldBounds(p, words).prefixEnds + 1
    ensures !Ignored(p, Join(words[..k], ' '))
  {
    var stems, query := Stemmed(p.stem, words), p.QueryStems();
    BoundsMeaning(stems, query);
    CleanSlice(words, 0, k);
    assert words[0..k] == words[..k];
    assert IsSpace(' ');
    SplitJoin(words[..k], ' ');
    forall q | q in query && q in p.StemmedTokens(Join(words[..k], ' '))
      ensures false
    {
      var i :| 0 <= i < k && p.StemmedTokens(Join(words[..k], ' '))[i] == q;
      assert stems[i] == q && q <= q[0..];
      assert Contains(stems[i], q);
      assert MatchesAt(stems, query, MatchIndex(stems, q));
    }
  }

  // A request for the query q whose only stopword is a.
  const STOPPING := Predictor("q", x => x, x => x, x => if x == "a" then "" else x, x => x, x => x, true, 2, "", "")

  // With stopwords, a suggestion whose words before the match are all stopwords is dropped, even
  // though the word after the match could be shown.
  lemma StopwordsDropSuggestion(g: Suggestion)
    requires g.labelText == "a q c"
    ensures var words := STOPPING.FieldWords(g);
            && FieldBounds(STOPPING, words) == Bounds(0, 2)
            && SuffixPhrase(STOPPING, words, 2) == "c"
            && Predict(STOPPING, g).None?
  {
    var words := ["a", "q", "c"];
    StoppingWords();
    assert STOPPING.FieldWords(g) == words;
    StoppingBounds();
    StoppingPhrases();
    assert words[..1] == ["a"];
    DroppedIff(STOPPING, g);
  }

  lemma StoppingWords()
    ensures Split("a q c", ' ') == ["a", "q", "c"]
  {
    var words := ["a", "q", "c"];
    assert words[1..] == ["q", "c"] && words[1..][1..] == ["c"];
    assert Join(["q", "c"], ' ') == "q c" && Join(words, ' ') == "a q c";
    SplitJoin(words, ' ');
  }

  lemma StoppingBounds()
    ensures FieldBounds(STOPPING, ["a", "q", "c"]) == Bounds(0, 2) && STOPPING.QueryStems() == ["q"]
    ensures !MatchesAt(Stemmed(STOPPING.stem, ["a", "q", "c"]), ["q"], 0)
  {
    var words := ["a", "q", "c"];
    assert Stemmed(STOPPING.stem, words) == words;
    SplitSingle("q", ' ');
    assert STOPPING.QueryStems() == ["q"];
    assert !Contains("a", "q") && Contains("q", "q") by {
      assert "a"[0..] == "a" && "a"[1..] == "" && "q" <= "q"[0..];
    }
    assert words[1..][0] == "q";
    assert MatchIndex(words, "q") == 1;
    assert ["q"][..0] == [] && BoundsOf(words, []) == Bounds(2, 0);
    assert BoundsOf(words, ["q"]) == Bounds(0, 2);
  }

  lemma StoppingPhrases()
    ensures SuffixPhrase(STOPPING, ["a", "q", "c"], 2) == "c"
    ensures HighlightedPhrase(STOPPING, Join(["a"], ' '), 1) == ""
    ensures WordCount("c") == 1
  {
    SplitSingle("c", ' ');
    SplitSingle("q", ' ');
    SplitSingle("", ' ');
    assert ["a", "q", "c"][2..] == ["c"] && Join(["c"], ' ') == "c" && Join(["a"], ' ') == "a";
    assert HighlightedPhrase(STOPPING, "c", 2) == "c";
    assert STOPPING.StemmedTokens("c") == ["c"] && STOPPING.QueryStems() == ["q"];
  }

  method GetHighlightedPhrase(p: Predictor, candidate: string, maxTokens: nat) returns (phrase: string)
    ensures phrase == HighlightedPhrase(p, candidate, maxTokens)
  {
    var words := Split(if p.applyStopwords then p.removeStopwords(candidate) else candidate, ' ');
    if |words| > maxTokens {
      return TrimSpace(Join(words[..maxTokens], ' '));
    }
    return TrimSpace(Join(words, ' '));
  }

  // The loop that looks for a token of the query in the phrase.
  method CheckIgnored(p: Predictor, phrase: string, query: seq<string>) returns (ignore: bool)
    requires query == p.QueryStems()
    ensures ignore == Ignored(p, phrase)
  {
    var stems := p.StemmedTokens(phrase);
    ignore := false;
    for k := 0 to |query|
      invariant ignore <==> exists j :: 0 <= j < k && query[j] in stems
    {
      if query[k] in stems {
        ignore := true;
      }
    }
  }

  method AddSuffix(p: Predictor, suggestion: Suggestion, words: seq<string>, suffixStarts: nat, query: seq<string>)
    returns (predicted: Suggestion, gap: int, suffixMatch: bool)
    requires suffixStarts <= |words| && query == p.QueryStems()
    ensures var suffix := SuffixPhrase(p, words, suffixStarts);
            predicted == WithSuffix(p, suggestion, suffix) && gap == Gap(p, suffix) && suffixMatch == (suffix != "")
  {
    predicted, gap, suffixMatch := suggestion, p.maxPredictedWords, false;
    if suffixStarts > 0 {
      var phrase := GetHighlightedPhrase(p, Join(words[suffixStarts..], ' '), p.Budget());
      var ignore := CheckIgnored(p, phrase, query);
      if !ignore && phrase != "" {
        predicted := predicted.(labelText := p.value + " " + p.preTags + phrase + p.postTags, value := p.value + " " + phrase);
        gap := p.maxPredictedWords - |Split(phrase, ' ')|;
        suffixMatch := true;
      }
    }
  }

  method PredictOne(p: Predictor, suggestion: Suggestion) returns (r: Option<Suggestion>)
    ensures r == Predict(p, suggestion)
  {
    var fieldValues := Split(p.clean(suggestion.labelText), ' ');
    JoinSplit(p.clean(suggestion.labelText), ' ');
    var stemmedFvls := p.StemmedTokens(Join(fieldValues, ' '));
    var query := p.QueryStems();
    ghost var b := FieldBounds(p, fieldValues);
    var prefixEnds, suffixStarts := FindBounds(stemmedFvls, query, |fieldValues|);
    var predicted, gap, suffixMatch := AddSuffix(p, suggestion, fieldValues, suffixStarts, query);
    r := AddPrefix(p, suggestion, fieldValues, prefixEnds + 1, query, predicted, gap, suffixMatch, SuffixPhrase(p, fieldValues, suffixStarts));
  }

  method AddPrefix(p: Predictor, suggestion: Suggestion, words: seq<string>, end: nat, query: seq<string>,
                   predicted: Suggestion, gap: int, suffixMatch: bool, ghost suffix: string)
    returns (r: Option<Suggestion>)
    requires end <= |words| && query == p.QueryStems()
    requires predicted == WithSuffix(p, suggestion, suffix) && gap == Gap(p, suffix) && suffixMatch == (suffix != "")
    ensures r == PredictBefore(p, suggestion, words, end, suffix)
  {
    r := Some(predicted);
    if end > 0 && gap > 0 {
      var phrase := GetHighlightedPhrase(p, Join(words[..end], ' '), gap);
      var ignore := CheckIgnored(p, phrase, query);
      if ignore || phrase == "" {
        return None;
      }
      var rest := if suffixMatch then predicted else predicted.(labelText := p.value, value := p.value);
      r := Some(predicted.(labelText := p.preTags + phrase + p.postTags + " " + rest.labelText,
                           value := phrase + " " + rest.value));
    }
  }

  // ---------- All predictions ----------

  function PredictEach(p: Predictor, gs: seq<Suggestion>): seq<Option<Suggestion>> {
    seq(|gs|, i requires 0 <= i < |gs| => Predict(p, gs[i]))
  }

  // The form under which each prediction counts as equal.
  function CompressedForms(p: Predictor, ps: seq<Option<Suggestion>>): seq<Option<string>> {
    seq(|ps|, i requires 0 <= i < |ps| => if ps[i].Some? then Some(p.compress(ps[i].value.value)) else None)
  }

  function Values(ps: seq<Option<Suggestion>>, fallback: seq<Suggestion>): seq<Suggestion>
    requires |fallback| == |ps|
  {
    seq(|ps|, i requires 0 <= i < |ps| => ps[i].GetOr(fallback[i]))
  }

  // The suggestions whose predictions are kept: the first of each form.
  function KeptPredictions(p: Predictor, gs: seq<Suggestion>): (picks: seq<nat>)
    ensures forall a :: 0 <= a < |picks| ==> picks[a] < |gs|
  {
    Survivors(CompressedForms(p, PredictEach(p, gs)), |gs|)
  }

  // Nothing is predicted for the empty query.
  function Predictions(p: Predictor, gs: seq<Suggestion>): seq<Suggestion> {
    if p.value == "" then [] else Picked(Values(PredictEach(p, gs), gs), KeptPredictions(p, gs))
  }

  lemma NothingForEmptyQuery(p: Predictor, gs: seq<Suggestion>)
    ensures p.value == "" ==> Predictions(p, gs) == []
    ensures p.value != "" ==> |Predictions(p, gs)| == |KeptPredictions(p, gs)|
  {
  }

  // The predictions are in the order of their suggestions, each is the prediction of its own, and
  // no two look the same; a suggestion is left out only if it has no prediction or one that looks
  // like an earlier one.
  lemma PredictionsInOrder(p: Predictor, gs: seq<Suggestion>)
    requires p.value != ""
    ensures var picks, list := KeptPredictions(p, gs), Predictions(p, gs);
            && |picks| == |list|
            && (forall a, b :: 0 <= a < b < |picks| ==> picks[a] < picks[b])
            && (forall a :: 0 <= a < |picks| ==> Predict(p, gs[picks[a]]) == Some(list[a]))
            && (forall a, b :: 0 <= a < b < |list| ==> p.compress(list[a].value) != p.compress(list[b].value))
  {
    var ps, picks := PredictEach(p, gs), KeptPredictions(p, gs);
    var forms := CompressedForms(p, ps);
    SurvivorsInOrder(forms, |gs|);
    forall a | 0 <= a < |picks|
      ensures ps[picks[a]].Some?
    {
      assert picks[a] in picks;
    }
    forall a, b | 0 <= a < b < |picks|
      ensures forms[picks[a]] != forms[picks[b]]
    {
      SurvivorsDistinct(forms, |gs|, a, b);
    }
  }

  // Suggestion i is left out exactly if there is no prediction for it, or an earlier one looks the same.
  lemma LeftOutIff(p: Predictor, gs: seq<Suggestion>, i: nat)
    requires i < |gs|
    ensures var ps := PredictEach(p, gs);
            i !in KeptPredictions(p, gs) <==>
            ps[i].None? || exists j :: 0 <= j < i && ps[j].Some? && p.compress(ps[j].value.value) == p.compress(ps[i].value.value)
  {
    FormLeftOutIff(p, PredictEach(p, gs), i);
  }

  lemma FormLeftOutIff(p: Predictor, ps: seq<Option<Suggestion>>, i: nat)
    requires i < |ps|
    ensures i !in Survivors(CompressedForms(p, ps), |ps|) <==>
            ps[i].None? || exists j :: 0 <= j < i && ps[j].Some? && p.compress(ps[j].value.value) == p.compress(ps[i].value.value)
  {
    var forms := CompressedForms(p, ps);
    SurvivorsInOrder(forms, |ps|);
    SurvivesIff(forms, i);
    if ps[i].Some? {
      assert forall j :: 0 <= j < i ==> (forms[j] == forms[i] <==> ps[j].Some? && p.compress(ps[j].value.value) == p.compress(ps[i].value.value));
    }
  }

  ghost predicate PredictedAt(p: Predictor, gs: seq<Suggestion>, ps: seq<Option<Suggestion>>, i: nat)
    requires i < |gs| == |ps|
  {
    ps[i] == Predict(p, gs[i])
  }

  ghost predicate EachPredicted(p: Predictor, gs: seq<Suggestion>, ps: seq<Option<Suggestion>>) {
    |ps| == |gs| && forall i :: 0 <= i < |ps| ==> PredictedAt(p, gs, ps, i)
  }

  method GetPredictiveSuggestions(p: Predictor, suggestions: seq<Suggestion>) returns (list: seq<Suggestion>)
    ensures list == Predictions(p, suggestions)
  {
    list := [];
    if p.value != "" {
      list := PredictAll(p, suggestions, PredictEach(p, suggestions));
    }
  }

  method PredictAll(p: Predictor, suggestions: seq<Suggestion>, ghost ps: seq<Option<Suggestion>>) returns (list: seq<Suggestion>)
    requires EachPredicted(p, suggestions, ps)
    ensures list == Picked(Values(ps, suggestions), Survivors(CompressedForms(p, ps), |ps|))
  {
    list := [];
    ghost var forms, values := CompressedForms(p, ps), Values(ps, suggestions);
    var suggestionsMap: map<string, bool> := map[];
    for k := 0 to |suggestions|
      invariant list == Picked(values, Survivors(forms, k))
      invariant suggestionsMap.Keys == Seen(forms, k)
    {
      var predicted := PredictNext(p, suggestions, k, ps);
      list, suggestionsMap := KeepNew(p.compress, predicted, list, suggestionsMap, forms, values, k);
    }
  }

  method PredictNext(p: Predictor, suggestions: seq<Suggestion>, k: nat, ghost ps: seq<Option<Suggestion>>)
    returns (predicted: Option<Suggestion>)
    requires k < |suggestions| && EachPredicted(p, suggestions, ps)
    ensures predicted == ps[k]
  {
    assert PredictedAt(p, suggestions, ps, k);
    predicted := PredictOne(p, suggestions[k]);
  }

  method KeepNew(compress: string -> string, predicted: Option<Suggestion>, list: seq<Suggestion>, suggestionsMap: map<string, bool>,
                 ghost forms: seq<Option<string>>, ghost values: seq<Suggestion>, ghost k: nat)
    returns (longer: seq<Suggestion>, updated: map<string, bool>)
    requires k < |forms| == |values|
    requires forms[k] == if predicted.Some? then Some(compress(predicted.value.value)) else None
    requires predicted.Some? ==> predicted.value == values[k]
    requires list == Picked(values, Survivors(forms, k)) && suggestionsMap.Keys == Seen(forms, k)
    ensures longer == Picked(values, Survivors(forms, k + 1)) && updated.Keys == Seen(forms, k + 1)
  {
    longer, updated := list, suggestionsMap;
    if predicted.Some? {
      var key := compress(predicted.value.value);
      if key !in suggestionsMap {
        PickedAppend(values, Survivors(forms, k), k);
        longer := list + [predicted.value];
        updated := suggestionsMap[key := true];
      }
    }
  }
}
