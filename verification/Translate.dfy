// From a ReactiveSearch request to the text of an _msearch request and back: which queries are
// executed, what their bodies hold, how responses find their query, and how the text is read again.

module Translate {
  import opened Wrappers
  import opened Strings
  import opened EsQuery
  import opened TermRange
  import opened React

  datatype Backend = ElasticSearch | OpenSearch | OtherBackend

  // The parts of a request besides its queries, and of the HTTP request around it.
  datatype Settings = Settings(backend: Option<Backend>, userId: Option<string>, userIP: string, preference: Option<string>)

  // ---------- Which queries are executed ----------

  predicate IndexSuggestionsOff(q: Query) { q.endpoint.None? && q.enableIndexSuggestions == Some(false) }

  predicate EndpointSuggestionsOff(q: Query) { q.enableEndpointSuggestions == Some(false) }

  // shouldExecuteQuery
  predicate ShouldExecute(q: Query) {
    if q.kind.Suggestion? && (IndexSuggestionsOff(q) || EndpointSuggestionsOff(q)) then false
    else q.execute.GetOr(true)
  }

  // The translation loop switches execution off for a query with an endpoint before it asks.
  predicate Executes(q: Query) {
    ShouldExecute(if q.endpoint.Some? && !EndpointSuggestionsOff(q) then q.(execute := Some(false)) else q)
  }

  predicate Independent(q: Query) { q.endpoint.Some? && !EndpointSuggestionsOff(q) }

  predicate Mocked(q: Query) { q.kind.Suggestion? && (IndexSuggestionsOff(q) || EndpointSuggestionsOff(q)) }

  function Executed(qs: seq<Query>): seq<Query> {
    if qs == [] then []
    else Executed(qs[..|qs| - 1]) + (if Executes(qs[|qs| - 1]) then [qs[|qs| - 1]] else [])
  }

  function IdOf(q: Query): string { q.id.GetOr("") }

  function Ids(qs: seq<Query>): seq<string> {
    seq(|qs|, i requires 0 <= i < |qs| => IdOf(qs[i]))
  }

  method GetQueryIds(qs: seq<Query>) returns (ids: seq<string>)
    ensures ids == QueryIds(qs)
  {
    ids := [];
    for i := 0 to |qs|
      invariant ids == QueryIds(qs[..i])
    {
      assert qs[..i + 1][..i] == qs[..i];
      if ShouldExecute(qs[i]) && qs[i].endpoint.None? {
        ids := ids + [IdOf(qs[i])];
      }
    }
    assert qs[..|qs|] == qs;
  }

  function QueryIds(qs: seq<Query>): seq<string> {
    if qs == [] then []
    else
      var last := qs[|qs| - 1];
      QueryIds(qs[..|qs| - 1]) + (if ShouldExecute(last) && last.endpoint.None? then [IdOf(last)] else [])
  }

  // The one shape of query that is sent to _msearch although its response is not expected there.
  predicate Divergent(q: Query) {
    !q.kind.Suggestion? && q.endpoint.Some? && EndpointSuggestionsOff(q) && q.execute != Some(false)
  }

  // Read off the fields: which queries go to _msearch, which are independent, which are mocked, and
  // which have their response expected from _msearch.
  lemma WaysOnFields(q: Query)
    ensures Executes(q) <==>
            && q.execute != Some(false)
            && (q.endpoint.Some? ==> q.enableEndpointSuggestions == Some(false))
            && (q.kind == Suggestion ==>
                  q.enableEndpointSuggestions != Some(false) && (q.endpoint.Some? || q.enableIndexSuggestions != Some(false)))
    ensures Independent(q) <==> q.endpoint.Some? && q.enableEndpointSuggestions != Some(false)
    ensures Mocked(q) <==>
            && q.kind == Suggestion
            && ((q.endpoint.None? && q.enableIndexSuggestions == Some(false)) || q.enableEndpointSuggestions == Some(false))
    ensures QueryIds([q]) == if Executes(q) && q.endpoint.None? then [q.id.GetOr("")] else []
    ensures Executed([q]) == if Executes(q) then [q] else []
  {
    assert [q][..0] == [] && QueryIds([]) == [] && Executed([]) == [];
  }

  // Requests are gone through in order, each query for itself.
  lemma {:induction false} QueryByQuery(a: seq<Query>, b: seq<Query>)
    ensures Executed(a + b) == Executed(a) + Executed(b) && QueryIds(a + b) == QueryIds(a) + QueryIds(b)
  {
    if b == [] {
      assert a + b == a;
    } else {
      var init := b[..|b| - 1];
      assert (a + b)[..|a + b| - 1] == a + init;
      QueryByQuery(a, init);
    }
  }

  // Every query is handled in at most one way.
  lemma HandledOnce(q: Query)
    ensures !(Executes(q) && Independent(q)) && !(Executes(q) && Mocked(q)) && !(Independent(q) && Mocked(q))
    ensures Executes(q) && q.endpoint.Some? <==> Divergent(q)
  {
  }

  lemma {:induction false} QueryIdsLength(qs: seq<Query>)
    ensures |QueryIds(qs)| <= |Executed(qs)|
    ensures |QueryIds(qs)| == |Executed(qs)| <==> forall q :: q in qs ==> !Divergent(q)
    ensures (forall q :: q in qs ==> !Divergent(q)) ==> Ids(Executed(qs)) == QueryIds(qs)
  {
    if qs != [] {
      var init, last := qs[..|qs| - 1], qs[|qs| - 1];
      QueryIdsLength(init);
      HandledOnce(last);
      assert forall q :: q in qs <==> q in init || q == last;
    }
  }

  // The emitted pairs line up with the ids by which responses are stored exactly when no query is
  // divergent.
  lemma IdsLineUp(qs: seq<Query>)
    ensures Ids(Executed(qs)) == QueryIds(qs) <==> forall q :: q in qs ==> !Divergent(q)
  {
    QueryIdsLength(qs);
  }

  // A search query with an endpoint and enableEndpointSuggestions set to false, before an ordinary
  // search query: both are sent, one id is expected, and the first response goes to the second query.
  lemma DivergentShiftsResponses(base: Query, second: Query)
    requires second.kind.Search? && second.endpoint.None? && second.execute.None?
    ensures var first := base.(kind := Search, endpoint := Some(Endpoint(Some("http://host"))),
                               enableEndpointSuggestions := Some(false), execute := None);
            && Divergent(first)
            && Ids(Executed([first, second])) == [IdOf(first), IdOf(second)]
            && QueryIds([first, second]) == [IdOf(second)]
  {
    var first := base.(kind := Search, endpoint := Some(Endpoint(Some("http://host"))),
                       enableEndpointSuggestions := Some(false), execute := None);
    assert [first, second][..1] == [first] && [first][..0] == [];
    assert Executed([]) == [] && QueryIds([]) == [];
    assert Executes(first) && Executed([first]) == Executed([]) + [first];
    assert QueryIds([first]) == QueryIds([]);
    assert Executed([first, second]) == Executed([first]) + [second] && Executed([]) + [first] + [second] == [first, second];
    assert QueryIds([first, second]) == QueryIds([first]) + [IdOf(second)] && QueryIds([]) + [IdOf(second)] == [IdOf(second)];
    assert Ids([first, second]) == [IdOf(first), IdOf(second)];
  }

  // ---------- The body of one query ----------

  // The query of the body: aggregations of term and range queries are not filtered by their own
  // value, only by the separate range of a range query.
  function BodyQuery(q: Query, c: Compiled): Result<Option<Es>> {
    if c.query.Some? && !(c.byValue && (q.kind.TermKind? || q.kind.RangeKind?)) then Ok(c.query)
    else if q.kind.RangeKind? && q.range.Some? then RangeOf(q.filter, q.range.value)
    else if q.kind.TermKind? || c.query.None? then Ok(Some(MatchAll))
    else Ok(c.query)
  }

  predicate UsesCursor(q: Query) { q.deepPagination && q.cursor.Some? && q.cursor.value != "" }

  function Paged(q: Query): Query {
    if UsesCursor(q) then q.(from := Some(0)) else q
  }

  predicate UsesKnn(q: Query, backend: Backend) {
    q.vector.Some? && q.vectorField.Some? && !backend.OtherBackend?
  }

  function DefaultScript(backend: Backend): string {
    match backend
    case ElasticSearch => "cosineSimilarity(params.queryVector, params.dataField) + 1.0"
    case OpenSearch => "cosinesimil"
    case OtherBackend => ""
  }

  function KnnSize(q: Query): int {
    var candidates, size := q.candidates.GetOr(10), q.size.GetOr(10);
    if candidates > size then size else candidates
  }

  function KnnQuery(q: Query, backend: Backend, query: Option<Es>): Es
    requires UsesKnn(q, backend)
  {
    ScriptScore(query, Script(q.script.GetOr(DefaultScript(backend)), q.vector.value, q.vectorField.value))
  }

  function WithoutQuery(options: Options): Options {
    map k | k in options && k != "query" :: options[k]
  }

  function Cursored(q: Query): Options {
    if UsesCursor(q) then map["search_after" := Cursor([q.cursor.value])] else map[]
  }

  function Body(rs: Request, q: Query, backend: Backend): Result<Options> {
    var c := QueryFor(rs, q);
    if c.Err? then Err(c.message) else BodyOf(c.value, q, backend)
  }

  function BodyOf(c: Compiled, q: Query, backend: Backend): Result<Options> {
    var query := BodyQuery(q, c);
    if query.Err? then Err(query.message)
    else
      var own := OwnOptions(Paged(q));
      if own.Err? then Err(own.message)
      else
        var merged := Merged(c.options, query.value, Cursored(q), own.value, q.defaultQuery.GetOr(map[]));
        Ok(if UsesKnn(q, backend)
           then merged["query" := Dsl(Some(KnnQuery(q, backend, query.value)))]["size" := Int(KnnSize(q))]
           else merged)
  }

  function Merged(inherited: Options, query: Option<Es>, cursor: Options, own: Options, default: Options): Options {
    inherited["query" := Dsl(query)] + cursor + own + WithoutQuery(default)
  }

  method MergeBody(inherited: Options, query: Option<Es>, q: Query, own: Options) returns (finalQuery: Options)
    ensures finalQuery == Merged(inherited, query, Cursored(q), own, q.defaultQuery.GetOr(map[]))
  {
    finalQuery := inherited["query" := Dsl(query)];
    if UsesCursor(q) {
      finalQuery := finalQuery["search_after" := Cursor([q.cursor.value])];
    }
    assert finalQuery == inherited["query" := Dsl(query)] + Cursored(q);
    finalQuery := MergeMaps(finalQuery, own);
    if q.defaultQuery.Some? {
      finalQuery := MergeMaps(finalQuery, WithoutQuery(q.defaultQuery.value));
    } else {
      assert finalQuery == finalQuery + WithoutQuery(map[]);
    }
  }

  method BuildBody(rs: Request, q: Query, backend: Backend) returns (r: Result<Options>)
    ensures r == Body(rs, q, backend)
  {
    var compiled := GetQuery(rs, q);
    if compiled.Err? {
      return Err(compiled.message);
    }
    var query := BodyQuery(q, compiled.value);
    if query.Err? {
      return Err(query.message);
    }
    var own := OwnOptions(Paged(q));
    if own.Err? {
      return Err(own.message);
    }
    var finalQuery := MergeBody(compiled.value.options, query.value, q, own.value);
    if UsesKnn(q, backend) {
      finalQuery := finalQuery["query" := Dsl(Some(KnnQuery(q, backend, query.value)))]["size" := Int(KnnSize(q))];
    }
    r := Ok(finalQuery);
  }

  // The options that react hands to q.
  ghost function FromReact(rs: Request, q: Query): seq<Query> {
    if q.react.Some? then Reacted(Env(rs, Contribution), q.react.value) else []
  }

  lemma OwnHasNoQuery(q: Query)
    requires OwnOptions(q).Ok?
    ensures "query" !in OwnOptions(q).value
  {
    if "query" in Collect(OwnEntries(q)) {
      CollectKeys(OwnEntries(q), "query");
    }
  }

  // In every body, query is the compiled query. Under kNN it is the base of a script score with the
  // script of the query, or that of the backend.
  lemma BodyQueryOrigin(rs: Request, q: Query, backend: Backend)
    requires Body(rs, q, backend).Ok?
    ensures BodyQuery(q, QueryFor(rs, q).value).Ok? && "query" in Body(rs, q, backend).value
    ensures var query := BodyQuery(q, QueryFor(rs, q).value).value;
            Body(rs, q, backend).value["query"] ==
              if q.vector.Some? && q.vectorField.Some? && backend != OtherBackend then
                var default := if backend == OpenSearch then "cosinesimil"
                               else "cosineSimilarity(params.queryVector, params.dataField) + 1.0";
                Dsl(Some(ScriptScore(query, Script(q.script.GetOr(default), q.vector.value, q.vectorField.value))))
              else Dsl(query)
  {
    QueryOfBody(QueryFor(rs, q).value, q, backend);
  }

  lemma QueryOfBody(c: Compiled, q: Query, backend: Backend)
    requires BodyOf(c, q, backend).Ok?
    ensures BodyQuery(q, c).Ok? && "query" in BodyOf(c, q, backend).value
    ensures var query := BodyQuery(q, c).value;
            BodyOf(c, q, backend).value["query"] == Dsl(if UsesKnn(q, backend) then Some(KnnQuery(q, backend, query)) else query)
  {
    OwnHasNoQuery(Paged(q));
    MergedAt(c.options, BodyQuery(q, c).value, Cursored(q), OwnOptions(Paged(q)).value, q.defaultQuery.GetOr(map[]), "query");
  }

  // The query pages by a cursor.
  predicate PagesByCursor(q: Query) {
    q.deepPagination && q.cursor.Some? && q.cursor.value != ""
  }

  // Component i is the last of cs to hand on option k.
  ghost predicate LastHandsOn(cs: seq<Query>, i: int, k: string) {
    && 0 <= i < |cs| && HandedOn(cs[i], k).Some?
    && forall j :: i < j < |cs| ==> HandedOn(cs[j], k).None?
  }

  // Every option but the query has one definite origin: the default query, else the query's own
  // fields, else the cursor, else the last reacted component that hands it on; under kNN the size is
  // the smaller of candidates and size, 10 if not given.
  ghost predicate Originates(body: Options, q: Query, cs: seq<Query>, backend: Backend, k: string) {
    if k == "size" && q.vector.Some? && q.vectorField.Some? && backend != OtherBackend then
      var candidates, size := q.candidates.GetOr(10), q.size.GetOr(10);
      k in body && body[k] == Int(if size < candidates then size else candidates)
    else if q.defaultQuery.Some? && k in q.defaultQuery.value then k in body && body[k] == q.defaultQuery.value[k]
    else if OwnValue(q, PagesByCursor(q), k).Some? then k in body && body[k] == OwnValue(q, PagesByCursor(q), k).value
    else if k == "search_after" && PagesByCursor(q) then k in body && body[k] == Cursor([q.cursor.value])
    else
      && (k in body <==> exists i :: LastHandsOn(cs, i, k))
      && (forall i :: LastHandsOn(cs, i, k) ==> body[k] == HandedOn(cs[i], k).value)
  }

  lemma BodyOrigins(rs: Request, q: Query, backend: Backend, k: string)
    requires Body(rs, q, backend).Ok? && k != "query"
    ensures Originates(Body(rs, q, backend).value, q, FromReact(rs, q), backend, k)
  {
    QueryOptions(rs, q);
    var env := Env(rs, Contribution);
    if q.react.Some? {
      ReactedBuild(env, "", q.react.value, State([], map[]));
    }
    OriginsOf(QueryFor(rs, q).value, q, env, FromReact(rs, q), backend, k);
  }

  // The inherited value of an option, read off the components.
  lemma InheritedAt(env: Env, cs: seq<Query>, k: string)
    requires env.build == Contribution && forall c :: c in cs ==> Contribution(c).Ok?
    ensures k in Inherited(env, map[], cs) <==> exists i :: LastHandsOn(cs, i, k)
    ensures forall i :: LastHandsOn(cs, i, k) ==> k in Inherited(env, map[], cs) && Inherited(env, map[], cs)[k] == HandedOn(cs[i], k).value
  {
    InheritedFromLast(env, cs, k);
    forall i | 0 <= i < |cs|
      ensures k in Contributed(env, cs[i]) <==> HandedOn(cs[i], k).Some?
      ensures k in Contributed(env, cs[i]) ==> Contributed(env, cs[i])[k] == HandedOn(cs[i], k).value
    {
      assert cs[i] in cs;
      ContributedAt(cs[i], k);
    }
    assert forall i :: LastHandsOn(cs, i, k) <==> LastSets(env, cs, i, k);
  }

  lemma PagedAt(q: Query, k: string)
    ensures OwnOptions(Paged(q)).Ok? ==>
              var own := OwnOptions(Paged(q)).value;
              && (k in own <==> OwnValue(q, PagesByCursor(q), k).Some?)
              && (k in own ==> own[k] == OwnValue(q, PagesByCursor(q), k).value)
  {
    OwnOptionsAt(Paged(q), k);
  }

  lemma OriginsOf(c: Compiled, q: Query, env: Env, cs: seq<Query>, backend: Backend, k: string)
    requires BodyOf(c, q, backend).Ok? && c.options == Inherited(env, map[], cs) && k != "query"
    requires env.build == Contribution && forall r :: r in cs ==> Contribution(r).Ok?
    ensures Originates(BodyOf(c, q, backend).value, q, cs, backend, k)
  {
    var own, body := OwnOptions(Paged(q)).value, BodyOf(c, q, backend).value;
    if k == "size" && UsesKnn(q, backend) {
      assert body[k] == Int(KnnSize(q));
    } else {
      var m := Merged(c.options, BodyQuery(q, c).value, Cursored(q), own, q.defaultQuery.GetOr(map[]));
      assert (k in body <==> k in m) && (k in m ==> body[k] == m[k]);
      MergedOrigins(c, q, env, cs, backend, k);
    }
  }

  lemma MergedOrigins(c: Compiled, q: Query, env: Env, cs: seq<Query>, backend: Backend, k: string)
    requires OwnOptions(Paged(q)).Ok? && BodyQuery(q, c).Ok?
    requires c.options == Inherited(env, map[], cs) && k != "query" && !(k == "size" && UsesKnn(q, backend))
    requires env.build == Contribution && forall r :: r in cs ==> Contribution(r).Ok?
    ensures Originates(Merged(c.options, BodyQuery(q, c).value, Cursored(q), OwnOptions(Paged(q)).value, q.defaultQuery.GetOr(map[])),
                       q, cs, backend, k)
  {
    var own, default := OwnOptions(Paged(q)).value, q.defaultQuery.GetOr(map[]);
    OwnHasNoQuery(Paged(q));
    MergedAt(c.options, BodyQuery(q, c).value, Cursored(q), own, default, k);
    PagedAt(q, k);
    if k !in default && k !in own && k !in Cursored(q) {
      InheritedAt(env, cs, k);
    }
  }

  lemma MergedAt(inherited: Options, query: Option<Es>, cursor: Options, own: Options, default: Options, k: string)
    requires "query" !in cursor && "query" !in own
    ensures var m := Merged(inherited, query, cursor, own, default);
            if k == "query" then k in m && m[k] == Dsl(query)
            else if k in default then k in m && m[k] == default[k]
            else if k in own then k in m && m[k] == own[k]
            else if k in cursor then k in m && m[k] == cursor[k]
            else (k in m <==> k in inherited) && (k in inherited ==> m[k] == inherited[k])
  {
  }

  // Neither react nor a default query asks for anything.
  ghost predicate OnlyByValue(rs: Request, q: Query) {
    !(q.react.Some? && AsksSomething(rs, q.react.value)) && forall c :: !Holding(q.defaultQuery, c)
  }

  // A range query for which nothing else asks, and whose separate range has no bounds, has no query.
  ghost predicate NoQuery(rs: Request, q: Query) {
    OnlyByValue(rs, q) && q.kind == RangeKind && q.range.Some? && NoBounds(q.range.value)
  }

  // The documents that the body of q selects, stated on the request: all of them for a term query
  // by value alone, those of its separate range for a range query, otherwise those that react and
  // the query's own query select.
  ghost predicate Selects(s: Semantics, rs: Request, q: Query, d: Doc) {
    if OnlyByValue(rs, q) && q.kind == TermKind then true
    else if OnlyByValue(rs, q) && q.kind == RangeKind && q.range.Some? then
      q.range.value.Bounds? && q.filter.fields != [] && BoundsAccept(s, q.filter, q.range.value, d)
    else
      && (q.react.Some? ==> Asked(s, rs, "", q.react.value, d))
      && OwnSelects(s, q, q.react.Some? && AsksSomething(rs, q.react.value), d)
  }

  lemma BodyQuerySelects(s: Semantics, rs: Request, q: Query, d: Doc)
    requires QueryFor(rs, q).Ok? && BodyQuery(q, QueryFor(rs, q).value).Ok?
    ensures BodyQuery(q, QueryFor(rs, q).value).value.None? <==> NoQuery(rs, q)
    ensures !NoQuery(rs, q) ==> (Matches(s, BodyQuery(q, QueryFor(rs, q).value).value.value, d) <==> Selects(s, rs, q, d))
  {
    QueryMeaning(s, rs, q, d);
    CompiledByValue(rs, q);
    if q.react.Some? && !AsksSomething(rs, q.react.value) {
      NothingAsked(s, rs, "", q.react.value, d);
    }
    if QueryFor(rs, q).value.byValue && q.kind.RangeKind? && q.range.Some? && !NoQuery(rs, q) {
      RangeOfMeaning(s, q.filter, q.range.value, d);
    }
  }

  // The query of the emitted body, with or without kNN, selects exactly those documents. Without a
  // query there is none in the body, and kNN on top of it selects nothing.
  lemma BodySelects(s: Semantics, rs: Request, q: Query, backend: Backend, d: Doc)
    requires Body(rs, q, backend).Ok?
    ensures QueryOf(Body(rs, q, backend).value).None? <==>
            NoQuery(rs, q) && !(q.vector.Some? && q.vectorField.Some? && backend != OtherBackend)
    ensures QueryOf(Body(rs, q, backend).value).Some? ==>
              (Matches(s, QueryOf(Body(rs, q, backend).value).value, d) <==> !NoQuery(rs, q) && Selects(s, rs, q, d))
  {
    BodyQueryOrigin(rs, q, backend);
    BodyQuerySelects(s, rs, q, d);
    ScoredSelects(s, BodyQuery(q, QueryFor(rs, q).value).value, d);
  }

  // A script score selects what its base selects.
  lemma ScoredSelects(s: Semantics, query: Option<Es>, d: Doc)
    ensures forall script :: Matches(s, ScriptScore(query, script), d) <==> query.Some? && Matches(s, query.value, d)
  {
  }

  lemma CompiledByValue(rs: Request, q: Query)
    requires QueryFor(rs, q).Ok?
    ensures QueryFor(rs, q).value.byValue <==> OnlyByValue(rs, q)
  {
    if q.react.Some? {
      VacuousAsAsked(rs, q.react.value);
      ReactMeaning(Semantics((a, b, f) => true, (p, e) => [], (l, e) => true), Env(rs, Contribution), "", q.react.value, State([], map[]), map[]);
    }
    var default := QueryOf(q.defaultQuery.GetOr(map[]));
    assert forall c :: Holding(q.defaultQuery, c) <==> default == Some(c);
  }

  // ---------- Emission ----------

  datatype Config = Config(preference: string, index: Option<string>)

  datatype Emitted = Emitted(config: Config, body: Options)

  // encoding/json on the two objects of a pair. Encoded JSON has no raw newline: inside strings
  // section 7 of RFC 8259 asks for an escape, and Marshal writes no other white space.
  datatype Codec = Codec(
    encodeConfig: Config -> string, decodeConfig: string -> Option<Config>,
    encodeBody: Options -> string, decodeBody: string -> Option<Options>)

  // The codec reads back the pairs that are emitted.
  ghost predicate Faithful(c: Codec, pairs: seq<Emitted>) {
    forall e :: e in pairs ==>
      && '\n' !in c.encodeConfig(e.config) && c.decodeConfig(c.encodeConfig(e.config)) == Some(e.config)
      && '\n' !in c.encodeBody(e.body) && c.decodeBody(c.encodeBody(e.body)) == Some(e.body)
  }

  const NO_ID := "field 'id' can't be empty"
  const NO_URL := "`endpoint.url` is a required property when `endpoint` is passed. Remove the `endpoint` property if it's not used."

  function QueryError(q: Query): Option<string> {
    if q.id.None? then Some(NO_ID)
    else if q.invalid.Some? then q.invalid
    else if q.endpoint.Some? && q.endpoint.value.url.GetOr("") == "" then Some(NO_URL)
    else None
  }

  function UserTag(settings: Settings): string { settings.userId.GetOr(settings.userIP) }

  function ConfigFor(q: Query, settings: Settings): Config {
    Config(if settings.preference.Some? then settings.preference.value else IdOf(q) + "_" + UserTag(settings), q.index)
  }

  // The pairs for the first queries of a request, or the first error.
  function Pairs(rs: Request, qs: seq<Query>, settings: Settings): Result<seq<Emitted>> {
    if qs == [] then Ok([])
    else
      var init, last := Pairs(rs, qs[..|qs| - 1], settings), qs[|qs| - 1];
      if init.Err? || !Executes(last) then init
      else
        var pair := EmittedFor(rs, last, settings);
        if pair.Err? then Err(pair.message) else Ok(init.value + [pair.value])
  }

  function EmittedFor(rs: Request, q: Query, settings: Settings): Result<Emitted> {
    var body := Body(rs, q, settings.backend.GetOr(ElasticSearch));
    if body.Err? then Err(body.message) else Ok(Emitted(ConfigFor(q, settings), body.value))
  }

  function PairText(codec: Codec, pair: Emitted): string {
    codec.encodeConfig(pair.config) + "\n" + codec.encodeBody(pair.body) + "\n"
  }

  function Ndjson(codec: Codec, pairs: seq<Emitted>): string {
    if pairs == [] then ""
    else Ndjson(codec, pairs[..|pairs| - 1]) + PairText(codec, pairs[|pairs| - 1])
  }

  function FirstError(qs: seq<Query>): Option<string> {
    if qs == [] then None
    else
      var init := FirstError(qs[..|qs| - 1]);
      if init.Some? then init else QueryError(qs[|qs| - 1])
  }

  // Query i is objectionable, and says so: it has no id, a check on its fields has failed, or it has an
  // endpoint without a url.
  predicate Objects(q: Query, message: string) {
    if q.id.None? then message == "field 'id' can't be empty"
    else if q.invalid.Some? then message == q.invalid.value
    else
      && q.endpoint.Some? && (q.endpoint.value.url.None? || q.endpoint.value.url == Some(""))
      && message == "`endpoint.url` is a required property when `endpoint` is passed. Remove the `endpoint` property if it's not used."
  }

  // The first objection of all is the one reported.
  lemma {:induction false} FirstErrorMeaning(qs: seq<Query>, message: string)
    ensures FirstError(qs) == Some(message) <==>
            exists i :: 0 <= i < |qs| && Objects(qs[i], message) && forall j :: 0 <= j < i ==> QueryError(qs[j]).None?
    ensures FirstError(qs).None? <==> forall i :: 0 <= i < |qs| ==> QueryError(qs[i]).None?
    ensures forall i :: 0 <= i < |qs| ==> (Objects(qs[i], message) <==> QueryError(qs[i]) == Some(message))
  {
    if qs != [] {
      var n := |qs| - 1;
      var init := qs[..n];
      FirstErrorMeaning(init, message);
      assert forall i :: 0 <= i < n ==> init[i] == qs[i];
      assert Objects(qs[n], message) <==> QueryError(qs[n]) == Some(message);
    }
  }

  lemma {:induction false} FirstErrorStays(qs: seq<Query>, n: nat)
    requires n <= |qs| && FirstError(qs[..n]).Some?
    ensures FirstError(qs) == FirstError(qs[..n])
  {
    if n < |qs| {
      var init := qs[..|qs| - 1];
      assert init[..n] == qs[..n];
      FirstErrorStays(init, n);
    } else {
      assert qs[..n] == qs;
    }
  }

  lemma {:induction false} PairsStay(rs: Request, qs: seq<Query>, settings: Settings, n: nat)
    requires n <= |qs| && Pairs(rs, qs[..n], settings).Err?
    ensures Pairs(rs, qs, settings) == Pairs(rs, qs[..n], settings)
  {
    if n < |qs| {
      var init := qs[..|qs| - 1];
      assert init[..n] == qs[..n];
      PairsStay(rs, init, settings, n);
    } else {
      assert qs[..n] == qs;
    }
  }

  function Translated(codec: Codec, rs: Request, settings: Settings): Result<string> {
    if FirstError(rs).Some? then Err(FirstError(rs).value)
    else
      var pairs := Pairs(rs, rs, settings);
      if pairs.Err? then Err(pairs.message) else Ok(Ndjson(codec, pairs.value))
  }

  method TranslateQuery(codec: Codec, rs: Request, settings: Settings) returns (r: Result<string>)
    ensures r == Translated(codec, rs, settings)
  {
    var error := ValidateQueries(rs);
    if error.Some? {
      return Err(error.value);
    }
    r := EmitQueries(codec, rs, settings);
  }

  method ValidateQueries(rs: Request) returns (error: Option<string>)
    ensures error == FirstError(rs)
  {
    for i := 0 to |rs|
      invariant FirstError(rs[..i]).None?
    {
      assert rs[..i + 1][..i] == rs[..i];
      if QueryError(rs[i]).Some? {
        FirstErrorStays(rs, i + 1);
        return QueryError(rs[i]);
      }
    }
    assert rs[..|rs|] == rs;
    error := None;
  }

  method EmitQueries(codec: Codec, rs: Request, settings: Settings) returns (r: Result<string>)
    ensures var pairs := Pairs(rs, rs, settings);
            r == if pairs.Err? then Err(pairs.message) else Ok(Ndjson(codec, pairs.value))
  {
    var mSearchQuery := "";
    ghost var pairs: seq<Emitted> := [];
    for i := 0 to |rs|
      invariant Pairs(rs, rs[..i], settings) == Ok(pairs)
      invariant mSearchQuery == Ndjson(codec, pairs)
    {
      assert rs[..i + 1][..i] == rs[..i];
      var query := rs[i];
      if query.endpoint.Some? && !EndpointSuggestionsOff(query) {
        query := query.(execute := Some(false));
      }
      if ShouldExecute(query) {
        ghost var pair := EmittedFor(rs, query, settings);
        var text := EmitPair(codec, rs, query, settings);
        if text.Err? {
          PairsStay(rs, rs, settings, i + 1);
          return Err(text.message);
        }
        mSearchQuery := mSearchQuery + text.value;
        pairs := pairs + [pair.value];
      }
    }
    assert rs[..|rs|] == rs;
    r := Ok(mSearchQuery);
  }

  method EmitPair(codec: Codec, rs: Request, query: Query, settings: Settings) returns (text: Result<string>)
    ensures var pair := EmittedFor(rs, query, settings);
            text == if pair.Err? then Err(pair.message) else Ok(PairText(codec, pair.value))
  {
    var body := BuildBody(rs, query, settings.backend.GetOr(ElasticSearch));
    if body.Err? {
      return Err(body.message);
    }
    var lines := codec.encodeConfig(ConfigFor(query, settings));
    lines := lines + "\n";
    lines := lines + codec.encodeBody(body.value);
    lines := lines + "\n";
    text := Ok(lines);
  }

  // ---------- Reading the text back ----------

  // extractIDFromPreference: everything before the last underscore.
  function ExtractID(preference: string): string {
    var parts := Split(preference, '_');
    Join(parts[..|parts| - 1], '_')
  }

  // The id comes back exactly when the user tag has no underscore of its own.
  lemma ExtractIDInverts(id: string, tag: string)
    ensures ExtractID(id + "_" + tag) == id <==> '_' !in tag
  {
    var ids, tags := Split(id, '_'), Split(tag, '_');
    SplitConcat(id, tag, '_');
    assert id + "_" + tag == id + ['_'] + tag;
    JoinSplit(id, '_');
    JoinSplit(tag, '_');
    if |tags| == 1 {
      assert (ids + tags)[..|ids + tags| - 1] == ids;
      assert tags[0] == tag;
    } else {
      var init := tags[..|tags| - 1];
      assert (ids + tags)[..|ids + tags| - 1] == ids + init;
      JoinAppend(ids, init, '_');
      if '_' !in tag {
        SplitSingle(tag, '_');
      }
    }
  }

  datatype Read = Read(id: string, body: Options)

  const UNREADABLE := "error while unmarshalling"

  // The loop of validate over the lines of the body. Err stands for its unmarshalling errors, and
  // for indexing past an odd number of lines.
  method Validate(codec: Codec, text: string) returns (r: Result<seq<Read>>)
    ensures r == ReadText(codec, text)
  {
    var lines := Split(text, '\n');
    r := ValidateLines(codec, lines[..|lines| - 1]);
  }

  method ValidateLines(codec: Codec, lines: seq<string>) returns (r: Result<seq<Read>>)
    ensures r == ReadLines(codec, lines)
  {
    var shown: seq<Read> := [];
    var i := 0;
    while 2 * i + 1 < |lines|
      invariant 2 * i <= |lines|
      invariant ReadPairs(codec, lines, i) == Ok(shown)
    {
      var config := codec.decodeConfig(lines[2 * i]);
      var body := codec.decodeBody(lines[2 * i + 1]);
      if config.None? || body.None? {
        ReadPairsStop(codec, lines, i + 1, |lines| / 2);
        return Err(UNREADABLE);
      }
      shown := shown + [Read(ExtractID(config.value.preference), body.value)];
      i := i + 1;
    }
    r := if 2 * i < |lines| then Err(UNREADABLE) else Ok(shown);
  }

  function ReadText(codec: Codec, text: string): Result<seq<Read>> {
    var lines := Split(text, '\n');
    ReadLines(codec, lines[..|lines| - 1])
  }

  function ReadLines(codec: Codec, lines: seq<string>): Result<seq<Read>> {
    var read := ReadPairs(codec, lines, |lines| / 2);
    if read.Ok? && |lines| % 2 == 1 then Err(UNREADABLE) else read
  }

  function ReadPairs(codec: Codec, lines: seq<string>, n: nat): Result<seq<Read>>
    requires 2 * n <= |lines|
  {
    if n == 0 then Ok([])
    else
      var init := ReadPairs(codec, lines, n - 1);
      if init.Err? then init
      else
        var config, body := codec.decodeConfig(lines[2 * n - 2]), codec.decodeBody(lines[2 * n - 1]);
        if config.None? || body.None? then Err(UNREADABLE)
        else Ok(init.value + [Read(ExtractID(config.value.preference), body.value)])
  }

  // A text is unreadable exactly when its lines do not pair up or one of them cannot be decoded.
  lemma UnreadableIff(codec: Codec, text: string)
    ensures var n := |Split(text, '\n')| - 1;
            ReadText(codec, text).Err? <==>
              n % 2 == 1 || exists i :: 0 <= i < n / 2 && Undecoded(codec, Split(text, '\n'), i)
  {
    var all := Split(text, '\n');
    var n := |all| - 1;
    var lines := all[..n];
    UndecodedPair(codec, lines, n / 2);
    assert forall i :: 0 <= i < n / 2 ==> (Undecoded(codec, lines, i) <==> Undecoded(codec, all, i));
  }

  predicate Undecoded(codec: Codec, lines: seq<string>, i: nat)
    requires 2 * i + 1 < |lines|
  {
    codec.decodeConfig(lines[2 * i]).None? || codec.decodeBody(lines[2 * i + 1]).None?
  }

  lemma {:induction false} UndecodedPair(codec: Codec, lines: seq<string>, n: nat)
    requires 2 * n <= |lines|
    ensures ReadPairs(codec, lines, n).Err? <==> exists i :: 0 <= i < n && Undecoded(codec, lines, i)
  {
    if n > 0 {
      UndecodedPair(codec, lines, n - 1);
      assert Undecoded(codec, lines, n - 1) <==> codec.decodeConfig(lines[2 * n - 2]).None? || codec.decodeBody(lines[2 * n - 1]).None?;
    }
  }

  lemma {:induction false} ReadPairsStop(codec: Codec, lines: seq<string>, m: nat, n: nat)
    requires m <= n && 2 * n <= |lines| && ReadPairs(codec, lines, m) == Err(UNREADABLE)
    ensures ReadPairs(codec, lines, n) == Err(UNREADABLE)
  {
    if m < n {
      ReadPairsStop(codec, lines, m, n - 1);
    }
  }

  function LinesOf(codec: Codec, pairs: seq<Emitted>): seq<string> {
    if pairs == [] then []
    else
      var last := pairs[|pairs| - 1];
      LinesOf(codec, pairs[..|pairs| - 1]) + [codec.encodeConfig(last.config), codec.encodeBody(last.body)]
  }

  lemma LineAppended(text: string, lines: seq<string>, line: string)
    requires Split(text, '\n') == lines + [""] && '\n' !in line
    ensures Split(text + line + "\n", '\n') == lines + [line] + [""]
  {
    SplitAppend(text, line, '\n');
    assert text + line + "\n" == (text + line) + ['\n'] + "";
    SplitConcat(text + line, "", '\n');
    assert (lines + [""])[..|lines|] == lines;
    assert "" + line == line;
  }

  lemma {:induction false} SplitNdjson(codec: Codec, pairs: seq<Emitted>)
    requires Faithful(codec, pairs)
    ensures Split(Ndjson(codec, pairs), '\n') == LinesOf(codec, pairs) + [""]
  {
    if pairs != [] {
      var init, last := pairs[..|pairs| - 1], pairs[|pairs| - 1];
      var config, body := codec.encodeConfig(last.config), codec.encodeBody(last.body);
      var text, lines := Ndjson(codec, init), LinesOf(codec, init);
      SplitNdjson(codec, init);
      LineAppended(text, lines, config);
      LineAppended(text + config + "\n", lines + [config], body);
      assert Ndjson(codec, pairs) == text + config + "\n" + body + "\n";
      assert lines + [config] + [body] == LinesOf(codec, pairs);
    }
  }

  function ReadBack(pairs: seq<Emitted>): seq<Read> {
    seq(|pairs|, i requires 0 <= i < |pairs| => Read(ExtractID(pairs[i].config.preference), pairs[i].body))
  }

  lemma {:induction false} ReadLinesOf(codec: Codec, pairs: seq<Emitted>, lines: seq<string>)
    requires Faithful(codec, pairs) && LinesOf(codec, pairs) <= lines
    ensures |LinesOf(codec, pairs)| == 2 * |pairs|
    ensures ReadPairs(codec, lines, |pairs|) == Ok(ReadBack(pairs))
  {
    if pairs != [] {
      var init, last := pairs[..|pairs| - 1], pairs[|pairs| - 1];
      ReadLinesOf(codec, init, lines);
      var n := 2 * |init|;
      assert lines[n] == LinesOf(codec, pairs)[n] == codec.encodeConfig(last.config);
      assert lines[n + 1] == LinesOf(codec, pairs)[n + 1] == codec.encodeBody(last.body);
      assert ReadBack(pairs) == ReadBack(init) + [Read(ExtractID(last.config.preference), last.body)];
    } else {
      assert ReadBack(pairs) == [];
    }
  }

  // The preference given with the request, or else the query's id and the user, by id or address.
  function SentConfig(q: Query, settings: Settings): Config {
    var user := if settings.userId.Some? then settings.userId.value else settings.userIP;
    Config(if settings.preference.Some? then settings.preference.value else q.id.GetOr("") + "_" + user, q.index)
  }

  // The emitted text, line by line: the configuration and the body of each executed query.
  lemma EmittedLines(codec: Codec, rs: Request, settings: Settings, i: nat)
    requires Translated(codec, rs, settings).Ok? && Faithful(codec, Pairs(rs, rs, settings).value) && i < |Executed(rs)|
    ensures var lines, q := Split(Translated(codec, rs, settings).value, '\n'), Executed(rs)[i];
            && |lines| == 2 * |Executed(rs)| + 1 && lines[|lines| - 1] == ""
            && lines[2 * i] == codec.encodeConfig(SentConfig(q, settings))
            && Body(rs, q, settings.backend.GetOr(ElasticSearch)).Ok?
            && lines[2 * i + 1] == codec.encodeBody(Body(rs, q, settings.backend.GetOr(ElasticSearch)).value)
  {
    var pairs := Pairs(rs, rs, settings).value;
    SplitNdjson(codec, pairs);
    PairsOfExecuted(rs, rs, settings);
    LinesAt(codec, pairs, i);
  }

  lemma {:induction false} LinesAt(codec: Codec, pairs: seq<Emitted>, i: nat)
    requires i < |pairs|
    ensures |LinesOf(codec, pairs)| == 2 * |pairs|
    ensures LinesOf(codec, pairs)[2 * i] == codec.encodeConfig(pairs[i].config)
    ensures LinesOf(codec, pairs)[2 * i + 1] == codec.encodeBody(pairs[i].body)
  {
    var init := pairs[..|pairs| - 1];
    LinesLength(codec, init);
    if i < |init| {
      LinesAt(codec, init, i);
    }
  }

  lemma {:induction false} LinesLength(codec: Codec, pairs: seq<Emitted>)
    ensures |LinesOf(codec, pairs)| == 2 * |pairs|
  {
    if pairs != [] {
      LinesLength(codec, pairs[..|pairs| - 1]);
    }
  }

  lemma {:induction false} PairsOfExecuted(rs: Request, qs: seq<Query>, settings: Settings)
    requires Pairs(rs, qs, settings).Ok?
    ensures var pairs := Pairs(rs, qs, settings).value;
            && |pairs| == |Executed(qs)|
            && forall i :: 0 <= i < |pairs| ==>
                 && pairs[i].config == SentConfig(Executed(qs)[i], settings)
                 && Body(rs, Executed(qs)[i], settings.backend.GetOr(ElasticSearch)) == Ok(pairs[i].body)
  {
    if qs != [] {
      PairsOfExecuted(rs, qs[..|qs| - 1], settings);
    }
  }

  lemma TextReadsBack(codec: Codec, pairs: seq<Emitted>)
    requires Faithful(codec, pairs)
    ensures ReadText(codec, Ndjson(codec, pairs)) == Ok(ReadBack(pairs))
  {
    var lines := LinesOf(codec, pairs);
    assert ReadLines(codec, lines) == Ok(ReadBack(pairs)) by {
      ReadLinesOf(codec, pairs, lines);
    }
    assert Split(Ndjson(codec, pairs), '\n') == lines + [""] by {
      SplitNdjson(codec, pairs);
    }
    assert (lines + [""])[..|lines|] == lines;
  }

  lemma IdsReadBack(pairs: seq<Emitted>, sent: seq<Query>, settings: Settings)
    requires settings.preference.None? && |pairs| == |sent|
    requires forall i :: 0 <= i < |pairs| ==> pairs[i].config == SentConfig(sent[i], settings)
    ensures (forall i :: 0 <= i < |pairs| ==> ReadBack(pairs)[i].id == IdOf(sent[i]))
        <==> sent == [] || '_' !in UserTag(settings)
  {
    forall i | 0 <= i < |pairs|
      ensures ReadBack(pairs)[i].id == IdOf(sent[i]) <==> '_' !in UserTag(settings)
    {
      ExtractIDInverts(IdOf(sent[i]), UserTag(settings));
    }
    if pairs != [] {
      assert ReadBack(pairs)[0].id == IdOf(sent[0]) <==> '_' !in UserTag(settings);
    }
  }

  // Reading the emitted text gives the bodies of the executed queries, in order, and their ids
  // exactly when nothing was executed or the user tag has no underscore.
  lemma ValidateReadsBack(codec: Codec, rs: Request, settings: Settings)
    requires settings.preference.None? && Translated(codec, rs, settings).Ok?
    requires Faithful(codec, Pairs(rs, rs, settings).value)
    ensures var read := ReadText(codec, Translated(codec, rs, settings).value);
            && read.Ok? && |read.value| == |Executed(rs)|
            && (forall i :: 0 <= i < |read.value| ==>
                  Body(rs, Executed(rs)[i], settings.backend.GetOr(ElasticSearch)) == Ok(read.value[i].body))
            && ((forall i :: 0 <= i < |read.value| ==> read.value[i].id == IdOf(Executed(rs)[i]))
                <==> Executed(rs) == [] || '_' !in (if settings.userId.Some? then settings.userId.value else settings.userIP))
  {
    var pairs := Pairs(rs, rs, settings).value;
    TextReadsBack(codec, pairs);
    PairsOfExecuted(rs, rs, settings);
    IdsReadBack(pairs, Executed(rs), settings);
  }

  // ---------- Pairing responses with queries ----------

  // TransformESResponse keeps the parts of the answer under the ids of the queries, next to
  // settings and error. shape stands for parsing the hits of a suggestion response.
  datatype Parts<R> = Parts(mock: R, took: R, error: Option<R>, responses: Option<seq<R>>)

  predicate IsSuggestionId(rs: Request, id: string) {
    exists i :: 0 <= i < |rs| && IdOf(rs[i]) == id && rs[i].kind.Suggestion?
  }

  function Shaped<R>(rs: Request, shape: (string, R) -> Result<R>, id: string, value: R): Result<R> {
    if IsSuggestionId(rs, id) then shape(id, value) else Ok(value)
  }

  function MockParts<R>(qs: seq<Query>, mock: R): map<string, R> {
    map q | q in qs && Mocked(q) :: IdOf(q) := mock
  }

  method MockResponses<R>(rs: Request, mock: R) returns (rsResponse: map<string, R>)
    ensures rsResponse == MockParts(rs, mock)
  {
    rsResponse := map[];
    for i := 0 to |rs|
      invariant rsResponse == MockParts(rs[..i], mock)
    {
      assert forall q :: q in rs[..i + 1] <==> q in rs[..i] || q == rs[i];
      if Mocked(rs[i]) {
        rsResponse := rsResponse[IdOf(rs[i]) := mock];
      }
    }
    assert rs[..|rs|] == rs;
  }

  method TransformESResponse<R>(rs: Request, response: Parts<R>, shape: (string, R) -> Result<R>)
    returns (r: Result<map<string, R>>)
    ensures r.Ok? <==> AllShaped(rs, response, shape)
    ensures r.Ok? ==> r.value == HeaderParts(rs, response) + StoredParts(rs, response, shape, PairedCount(rs, response))
  {
    var queryIds := GetQueryIds(rs);
    var rsResponse := MockResponses(rs, response.mock);
    rsResponse := rsResponse["settings" := response.took];
    if response.error.Some? {
      rsResponse := rsResponse["error" := response.error.value];
    }
    r := StoreResponses(rs, response, shape, queryIds, rsResponse);
  }

  method StoreResponses<R>(rs: Request, response: Parts<R>, shape: (string, R) -> Result<R>, queryIds: seq<string>, header: map<string, R>)
    returns (r: Result<map<string, R>>)
    requires queryIds == QueryIds(rs)
    ensures r.Ok? <==> AllShaped(rs, response, shape)
    ensures r.Ok? ==> r.value == header + StoredParts(rs, response, shape, PairedCount(rs, response))
  {
    var rsResponse, index := header, 0;
    if response.responses.Some? {
      var responses := response.responses.value;
      while index < |responses| && index < |queryIds|
        invariant 0 <= index <= |responses| && index <= |queryIds|
        invariant forall i :: 0 <= i < index ==> Shaped(rs, shape, queryIds[i], responses[i]).Ok?
        invariant rsResponse == header + StoredParts(rs, response, shape, index)
      {
        var value := Shaped(rs, shape, queryIds[index], responses[index]);
        if value.Err? {
          return Err(value.message);
        }
        rsResponse := rsResponse[queryIds[index] := value.value];
        index := index + 1;
      }
    }
    r := Ok(rsResponse);
  }

  function PairedCount<R>(rs: Request, response: Parts<R>): (n: nat)
    ensures n <= |QueryIds(rs)|
    ensures n > 0 ==> response.responses.Some? && n <= |response.responses.value|
  {
    if response.responses.None? then 0
    else if |response.responses.value| < |QueryIds(rs)| then |response.responses.value|
    else |QueryIds(rs)|
  }

  ghost predicate AllShaped<R>(rs: Request, response: Parts<R>, shape: (string, R) -> Result<R>) {
    forall i :: 0 <= i < PairedCount(rs, response) ==>
      Shaped(rs, shape, QueryIds(rs)[i], response.responses.value[i]).Ok?
  }

  function HeaderParts<R>(rs: Request, response: Parts<R>): map<string, R> {
    var mocked := MockParts(rs, response.mock)["settings" := response.took];
    if response.error.Some? then mocked["error" := response.error.value] else mocked
  }

  function StoredParts<R>(rs: Request, response: Parts<R>, shape: (string, R) -> Result<R>, n: nat): map<string, R>
    requires n <= PairedCount(rs, response)
    requires forall i :: 0 <= i < n ==> Shaped(rs, shape, QueryIds(rs)[i], response.responses.value[i]).Ok?
  {
    if n == 0 then map[]
    else
      var id := QueryIds(rs)[n - 1];
      StoredParts(rs, response, shape, n - 1)[id := Shaped(rs, shape, id, response.responses.value[n - 1]).value]
  }

  lemma {:induction false} StoredAt<R>(rs: Request, response: Parts<R>, shape: (string, R) -> Result<R>, n: nat)
    requires n <= PairedCount(rs, response)
    requires forall i :: 0 <= i < n ==> Shaped(rs, shape, QueryIds(rs)[i], response.responses.value[i]).Ok?
    requires forall i, j :: 0 <= i < j < |QueryIds(rs)| ==> QueryIds(rs)[i] != QueryIds(rs)[j]
    ensures forall i :: 0 <= i < n ==>
              && QueryIds(rs)[i] in StoredParts(rs, response, shape, n)
              && Ok(StoredParts(rs, response, shape, n)[QueryIds(rs)[i]]) == Shaped(rs, shape, QueryIds(rs)[i], response.responses.value[i])
    ensures forall id :: id in StoredParts(rs, response, shape, n) ==> exists i :: 0 <= i < n && QueryIds(rs)[i] == id
  {
    if n > 0 {
      StoredAt(rs, response, shape, n - 1);
    }
  }

  // The first of two responses is stored under the second query, and the other one nowhere.
  lemma DivergentTakesResponse<R>(base: Query, second: Query, response: Parts<R>, shape: (string, R) -> Result<R>)
    requires second.kind.Search? && second.endpoint.None? && second.execute.None?
    requires response.responses.Some? && |response.responses.value| == 2
    ensures var first := base.(kind := Search, endpoint := Some(Endpoint(Some("http://host"))),
                               enableEndpointSuggestions := Some(false), execute := None);
            var rs := [first, second];
            && PairedCount(rs, response) == 1 && AllShaped(rs, response, shape)
            && StoredParts(rs, response, shape, 1) == map[IdOf(second) := response.responses.value[0]]
  {
    DivergentShiftsResponses(base, second);
    var first := base.(kind := Search, endpoint := Some(Endpoint(Some("http://host"))),
                       enableEndpointSuggestions := Some(false), execute := None);
    var rs := [first, second];
    assert forall i :: 0 <= i < |rs| ==> !rs[i].kind.Suggestion?;
    assert Shaped(rs, shape, IdOf(second), response.responses.value[0]) == Ok(response.responses.value[0]);
  }

  // The id is that of some suggestion query, whose responses are parsed.
  ghost predicate ForSuggestions(rs: Request, id: string) {
    exists q :: q in rs && q.kind == Suggestion && q.id.GetOr("") == id
  }

  // A suggestion query of this id that is switched off.
  ghost predicate SwitchedOff(rs: Request, id: string) {
    exists q :: q in rs && q.id.GetOr("") == id && q.kind == Suggestion
                && ((q.endpoint.None? && q.enableIndexSuggestions == Some(false)) || q.enableEndpointSuggestions == Some(false))
  }

  // What stands in the answer beside the stored responses: under settings and error those two, and
  // a mock for every other id of a switched-off suggestion query.
  ghost predicate Reserved<R>(rs: Request, response: Parts<R>, answer: map<string, R>, id: string) {
    if id == "error" && response.error.Some? then id in answer && answer[id] == response.error.value
    else if id == "settings" then id in answer && answer[id] == response.took
    else (id in answer <==> SwitchedOff(rs, id)) && (id in answer ==> answer[id] == response.mock)
  }

  // When the executed ids are distinct and no query is divergent, the i-th response is stored under
  // the id of the query that produced it, parsed if the id is that of a suggestion query, and as it
  // is otherwise; the rest of the answer is settings, error and mocks, and all of these are there.
  lemma ResponsesFindTheirQueries<R>(rs: Request, response: Parts<R>, shape: (string, R) -> Result<R>)
    requires forall q :: q in rs ==> !Divergent(q)
    requires AllShaped(rs, response, shape)
    requires forall i, j :: 0 <= i < j < |Executed(rs)| ==> IdOf(Executed(rs)[i]) != IdOf(Executed(rs)[j])
    ensures var n, sent := PairedCount(rs, response), Executed(rs);
            var answer := HeaderParts(rs, response) + StoredParts(rs, response, shape, n);
            && n == (if response.responses.None? then 0
                     else if |response.responses.value| < |sent| then |response.responses.value| else |sent|)
            && (forall i :: 0 <= i < n ==>
                  && sent[i].id.GetOr("") in answer
                  && (if ForSuggestions(rs, sent[i].id.GetOr("")) then
                        shape(sent[i].id.GetOr(""), response.responses.value[i]) == Ok(answer[sent[i].id.GetOr("")])
                      else answer[sent[i].id.GetOr("")] == response.responses.value[i]))
            && (forall id :: (forall i :: 0 <= i < n ==> sent[i].id.GetOr("") != id) ==> Reserved(rs, response, answer, id))
  {
    IdsLineUp(rs);
    var n, sent, ids := PairedCount(rs, response), Executed(rs), QueryIds(rs);
    assert forall i :: 0 <= i < |sent| ==> Ids(sent)[i] == sent[i].id.GetOr("") == ids[i];
    StoredAt(rs, response, shape, n);
    var header, stored := HeaderParts(rs, response), StoredParts(rs, response, shape, n);
    forall i | 0 <= i < n
      ensures var id := sent[i].id.GetOr("");
              && id in header + stored
              && (if ForSuggestions(rs, id) then shape(id, response.responses.value[i]) == Ok((header + stored)[id])
                  else (header + stored)[id] == response.responses.value[i])
    {
      SuggestionIds(rs, ids[i]);
      assert ids[i] in stored && Ok(stored[ids[i]]) == Shaped(rs, shape, ids[i], response.responses.value[i]);
    }
    forall id | forall i :: 0 <= i < n ==> sent[i].id.GetOr("") != id
      ensures Reserved(rs, response, header + stored, id)
    {
      assert id !in stored;
      HeaderAt(rs, response, header + stored, id);
    }
  }

  lemma SuggestionIds(rs: Request, id: string)
    ensures ForSuggestions(rs, id) <==> IsSuggestionId(rs, id)
  {
    if ForSuggestions(rs, id) {
      var q :| q in rs && q.kind == Suggestion && q.id.GetOr("") == id;
      var i :| 0 <= i < |rs| && rs[i] == q;
    }
  }

  lemma HeaderAt<R>(rs: Request, response: Parts<R>, answer: map<string, R>, id: string)
    requires var header := HeaderParts(rs, response); (id in answer <==> id in header) && (id in header ==> answer[id] == header[id])
    ensures Reserved(rs, response, answer, id)
  {
    assert SwitchedOff(rs, id) <==> exists q :: q in rs && Mocked(q) && IdOf(q) == id;
  }
}
