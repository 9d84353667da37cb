// Combining queries through the react property: which documents the combined query selects and
// which options it inherits.

module React {
  import opened Wrappers
  import opened EsQuery
  import opened TermRange

  datatype Kind = Search | TermKind | RangeKind | Geo | Suggestion

  // The value of an option of a request body; only "query" holds query DSL.
  datatype Opt = Dsl(query: Option<Es>) | Json(text: string) | Int(n: int) | Cursor(values: seq<string>)

  type Options = map<string, Opt>

  // The react property: a map with and/or/not, an array, a component id, or any other JSON value.
  datatype Dependency =
    | ByMap(andPart: Option<Dependency>, orPart: Option<Dependency>, notPart: Option<Dependency>)
    | Items(items: seq<Dependency>)
    | Id(id: string)
    | Ignored

  datatype Endpoint = Endpoint(url: Option<string>)

  datatype Query = Query(
    id: Option<string>,
    kind: Kind,
    react: Option<Dependency>,
    filter: Filter,
    leaf: Result<Option<Es>>,         // the query by value of search, geo and suggestion queries
    defaultQuery: Option<Options>,
    customQuery: Option<Options>,
    size: Option<int>,
    from: Option<int>,
    collapse: Option<Opt>,
    sort: Option<Opt>,
    source: Opt,
    highlight: Option<Opt>,
    aggs: Option<Opt>,
    optionsError: Option<string>,
    range: Option<Value>,
    deepPagination: bool,
    cursor: Option<string>,
    vector: Option<seq<real>>,
    vectorField: Option<string>,
    candidates: Option<int>,
    script: Option<string>,
    index: Option<string>,
    invalid: Option<string>,          // what the checks on dataField, highlightConfig and suggestion values object to
    execute: Option<bool>,
    endpoint: Option<Endpoint>,
    enableIndexSuggestions: Option<bool>,
    enableEndpointSuggestions: Option<bool>)

  type Request = seq<Query>

  const EXCEPTION_KEYS := ["size", "from", "aggs", "_source", "query"]

  // ---------- One component ----------

  function QueryOf(options: Options): Option<Es> {
    if "query" in options && options["query"].Dsl? then options["query"].query else None
  }

  // getFilteredOptions
  function Filtered(options: Options): Options {
    map k | k in options && k !in EXCEPTION_KEYS :: options[k]
  }

  // generateQueryByType
  function ByType(q: Query): Result<Option<Es>> {
    match q.kind
    case TermKind => TermQuery(q.filter)
    case RangeKind => RangeQuery(q.filter)
    case _ => q.leaf
  }

  // The options that are present; no key occurs twice below.
  function Collect(entries: seq<(string, Option<Opt>)>): Options {
    if entries == [] then map[]
    else
      var rest, last := Collect(entries[..|entries| - 1]), entries[|entries| - 1];
      if last.1.Some? then rest[last.0 := last.1.value] else rest
  }

  lemma {:induction false} CollectKeys(entries: seq<(string, Option<Opt>)>, k: string)
    requires k in Collect(entries)
    ensures exists i :: 0 <= i < |entries| && entries[i].0 == k
  {
    var n := |entries| - 1;
    if entries[n].0 != k {
      CollectKeys(entries[..n], k);
    }
  }

  // buildQueryOptions
  function OwnOptions(q: Query): Result<Options> {
    if q.optionsError.Some? then Err(q.optionsError.value) else Ok(Collect(OwnEntries(q)))
  }

  function OwnEntries(q: Query): seq<(string, Option<Opt>)> {
    [("size", if q.size.Some? then Some(Int(q.size.value)) else if q.kind.TermKind? || q.kind.RangeKind? then Some(Int(0)) else None),
     ("collapse", q.collapse),
     ("from", if q.from.Some? && !q.kind.TermKind? then Some(Int(q.from.value)) else None),
     ("sort", if q.kind.Search? then q.sort else None),
     ("_source", Some(q.source)),
     ("highlight", q.highlight),
     ("aggs", q.aggs)]
  }

  // applyCustomQuery
  function CustomQuery(q: Query): Result<(Option<Es>, Options)> {
    var custom := q.customQuery.GetOr(map[]);
    if QueryOf(custom).Some? then Ok((QueryOf(custom), Filtered(custom)))
    else
      var byType := ByType(q);
      if byType.Err? then Err(byType.message) else Ok((byType.value, Filtered(custom)))
  }

  // What a reacted component contributes: its query and its options.
  function Contribution(q: Query): Result<(Option<Es>, Options)> {
    var own, custom := OwnOptions(q), CustomQuery(q);
    if own.Err? then Err(own.message)
    else if custom.Err? then Err(custom.message)
    else Ok((custom.value.0, Filtered(own.value) + custom.value.1))
  }

  // getQueryInstanceByID: the first query with the id.
  function Lookup(rs: Request, id: string): Option<Query> {
    if rs == [] then None
    else if rs[0].id == Some(id) then Some(rs[0])
    else Lookup(rs[1..], id)
  }

  // getOperation and createBoolQuery
  function Group(conjunction: string, qs: seq<Es>): Es {
    if conjunction == "and" then Bool(qs, [], [], None)
    else if conjunction == "or" then Bool([], qs, [], Some(1))
    else Bool([], [], qs, None)
  }

  // mergeMaps: the second map wins.
  method MergeMaps(x: Options, y: Options) returns (merged: Options)
    ensures merged == x + y
  {
    merged := x;
    var rest := y.Keys;
    while rest != {}
      invariant rest <= y.Keys
      invariant merged == x + (map k | k in y && k !in rest :: y[k])
      decreases rest
    {
      var k :| k in rest;
      merged := merged[k := y[k]];
      rest := rest - {k};
    }
    assert (map k | k in y && k !in rest :: y[k]) == y;
  }

  // ---------- Evaluating react ----------

  // The queries of the request and what a reacted component contributes; getQuery evaluates with
  // Contribution.
  datatype Env = Env(queries: Request, build: Query -> Result<(Option<Es>, Options)>)

  datatype State = State(clauses: seq<Es>, options: Options)

  function AfterComponent(options: Options, contributed: Options): Options {
    Filtered(options + contributed)
  }

  function Evaluated(env: Env, conjunction: string, react: Dependency, st: State): Result<State>
    decreases react
  {
    match react
    case ByMap(andPart, orPart, notPart) =>
      var a := if andPart.Some? then Evaluated(env, "and", andPart.value, st) else Ok(st);
      if a.Err? then a
      else
        var o := if orPart.Some? then Evaluated(env, "or", orPart.value, a.value) else a;
        if o.Err? || notPart.None? then o else Evaluated(env, "not", notPart.value, o.value)
    case Items(items) => EvaluatedItems(env, conjunction, items, [], st)
    case Id(id) =>
      var step := Step(env, id, [], st);
      if step.Err? then Err(step.message) else Ok(Close(conjunction, step.value.0, step.value.1))
    case Ignored => Ok(st)
  }

  // The loop over an array: an element that is not a string ends it, and what was found so far
  // is dropped.
  function EvaluatedItems(env: Env, conjunction: string, items: seq<Dependency>, found: seq<Es>, st: State): Result<State>
    decreases items
  {
    if items == [] then Ok(Close(conjunction, found, st))
    else if !items[0].Id? then Evaluated(env, "", items[0], st)
    else
      var step := Step(env, items[0].id, found, st);
      if step.Err? then Err(step.message)
      else EvaluatedItems(env, conjunction, items[1..], step.value.0, step.value.1)
  }

  // One component: an unknown id is skipped.
  function Step(env: Env, id: string, found: seq<Es>, st: State): Result<(seq<Es>, State)> {
    var component := Lookup(env.queries, id);
    if component.None? then Ok((found, st))
    else
      var c := env.build(component.value);
      if c.Err? then Err(c.message)
      else Ok((found + (if c.value.0.Some? then [c.value.0.value] else []),
               st.(options := AfterComponent(st.options, c.value.1))))
  }

  function Close(conjunction: string, found: seq<Es>, st: State): State {
    if found == [] then st else st.(clauses := st.clauses + [Group(conjunction, found)])
  }

  class OptionsRef {
    var entries: Options

    constructor ()
      ensures entries == map[]
    {
      entries := map[];
    }
  }

  // evalReactProp: appends to the list of clauses and updates the options that its callers share.
  method EvalReactProp(rs: Request, query: seq<Es>, queryOptions: OptionsRef, conjunction: string, react: Dependency)
    returns (r: Result<seq<Es>>)
    modifies queryOptions
    ensures var spec := Evaluated(Env(rs, Contribution), conjunction, react, State(query, old(queryOptions.entries)));
            if spec.Err? then r == Err(spec.message)
            else r == Ok(spec.value.clauses) && queryOptions.entries == spec.value.options
    decreases react
  {
    ghost var env, st := Env(rs, Contribution), State(query, queryOptions.entries);
    match react
    case ByMap(andPart, orPart, notPart) =>
      var clauses := query;
      if andPart.Some? {
        r := EvalReactProp(rs, clauses, queryOptions, "and", andPart.value);
        if r.Err? { return; }
        clauses := r.value;
      }
      if orPart.Some? {
        r := EvalReactProp(rs, clauses, queryOptions, "or", orPart.value);
        if r.Err? { return; }
        clauses := r.value;
      }
      if notPart.Some? {
        r := EvalReactProp(rs, clauses, queryOptions, "not", notPart.value);
        if r.Err? { return; }
        clauses := r.value;
      }
      r := Ok(clauses);
    case Items(items) =>
      var queryArr: seq<Es> := [];
      var i := 0;
      while i < |items|
        invariant 0 <= i <= |items|
        invariant EvaluatedItems(env, conjunction, items, [], st)
               == EvaluatedItems(env, conjunction, items[i..], queryArr, State(query, queryOptions.entries))
      {
        assert items[i..][1..] == items[i + 1..];
        if items[i].Id? {
          var component := Lookup(rs, items[i].id);
          if component.Some? {
            r := EvalComponent(component.value, queryOptions);
            if r.Err? { return; }
            queryArr := queryArr + r.value;
          }
        } else {
          r := EvalReactProp(rs, query, queryOptions, "", items[i]);
          return;
        }
        i := i + 1;
      }
      r := Ok(if |queryArr| > 0 then query + [Group(conjunction, queryArr)] else query);
    case Id(id) =>
      r := Ok(query);
      var component := Lookup(rs, id);
      if component.Some? {
        r := EvalComponent(component.value, queryOptions);
        if r.Ok? {
          assert [] + r.value == r.value;
          r := Ok(if r.value == [] then query else query + [Group(conjunction, r.value)]);
        }
      }
    case Ignored =>
      r := Ok(query);
  }

  // The part of evalReactProp that array elements and single ids share.
  method EvalComponent(component: Query, queryOptions: OptionsRef) returns (r: Result<seq<Es>>)
    modifies queryOptions
    ensures var c := Contribution(component);
            if c.Err? then r == Err(c.message)
            else
              && r == Ok(if c.value.0.Some? then [c.value.0.value] else [])
              && queryOptions.entries == AfterComponent(old(queryOptions.entries), c.value.1)
  {
    var queryOps := OwnOptions(component);
    if queryOps.Err? {
      return Err(queryOps.message);
    }
    var custom := CustomQuery(component);
    if custom.Err? {
      return Err(custom.message);
    }
    var contributed := MergeMaps(Filtered(queryOps.value), custom.value.1);
    var merged := MergeMaps(queryOptions.entries, contributed);
    queryOptions.entries := Filtered(merged);
    r := Ok(if custom.value.0.Some? then [custom.value.0.value] else []);
  }

  // ---------- What react means ----------

  function ComponentQuery(env: Env, id: string): Option<Es> {
    var component := Lookup(env.queries, id);
    if component.None? then None
    else
      var c := env.build(component.value);
      if c.Err? then None else c.value.0
  }

  // The queries of the known components among the ids, without the components that have none.
  function ComponentQueries(env: Env, ids: seq<Dependency>): seq<Es> {
    if ids == [] then []
    else
      (if ids[0].Id? && ComponentQuery(env, ids[0].id).Some? then [ComponentQuery(env, ids[0].id).value] else [])
      + ComponentQueries(env, ids[1..])
  }

  // The first element of an array that is not an id.
  function FirstOther(items: seq<Dependency>): Option<Dependency> {
    if items == [] then None
    else if !items[0].Id? then Some(items[0])
    else FirstOther(items[1..])
  }

  // and: all of them; or: some of them; anything else: none of them; no queries: no condition.
  ghost predicate GroupHolds(s: Semantics, conjunction: string, qs: seq<Es>, d: Doc) {
    || qs == []
    || (if conjunction == "and" then forall q :: q in qs ==> Matches(s, q, d)
        else if conjunction == "or" then exists q :: q in qs && Matches(s, q, d)
        else forall q :: q in qs ==> !Matches(s, q, d))
  }

  lemma {:induction false} FirstOtherIn(items: seq<Dependency>)
    ensures FirstOther(items).Some? ==> FirstOther(items).value in items
    ensures FirstOther(items).None? <==> forall i :: 0 <= i < |items| ==> items[i].Id?
  {
    if items != [] {
      FirstOtherIn(items[1..]);
    }
  }

  // The condition that a react property puts on a document.
  ghost predicate Holds(s: Semantics, env: Env, conjunction: string, react: Dependency, d: Doc)
    decreases react
  {
    match react
    case ByMap(andPart, orPart, notPart) =>
      && (andPart.Some? ==> Holds(s, env, "and", andPart.value, d))
      && (orPart.Some? ==> Holds(s, env, "or", orPart.value, d))
      && (notPart.Some? ==> Holds(s, env, "not", notPart.value, d))
    case Items(items) =>
      FirstOtherIn(items);
      if FirstOther(items).Some? then Holds(s, env, "", FirstOther(items).value, d)
      else GroupHolds(s, conjunction, ComponentQueries(env, items), d)
    case Id(id) => GroupHolds(s, conjunction, ComponentQueries(env, [react]), d)
    case Ignored => true
  }

  // The react property puts no condition at all.
  ghost predicate Vacuous(env: Env, react: Dependency)
    decreases react
  {
    match react
    case ByMap(andPart, orPart, notPart) =>
      && (andPart.Some? ==> Vacuous(env, andPart.value))
      && (orPart.Some? ==> Vacuous(env, orPart.value))
      && (notPart.Some? ==> Vacuous(env, notPart.value))
    case Items(items) =>
      FirstOtherIn(items);
      if FirstOther(items).Some? then Vacuous(env, FirstOther(items).value) else ComponentQueries(env, items) == []
    case Id(id) => ComponentQueries(env, [react]) == []
    case Ignored => true
  }

  ghost predicate AllMatch(s: Semantics, qs: seq<Es>, d: Doc) {
    forall q :: q in qs ==> Matches(s, q, d)
  }

  lemma GroupMatches(s: Semantics, conjunction: string, qs: seq<Es>, d: Doc)
    requires qs != []
    ensures Matches(s, Group(conjunction, qs), d) <==> GroupHolds(s, conjunction, qs, d)
  {
    if conjunction == "or" {
      ShouldMatches(s, qs, Some(1), d);
    }
  }

  // Evaluation appends clauses which together say exactly what react means, and appends none
  // exactly when react puts no condition.
  ghost predicate Appends(s: Semantics, st: State, st': State, holds: bool, vacuous: bool, d: Doc) {
    && st.clauses <= st'.clauses
    && (AllMatch(s, st'.clauses, d) <==> AllMatch(s, st.clauses, d) && holds)
    && (st'.clauses == st.clauses <==> vacuous)
  }

  lemma AppendOne(s: Semantics, st: State, c: Es, options: Options, d: Doc)
    ensures Appends(s, st, State(st.clauses + [c], options), Matches(s, c, d), false, d)
  {
    assert c in st.clauses + [c];
  }

  lemma StepFinds(env: Env, id: Dependency, found: seq<Es>, st: State)
    requires id.Id? && Step(env, id.id, found, st).Ok?
    ensures Step(env, id.id, found, st).value.0 == found + ComponentQueries(env, [id])
    ensures Step(env, id.id, found, st).value.1.clauses == st.clauses
  {
    assert ComponentQueries(env, [id][1..]) == [];
  }

  lemma CloseMeaning(s: Semantics, conjunction: string, found: seq<Es>, st: State, d: Doc)
    ensures Appends(s, st, Close(conjunction, found, st), GroupHolds(s, conjunction, found, d), found == [], d)
  {
    if found != [] {
      GroupMatches(s, conjunction, found, d);
      AppendOne(s, st, Group(conjunction, found), st.options, d);
    }
  }

  lemma CloseStep(env: Env, conjunction: string, items: seq<Dependency>, found: seq<Es>, st: State)
    requires items != [] && items[0].Id? && Step(env, items[0].id, found, st).Ok?
    ensures (var step := Step(env, items[0].id, found, st).value;
             Close(conjunction, step.0 + ComponentQueries(env, items[1..]), step.1).clauses)
         == Close(conjunction, found + ComponentQueries(env, items), st).clauses
  {
    var step := Step(env, items[0].id, found, st).value;
    StepFinds(env, items[0], found, st);
    assert ComponentQueries(env, [items[0]][1..]) == [];
    assert step.0 + ComponentQueries(env, items[1..]) == found + ComponentQueries(env, items);
  }

  lemma {:induction false} ItemsClauses(env: Env, conjunction: string, items: seq<Dependency>, found: seq<Es>, st: State)
    requires EvaluatedItems(env, conjunction, items, found, st).Ok?
    requires FirstOther(items).None?
    ensures EvaluatedItems(env, conjunction, items, found, st).value.clauses
         == Close(conjunction, found + ComponentQueries(env, items), st).clauses
  {
    if items == [] {
      assert found + ComponentQueries(env, items) == found;
    } else {
      var step := Step(env, items[0].id, found, st).value;
      ItemsClauses(env, conjunction, items[1..], step.0, step.1);
      CloseStep(env, conjunction, items, found, st);
    }
  }

  lemma {:induction false} ItemsStop(env: Env, conjunction: string, items: seq<Dependency>, found: seq<Es>, st: State) returns (options: Options)
    requires EvaluatedItems(env, conjunction, items, found, st).Ok?
    requires FirstOther(items).Some?
    ensures EvaluatedItems(env, conjunction, items, found, st)
         == Evaluated(env, "", FirstOther(items).value, st.(options := options))
  {
    options := st.options;
    if items[0].Id? {
      var step := Step(env, items[0].id, found, st).value;
      options := ItemsStop(env, conjunction, items[1..], step.0, step.1);
    }
  }

  lemma {:induction false} ReactMeaning(s: Semantics, env: Env, conjunction: string, react: Dependency, st: State, d: Doc)
    requires Evaluated(env, conjunction, react, st).Ok?
    ensures Appends(s, st, Evaluated(env, conjunction, react, st).value,
                    Holds(s, env, conjunction, react, d), Vacuous(env, react), d)
    decreases react
  {
    match react
    case ByMap(andPart, orPart, notPart) =>
      var a := if andPart.Some? then Evaluated(env, "and", andPart.value, st).value else st;
      var o := if orPart.Some? then Evaluated(env, "or", orPart.value, a).value else a;
      if andPart.Some? { ReactMeaning(s, env, "and", andPart.value, st, d); }
      if orPart.Some? { ReactMeaning(s, env, "or", orPart.value, a, d); }
      if notPart.Some? { ReactMeaning(s, env, "not", notPart.value, o, d); }
    case Items(items) =>
      FirstOtherIn(items);
      if FirstOther(items).Some? {
        var options := ItemsStop(env, conjunction, items, [], st);
        ReactMeaning(s, env, "", FirstOther(items).value, st.(options := options), d);
      } else {
        ItemsClauses(env, conjunction, items, [], st);
        assert [] + ComponentQueries(env, items) == ComponentQueries(env, items);
        CloseMeaning(s, conjunction, ComponentQueries(env, items), st, d);
      }
    case Id(id) =>
      StepFinds(env, react, [], st);
      var step := Step(env, id, [], st).value;
      assert [] + ComponentQueries(env, [react]) == ComponentQueries(env, [react]);
      CloseMeaning(s, conjunction, step.0, step.1, d);
    case Ignored =>
  }

  // ---------- The options that react hands on ----------

  // The known components in the order in which evaluation visits them.
  function Reacted(env: Env, react: Dependency): seq<Query>
    decreases react
  {
    match react
    case ByMap(andPart, orPart, notPart) =>
      (if andPart.Some? then Reacted(env, andPart.value) else [])
      + (if orPart.Some? then Reacted(env, orPart.value) else [])
      + (if notPart.Some? then Reacted(env, notPart.value) else [])
    case Items(items) => ReactedItems(env, items)
    case Id(id) => Known(env, id)
    case Ignored => []
  }

  function ReactedItems(env: Env, items: seq<Dependency>): seq<Query>
    decreases items
  {
    if items == [] then []
    else if !items[0].Id? then Reacted(env, items[0])
    else Known(env, items[0].id) + ReactedItems(env, items[1..])
  }

  function Known(env: Env, id: string): seq<Query> {
    if Lookup(env.queries, id).Some? then [Lookup(env.queries, id).value] else []
  }

  function Contributed(env: Env, q: Query): Options {
    if env.build(q).Ok? then Filtered(env.build(q).value.1) else map[]
  }

  function Inherited(env: Env, options: Options, cs: seq<Query>): Options {
    if cs == [] then options
    else AfterComponent(Inherited(env, options, cs[..|cs| - 1]), Contributed(env, cs[|cs| - 1]))
  }

  lemma {:induction false} InheritedConcat(env: Env, options: Options, a: seq<Query>, b: seq<Query>)
    ensures Inherited(env, options, a + b) == Inherited(env, Inherited(env, options, a), b)
  {
    if b == [] {
      assert a + b == a;
    } else {
      assert (a + b)[..|a + b| - 1] == a + b[..|b| - 1];
      InheritedConcat(env, options, a, b[..|b| - 1]);
    }
  }

  lemma StepInherits(env: Env, id: string, found: seq<Es>, st: State)
    requires Step(env, id, found, st).Ok?
    ensures Step(env, id, found, st).value.1.options == Inherited(env, st.options, Known(env, id))
  {
    var cs := Known(env, id);
    if cs != [] {
      assert Inherited(env, st.options, cs[..0]) == st.options;
    }
  }

  lemma {:induction false} ItemsInherit(env: Env, conjunction: string, items: seq<Dependency>, found: seq<Es>, st: State)
    requires EvaluatedItems(env, conjunction, items, found, st).Ok?
    ensures EvaluatedItems(env, conjunction, items, found, st).value.options == Inherited(env, st.options, ReactedItems(env, items))
    decreases items
  {
    if items != [] {
      if !items[0].Id? {
        ReactInherits(env, "", items[0], st);
      } else {
        var step := Step(env, items[0].id, found, st).value;
        StepInherits(env, items[0].id, found, st);
        ItemsInherit(env, conjunction, items[1..], step.0, step.1);
        InheritedConcat(env, st.options, Known(env, items[0].id), ReactedItems(env, items[1..]));
      }
    }
  }

  lemma {:induction false} ReactInherits(env: Env, conjunction: string, react: Dependency, st: State)
    requires Evaluated(env, conjunction, react, st).Ok?
    ensures Evaluated(env, conjunction, react, st).value.options == Inherited(env, st.options, Reacted(env, react))
    decreases react
  {
    match react
    case ByMap(andPart, orPart, notPart) =>
      var a := if andPart.Some? then Evaluated(env, "and", andPart.value, st).value else st;
      var o := if orPart.Some? then Evaluated(env, "or", orPart.value, a).value else a;
      var as', os := if andPart.Some? then Reacted(env, andPart.value) else [], if orPart.Some? then Reacted(env, orPart.value) else [];
      var ns := if notPart.Some? then Reacted(env, notPart.value) else [];
      if andPart.Some? { ReactInherits(env, "and", andPart.value, st); }
      if orPart.Some? { ReactInherits(env, "or", orPart.value, a); }
      if notPart.Some? { ReactInherits(env, "not", notPart.value, o); }
      InheritedConcat(env, st.options, as', os);
      InheritedConcat(env, st.options, as' + os, ns);
    case Items(items) =>
      ItemsInherit(env, conjunction, items, [], st);
    case Id(id) =>
      StepInherits(env, id, [], st);
    case Ignored =>
  }

  // Component i is the last of cs to set option k.
  ghost predicate LastSets(env: Env, cs: seq<Query>, i: int, k: string) {
    && 0 <= i < |cs| && k in Contributed(env, cs[i])
    && forall j :: i < j < |cs| ==> k !in Contributed(env, cs[j])
  }

  // An inherited option comes from the last component that sets it, and is never one of the
  // exception keys.
  lemma {:induction false} InheritedFromLast(env: Env, cs: seq<Query>, k: string)
    ensures k in Inherited(env, map[], cs) <==> exists i :: LastSets(env, cs, i, k)
    ensures forall i :: LastSets(env, cs, i, k) ==> k in Inherited(env, map[], cs) && Inherited(env, map[], cs)[k] == Contributed(env, cs[i])[k]
    ensures k in EXCEPTION_KEYS ==> k !in Inherited(env, map[], cs)
  {
    if cs != [] {
      var init, last := cs[..|cs| - 1], cs[|cs| - 1];
      InheritedFromLast(env, init, k);
      LastSetsSplit(env, cs, k);
      if k in Contributed(env, last) {
        assert LastSets(env, cs, |cs| - 1, k);
      } else if i :| LastSets(env, init, i, k) {
        assert LastSets(env, cs, i, k);
      } else {
        assert forall i :: LastSets(env, cs, i, k) ==> LastSets(env, init, i, k);
      }
    }
  }

  lemma LastSetsSplit(env: Env, cs: seq<Query>, k: string)
    requires cs != []
    ensures k in Contributed(env, cs[|cs| - 1]) ==> LastSets(env, cs, |cs| - 1, k) && forall i :: LastSets(env, cs, i, k) ==> i == |cs| - 1
    ensures k !in Contributed(env, cs[|cs| - 1]) ==>
              forall i :: LastSets(env, cs, i, k) <==> LastSets(env, cs[..|cs| - 1], i, k)
  {
  }

  // ---------- getQuery ----------

  // query is Go's *interface{}; byValue tells that it was generated from the value.
  datatype Compiled = Compiled(query: Option<Es>, options: Options, byValue: bool)

  function OptionalClause(q: Option<Es>): seq<Es> {
    if q.Some? then [q.value] else []
  }

  method GetQuery(rs: Request, q: Query) returns (r: Result<Compiled>)
    ensures r == QueryFor(rs, q)
  {
    var finalQuery: seq<Es> := [];
    var finalOptions := new OptionsRef();
    if q.react.Some? {
      var evaluated := EvalReactProp(rs, finalQuery, finalOptions, "", q.react.value);
      if evaluated.Err? {
        return Err(evaluated.message);
      }
      finalQuery := evaluated.value;
    }
    if |finalQuery| != 0 {
      ghost var clauses := finalQuery;
      if q.defaultQuery.Some? {
        if QueryOf(q.defaultQuery.value).Some? {
          finalQuery := finalQuery + [QueryOf(q.defaultQuery.value).value];
        }
      } else if q.kind.Search? || q.kind.Suggestion? {
        var byType := ByType(q);
        if byType.Err? {
          return Err(byType.message);
        }
        if byType.value.Some? {
          finalQuery := finalQuery + [byType.value.value];
        }
      }
      assert clauses + [] == clauses;
      return Ok(Compiled(Some(Must(finalQuery)), finalOptions.entries, false));
    } else if q.defaultQuery.Some? && QueryOf(q.defaultQuery.value).Some? {
      return Ok(Compiled(QueryOf(q.defaultQuery.value), finalOptions.entries, false));
    }
    var byType := ByType(q);
    r := if byType.Err? then Err(byType.message) else Ok(Compiled(byType.value, finalOptions.entries, true));
  }

  function ReactState(rs: Request, q: Query): Result<State> {
    if q.react.Some? then Evaluated(Env(rs, Contribution), "", q.react.value, State([], map[])) else Ok(State([], map[]))
  }

  function QueryFor(rs: Request, q: Query): Result<Compiled> {
    var st := ReactState(rs, q);
    if st.Err? then Err(st.message)
    else
      var conditioned := st.value.clauses != [];
      var own := OwnQuery(q, conditioned);
      if own.Err? then Err(own.message)
      else if conditioned then
        Ok(Compiled(Some(Must(st.value.clauses + OptionalClause(own.value))), st.value.options, false))
      else
        Ok(Compiled(own.value, st.value.options, q.defaultQuery.None? || QueryOf(q.defaultQuery.value).None?))
  }

  // The query that joins the react clauses: the default query when there is one, otherwise the
  // query by value, but next to react clauses only for search and suggestion queries.
  function OwnQuery(q: Query, conditioned: bool): Result<Option<Es>> {
    var default := QueryOf(q.defaultQuery.GetOr(map[]));
    if default.Some? then Ok(default)
    else if !conditioned then ByType(q)
    else if q.defaultQuery.None? && (q.kind.Search? || q.kind.Suggestion?) then ByType(q)
    else Ok(None)
  }

  // The components that hand options on have all been built.
  lemma {:induction false} ReactedBuild(env: Env, conjunction: string, react: Dependency, st: State)
    requires Evaluated(env, conjunction, react, st).Ok?
    ensures forall c :: c in Reacted(env, react) ==> env.build(c).Ok?
    decreases react, 1
  {
    match react
    case ByMap(andPart, orPart, notPart) =>
      var a := if andPart.Some? then Evaluated(env, "and", andPart.value, st).value else st;
      var o := if orPart.Some? then Evaluated(env, "or", orPart.value, a).value else a;
      if andPart.Some? { ReactedBuild(env, "and", andPart.value, st); }
      if orPart.Some? { ReactedBuild(env, "or", orPart.value, a); }
      if notPart.Some? { ReactedBuild(env, "not", notPart.value, o); }
    case Items(items) => ReactedItemsBuild(env, conjunction, items, [], st);
    case Id(_) =>
    case Ignored =>
  }

  lemma {:induction false} ReactedItemsBuild(env: Env, conjunction: string, items: seq<Dependency>, found: seq<Es>, st: State)
    requires EvaluatedItems(env, conjunction, items, found, st).Ok?
    ensures forall c :: c in ReactedItems(env, items) ==> env.build(c).Ok?
    decreases items, 0
  {
    if items != [] {
      if !items[0].Id? {
        ReactedBuild(env, "", items[0], st);
      } else {
        var step := Step(env, items[0].id, found, st).value;
        ReactedItemsBuild(env, conjunction, items[1..], step.0, step.1);
      }
    }
  }

  // ---------- What a component contributes, read off its fields ----------

  // The query of the id is the i-th of the request: the first one that has it.
  ghost predicate Names(rs: Request, id: string, i: int) {
    0 <= i < |rs| && rs[i].id == Some(id) && forall j :: 0 <= j < i ==> rs[j].id != Some(id)
  }

  lemma {:induction false} LookupFirst(rs: Request, id: string)
    ensures Lookup(rs, id).None? <==> forall i :: 0 <= i < |rs| ==> rs[i].id != Some(id)
    ensures Lookup(rs, id).Some? <==> exists i :: Names(rs, id, i)
    ensures forall i :: Names(rs, id, i) ==> Lookup(rs, id) == Some(rs[i])
  {
    if rs != [] {
      var rest := rs[1..];
      LookupFirst(rest, id);
      if rs[0].id == Some(id) {
        assert Names(rs, id, 0);
        assert forall i :: Names(rs, id, i) ==> i == 0;
      } else {
        assert forall i :: 0 < i < |rs| ==> rs[i] == rest[i - 1];
        assert forall i :: Names(rs, id, i) ==> Names(rest, id, i - 1);
        assert forall i :: Names(rest, id, i) ==> Names(rs, id, i + 1);
      }
    }
  }

  // The query by value fails: a term query has a value but no field, a range query a bad range.
  ghost predicate ByValueFails(q: Query) {
    match q.kind
    case TermKind => !NoTerm(q.filter) && q.filter.fields == []
    case RangeKind => RangeFails(q.filter)
    case _ => q.leaf.Err?
  }

  // There is a query by value.
  ghost predicate HasByValue(q: Query) {
    match q.kind
    case TermKind => !NoTerm(q.filter) && q.filter.fields != []
    case RangeKind =>
      && q.filter.value.Some? && q.filter.fields != []
      && (if q.filter.value.value.List? then
            q.filter.value.value != List([]) && forall v :: v in q.filter.value.value.items ==> Bounded(v)
          else Bounded(q.filter.value.value))
    case _ => q.leaf.Ok? && q.leaf.value.Some?
  }

  // The documents it selects.
  ghost predicate ByValueSelects(s: Semantics, q: Query, d: Doc)
    requires HasByValue(q)
  {
    match q.kind
    case TermKind => TermAccepts(s, q.filter, d)
    case RangeKind => RangeAccepts(s, q.filter, d)
    case _ => Matches(s, q.leaf.value.value, d)
  }

  lemma ByTypeMeaning(s: Semantics, q: Query, d: Doc)
    ensures ByType(q).Err? <==> ByValueFails(q)
    ensures ByType(q).Ok? && ByType(q).value.Some? <==> HasByValue(q)
    ensures HasByValue(q) ==> (Matches(s, ByType(q).value.value, d) <==> ByValueSelects(s, q, d))
  {
    match q.kind
    case TermKind => TermQueryMeaning(s, q.filter, d);
    case RangeKind =>
      RangeQueryMeaning(s, q.filter, d);
      RangeQueryFails(q.filter);
    case _ =>
  }

  // The query that some options hold.
  predicate Holding(options: Option<Options>, query: Es) {
    options.Some? && "query" in options.value && options.value["query"] == Dsl(Some(query))
  }

  // A component fails when its options do, or when it has no custom query and its query by value fails.
  ghost predicate ComponentFails(q: Query) {
    q.optionsError.Some? || ((forall c :: !Holding(q.customQuery, c)) && ByValueFails(q))
  }

  // The component contributes a query, its custom query or else the one by value.
  ghost predicate ContributesQuery(q: Query) {
    q.optionsError.None? && ((exists c :: Holding(q.customQuery, c)) || HasByValue(q))
  }

  ghost predicate ComponentSelects(s: Semantics, q: Query, d: Doc)
    requires ContributesQuery(q)
  {
    if exists c :: Holding(q.customQuery, c) then exists c :: Holding(q.customQuery, c) && Matches(s, c, d)
    else ByValueSelects(s, q, d)
  }

  lemma ContributionMeaning(s: Semantics, q: Query, d: Doc)
    ensures Contribution(q).Err? <==> ComponentFails(q)
    ensures Contribution(q).Ok? && Contribution(q).value.0.Some? <==> ContributesQuery(q)
    ensures ContributesQuery(q) ==> (Matches(s, Contribution(q).value.0.value, d) <==> ComponentSelects(s, q, d))
  {
    ByTypeMeaning(s, q, d);
    var custom := QueryOf(q.customQuery.GetOr(map[]));
    assert forall c :: Holding(q.customQuery, c) <==> custom == Some(c);
  }

  // The value of an option that the query sets itself; cursor tells whether it pages by a cursor.
  function OwnValue(q: Query, cursor: bool, k: string): Option<Opt> {
    if k == "size" then
      if q.size.Some? then Some(Int(q.size.value))
      else if q.kind == TermKind || q.kind == RangeKind then Some(Int(0))
      else None
    else if k == "from" then
      if q.kind == TermKind then None
      else if cursor then Some(Int(0))
      else if q.from.Some? then Some(Int(q.from.value))
      else None
    else if k == "collapse" then q.collapse
    else if k == "sort" then if q.kind == Search then q.sort else None
    else if k == "_source" then Some(q.source)
    else if k == "highlight" then q.highlight
    else if k == "aggs" then q.aggs
    else None
  }

  lemma OwnOptionsAt(q: Query, k: string)
    ensures OwnOptions(q).Err? <==> q.optionsError.Some?
    ensures OwnOptions(q).Ok? ==>
              (k in OwnOptions(q).value <==> OwnValue(q, false, k).Some?)
              && (k in OwnOptions(q).value ==> OwnOptions(q).value[k] == OwnValue(q, false, k).value)
  {
    var e := OwnEntries(q);
    CollectAt(e, 7, k);
    assert e[..7] == e;
    assert LastValue(e, 1, k) == if k == "size" then e[0].1 else None;
    assert LastValue(e, 2, k) == if k == "collapse" then e[1].1 else LastValue(e, 1, k);
    assert LastValue(e, 3, k) == if k == "from" then e[2].1 else LastValue(e, 2, k);
    assert LastValue(e, 4, k) == if k == "sort" then e[3].1 else LastValue(e, 3, k);
    assert LastValue(e, 5, k) == if k == "_source" then e[4].1 else LastValue(e, 4, k);
    assert LastValue(e, 6, k) == if k == "highlight" then e[5].1 else LastValue(e, 5, k);
    assert LastValue(e, 7, k) == if k == "aggs" then e[6].1 else LastValue(e, 6, k);
  }

  // The last entry of a key decides; an absent value leaves the option as it was.
  function LastValue(entries: seq<(string, Option<Opt>)>, n: nat, k: string): Option<Opt>
    requires n <= |entries|
  {
    if n == 0 then None
    else if entries[n - 1].0 == k && entries[n - 1].1.Some? then entries[n - 1].1
    else LastValue(entries, n - 1, k)
  }

  lemma {:induction false} CollectAt(entries: seq<(string, Option<Opt>)>, n: nat, k: string)
    requires n <= |entries|
    ensures var m := Collect(entries[..n]);
            (k in m <==> LastValue(entries, n, k).Some?) && (k in m ==> m[k] == LastValue(entries, n, k).value)
  {
    if n > 0 {
      CollectAt(entries, n - 1, k);
      assert entries[..n][..n - 1] == entries[..n - 1];
    }
  }

  // The value of an option that a component hands on: its custom query's, else its own; never one of
  // the five keys that stay with a query.
  function HandedOn(q: Query, k: string): Option<Opt> {
    if k in {"size", "from", "aggs", "_source", "query"} then None
    else if q.customQuery.Some? && k in q.customQuery.value then Some(q.customQuery.value[k])
    else OwnValue(q, false, k)
  }

  lemma ContributedAt(q: Query, k: string)
    requires Contribution(q).Ok?
    ensures k in Contribution(q).value.1 <==> HandedOn(q, k).Some?
    ensures k in Contribution(q).value.1 ==> Contribution(q).value.1[k] == HandedOn(q, k).value
  {
    OwnOptionsAt(q, k);
  }

  // ---------- What a request asks for ----------

  // The known component of the id contributes a query.
  ghost predicate Contributes(rs: Request, id: string) {
    exists i :: Names(rs, id, i) && ContributesQuery(rs[i])
  }

  ghost predicate IdSelects(s: Semantics, rs: Request, id: string, d: Doc) {
    exists i :: Names(rs, id, i) && ContributesQuery(rs[i]) && ComponentSelects(s, rs[i], d)
  }

  // All, some or none of the contributing components among the ids select the document.
  ghost predicate IdsHold(s: Semantics, rs: Request, conjunction: string, ids: seq<Dependency>, d: Doc) {
    || (forall c :: c in ids && c.Id? ==> !Contributes(rs, c.id))
    || (if conjunction == "and" then forall c :: c in ids && c.Id? && Contributes(rs, c.id) ==> IdSelects(s, rs, c.id, d)
        else if conjunction == "or" then exists c :: c in ids && c.Id? && Contributes(rs, c.id) && IdSelects(s, rs, c.id, d)
        else forall c :: c in ids && c.Id? && Contributes(rs, c.id) ==> !IdSelects(s, rs, c.id, d))
  }

  // What the react property of a request asks of a document.
  ghost predicate Asked(s: Semantics, rs: Request, conjunction: string, react: Dependency, d: Doc)
    decreases react
  {
    match react
    case ByMap(andPart, orPart, notPart) =>
      && (andPart.Some? ==> Asked(s, rs, "and", andPart.value, d))
      && (orPart.Some? ==> Asked(s, rs, "or", orPart.value, d))
      && (notPart.Some? ==> Asked(s, rs, "not", notPart.value, d))
    case Items(items) =>
      FirstOtherIn(items);
      if FirstOther(items).Some? then Asked(s, rs, "", FirstOther(items).value, d)
      else IdsHold(s, rs, conjunction, items, d)
    case Id(id) => IdsHold(s, rs, conjunction, [react], d)
    case Ignored => true
  }

  // It asks for something.
  ghost predicate AsksSomething(rs: Request, react: Dependency)
    decreases react
  {
    match react
    case ByMap(andPart, orPart, notPart) =>
      || (andPart.Some? && AsksSomething(rs, andPart.value))
      || (orPart.Some? && AsksSomething(rs, orPart.value))
      || (notPart.Some? && AsksSomething(rs, notPart.value))
    case Items(items) =>
      FirstOtherIn(items);
      if FirstOther(items).Some? then AsksSomething(rs, FirstOther(items).value)
      else exists c :: c in items && c.Id? && Contributes(rs, c.id)
    case Id(id) => Contributes(rs, id)
    case Ignored => false
  }

  lemma ComponentAt(s: Semantics, rs: Request, id: string, d: Doc)
    ensures var c := ComponentQuery(Env(rs, Contribution), id);
            (c.Some? <==> Contributes(rs, id)) && (c.Some? ==> (Matches(s, c.value, d) <==> IdSelects(s, rs, id, d)))
  {
    LookupFirst(rs, id);
    var found := Lookup(rs, id);
    if found.Some? {
      var i :| Names(rs, id, i);
      assert forall j :: Names(rs, id, j) ==> j == i;
      ContributionMeaning(s, rs[i], d);
    }
  }

  lemma {:induction false} ComponentsAt(s: Semantics, rs: Request, ids: seq<Dependency>, d: Doc)
    ensures var qs := ComponentQueries(Env(rs, Contribution), ids);
            && (qs == [] <==> forall c :: c in ids && c.Id? ==> !Contributes(rs, c.id))
            && ((forall q :: q in qs ==> Matches(s, q, d)) <==>
                forall c :: c in ids && c.Id? && Contributes(rs, c.id) ==> IdSelects(s, rs, c.id, d))
            && ((exists q :: q in qs && Matches(s, q, d)) <==>
                exists c :: c in ids && c.Id? && Contributes(rs, c.id) && IdSelects(s, rs, c.id, d))
            && ((forall q :: q in qs ==> !Matches(s, q, d)) <==>
                forall c :: c in ids && c.Id? && Contributes(rs, c.id) ==> !IdSelects(s, rs, c.id, d))
  {
    if ids != [] {
      var first, rest := ids[0], ids[1..];
      ComponentsAt(s, rs, rest, d);
      if first.Id? {
        ComponentAt(s, rs, first.id, d);
      }
      assert forall c :: c in ids <==> c == first || c in rest;
      var here := if first.Id? && ComponentQuery(Env(rs, Contribution), first.id).Some?
                  then [ComponentQuery(Env(rs, Contribution), first.id).value] else [];
      assert ComponentQueries(Env(rs, Contribution), ids) == here + ComponentQueries(Env(rs, Contribution), rest);
      assert forall q :: q in here + ComponentQueries(Env(rs, Contribution), rest) <==>
                         q in here || q in ComponentQueries(Env(rs, Contribution), rest);
    }
  }

  lemma {:induction false} HoldsAsAsked(s: Semantics, rs: Request, conjunction: string, react: Dependency, d: Doc)
    ensures Holds(s, Env(rs, Contribution), conjunction, react, d) <==> Asked(s, rs, conjunction, react, d)
    decreases react
  {
    match react
    case ByMap(andPart, orPart, notPart) =>
      if andPart.Some? { HoldsAsAsked(s, rs, "and", andPart.value, d); }
      if orPart.Some? { HoldsAsAsked(s, rs, "or", orPart.value, d); }
      if notPart.Some? { HoldsAsAsked(s, rs, "not", notPart.value, d); }
    case Items(items) =>
      FirstOtherIn(items);
      if FirstOther(items).Some? {
        HoldsAsAsked(s, rs, "", FirstOther(items).value, d);
      } else {
        GroupAsAsked(s, rs, conjunction, items, d);
      }
    case Id(_) => GroupAsAsked(s, rs, conjunction, [react], d);
    case Ignored =>
  }

  lemma GroupAsAsked(s: Semantics, rs: Request, conjunction: string, ids: seq<Dependency>, d: Doc)
    ensures GroupHolds(s, conjunction, ComponentQueries(Env(rs, Contribution), ids), d) <==> IdsHold(s, rs, conjunction, ids, d)
  {
    ComponentsAt(s, rs, ids, d);
  }

  lemma {:induction false} VacuousAsAsked(rs: Request, react: Dependency)
    ensures Vacuous(Env(rs, Contribution), react) <==> !AsksSomething(rs, react)
    decreases react
  {
    match react
    case ByMap(andPart, orPart, notPart) =>
      if andPart.Some? { VacuousAsAsked(rs, andPart.value); }
      if orPart.Some? { VacuousAsAsked(rs, orPart.value); }
      if notPart.Some? { VacuousAsAsked(rs, notPart.value); }
    case Items(items) =>
      FirstOtherIn(items);
      if FirstOther(items).Some? {
        VacuousAsAsked(rs, FirstOther(items).value);
      } else {
        NoneContribute(rs, items);
      }
    case Id(_) => NoneContribute(rs, [react]);
    case Ignored =>
  }

  lemma {:induction false} NoneContribute(rs: Request, ids: seq<Dependency>)
    ensures ComponentQueries(Env(rs, Contribution), ids) == [] <==> forall c :: c in ids && c.Id? ==> !Contributes(rs, c.id)
  {
    if ids != [] {
      NoneContribute(rs, ids[1..]);
      if ids[0].Id? {
        ComponentAt(Semantics((a, b, f) => true, (p, e) => [], (l, e) => true), rs, ids[0].id, map[]);
      }
      assert forall c :: c in ids <==> c == ids[0] || c in ids[1..];
    }
  }

  // A react property that asks for nothing lets every document through.
  lemma {:induction false} NothingAsked(s: Semantics, rs: Request, conjunction: string, react: Dependency, d: Doc)
    requires !AsksSomething(rs, react)
    ensures Asked(s, rs, conjunction, react, d)
    decreases react
  {
    match react
    case ByMap(andPart, orPart, notPart) =>
      if andPart.Some? { NothingAsked(s, rs, "and", andPart.value, d); }
      if orPart.Some? { NothingAsked(s, rs, "or", orPart.value, d); }
      if notPart.Some? { NothingAsked(s, rs, "not", notPart.value, d); }
    case Items(items) =>
      FirstOtherIn(items);
      if FirstOther(items).Some? {
        NothingAsked(s, rs, "", FirstOther(items).value, d);
      }
    case Id(_) =>
    case Ignored =>
  }

  // The query that joins the react clauses selects the document: the default query's if it has one,
  // otherwise the one by value; next to react clauses the latter only for search and suggestion
  // queries that have no default query at all.
  ghost predicate OwnSelects(s: Semantics, q: Query, conditioned: bool, d: Doc) {
    if exists c :: Holding(q.defaultQuery, c) then exists c :: Holding(q.defaultQuery, c) && Matches(s, c, d)
    else if !conditioned || (q.defaultQuery.None? && (q.kind == Search || q.kind == Suggestion)) then
      HasByValue(q) ==> ByValueSelects(s, q, d)
    else true
  }

  ghost predicate HasOwn(q: Query, conditioned: bool) {
    || (exists c :: Holding(q.defaultQuery, c))
    || ((!conditioned || (q.defaultQuery.None? && (q.kind == Search || q.kind == Suggestion))) && HasByValue(q))
  }

  lemma OwnQueryMeaning(s: Semantics, q: Query, conditioned: bool, d: Doc)
    requires OwnQuery(q, conditioned).Ok?
    ensures OwnQuery(q, conditioned).value.Some? <==> HasOwn(q, conditioned)
    ensures (OwnQuery(q, conditioned).value.Some? ==> Matches(s, OwnQuery(q, conditioned).value.value, d)) <==>
            OwnSelects(s, q, conditioned, d)
  {
    ByTypeMeaning(s, q, d);
    var default := QueryOf(q.defaultQuery.GetOr(map[]));
    assert forall c :: Holding(q.defaultQuery, c) <==> default == Some(c);
  }

  // The combined query selects exactly the documents that satisfy the react property and the
  // query of its own.
  lemma QueryMeaning(s: Semantics, rs: Request, q: Query, d: Doc)
    requires QueryFor(rs, q).Ok?
    ensures var conditioned := q.react.Some? && AsksSomething(rs, q.react.value);
            && (QueryFor(rs, q).value.query.None? <==> !conditioned && !HasOwn(q, conditioned))
            && (QueryFor(rs, q).value.query.Some? ==>
                 (Matches(s, QueryFor(rs, q).value.query.value, d) <==>
                   (q.react.Some? ==> Asked(s, rs, "", q.react.value, d)) && OwnSelects(s, q, conditioned, d)))
  {
    CompiledMeaning(s, rs, q, d);
    if q.react.Some? {
      HoldsAsAsked(s, rs, "", q.react.value, d);
      VacuousAsAsked(rs, q.react.value);
    }
    OwnQueryMeaning(s, q, q.react.Some? && AsksSomething(rs, q.react.value), d);
  }

  lemma CompiledMeaning(s: Semantics, rs: Request, q: Query, d: Doc)
    requires QueryFor(rs, q).Ok?
    ensures var conditioned := q.react.Some? && !Vacuous(Env(rs, Contribution), q.react.value);
            && OwnQuery(q, conditioned).Ok?
            && (QueryFor(rs, q).value.query.None? <==> !conditioned && OwnQuery(q, conditioned).value.None?)
            && (QueryFor(rs, q).value.query.Some? ==>
                 (Matches(s, QueryFor(rs, q).value.query.value, d) <==>
                   && (q.react.Some? ==> Holds(s, Env(rs, Contribution), "", q.react.value, d))
                   && (OwnQuery(q, conditioned).value.Some? ==> Matches(s, OwnQuery(q, conditioned).value.value, d))))
  {
    var st := ReactState(rs, q).value;
    if q.react.Some? {
      ReactMeaning(s, Env(rs, Contribution), "", q.react.value, State([], map[]), d);
    }
    assert AllMatch(s, st.clauses, d) <==> (q.react.Some? ==> Holds(s, Env(rs, Contribution), "", q.react.value, d));
    var own := OwnQuery(q, st.clauses != []).value;
    var clauses := st.clauses + OptionalClause(own);
    assert AllMatch(s, clauses, d) <==> AllMatch(s, st.clauses, d) && (own.Some? ==> Matches(s, own.value, d)) by {
      assert own.Some? ==> own.value in clauses;
    }
  }

  // The options of the compiled query are those inherited from the reacted components.
  lemma QueryOptions(rs: Request, q: Query)
    requires QueryFor(rs, q).Ok?
    ensures QueryFor(rs, q).value.options == Inherited(Env(rs, Contribution), map[], if q.react.Some? then Reacted(Env(rs, Contribution), q.react.value) else [])
  {
    if q.react.Some? {
      ReactInherits(Env(rs, Contribution), "", q.react.value, State([], map[]));
    }
  }

  // ---------- When a query cannot be compiled ----------

  ghost predicate IdFails(rs: Request, id: string) {
    exists i :: Names(rs, id, i) && ComponentFails(rs[i])
  }

  // Some component that is looked at fails: all ids of an array up to its first other element, that
  // element, and every part of a map.
  ghost predicate ReactFails(rs: Request, react: Dependency)
    decreases react
  {
    match react
    case ByMap(andPart, orPart, notPart) =>
      || (andPart.Some? && ReactFails(rs, andPart.value))
      || (orPart.Some? && ReactFails(rs, orPart.value))
      || (notPart.Some? && ReactFails(rs, notPart.value))
    case Items(items) => ItemsFail(rs, items)
    case Id(id) => IdFails(rs, id)
    case Ignored => false
  }

  ghost predicate ItemsFail(rs: Request, items: seq<Dependency>)
    decreases items
  {
    items != [] && if items[0].Id? then IdFails(rs, items[0].id) || ItemsFail(rs, items[1..]) else ReactFails(rs, items[0])
  }

  lemma StepFails(rs: Request, id: string, found: seq<Es>, st: State)
    ensures Step(Env(rs, Contribution), id, found, st).Err? <==> IdFails(rs, id)
  {
    LookupFirst(rs, id);
    var c := Lookup(rs, id);
    if c.Some? {
      var i :| Names(rs, id, i);
      assert forall j :: Names(rs, id, j) ==> j == i;
      ContributionMeaning(Semantics((a, b, f) => true, (p, e) => [], (l, e) => true), rs[i], map[]);
    }
  }

  lemma {:induction false} EvaluatedFails(rs: Request, conjunction: string, react: Dependency, st: State)
    ensures Evaluated(Env(rs, Contribution), conjunction, react, st).Err? <==> ReactFails(rs, react)
    decreases react, 1
  {
    var env := Env(rs, Contribution);
    match react
    case ByMap(andPart, orPart, notPart) =>
      var a := if andPart.Some? then Evaluated(env, "and", andPart.value, st) else Ok(st);
      if andPart.Some? { EvaluatedFails(rs, "and", andPart.value, st); }
      if a.Ok? {
        var o := if orPart.Some? then Evaluated(env, "or", orPart.value, a.value) else a;
        if orPart.Some? { EvaluatedFails(rs, "or", orPart.value, a.value); }
        if o.Ok? && notPart.Some? { EvaluatedFails(rs, "not", notPart.value, o.value); }
      }
    case Items(items) => ItemsEvaluatedFail(rs, conjunction, items, [], st);
    case Id(id) => StepFails(rs, id, [], st);
    case Ignored =>
  }

  lemma {:induction false} ItemsEvaluatedFail(rs: Request, conjunction: string, items: seq<Dependency>, found: seq<Es>, st: State)
    ensures EvaluatedItems(Env(rs, Contribution), conjunction, items, found, st).Err? <==> ItemsFail(rs, items)
    decreases items, 0
  {
    if items != [] {
      if !items[0].Id? {
        EvaluatedFails(rs, "", items[0], st);
      } else {
        StepFails(rs, items[0].id, found, st);
        var step := Step(Env(rs, Contribution), items[0].id, found, st);
        if step.Ok? {
          ItemsEvaluatedFail(rs, conjunction, items[1..], step.value.0, step.value.1);
        }
      }
    }
  }

  // A query cannot be compiled exactly when a reacted component that is looked at fails, or its own
  // query by value is called for and fails.
  lemma QueryFails(rs: Request, q: Query)
    ensures QueryFor(rs, q).Err? <==>
            || (q.react.Some? && ReactFails(rs, q.react.value))
            || (var conditioned := q.react.Some? && AsksSomething(rs, q.react.value);
                && (forall c :: !Holding(q.defaultQuery, c))
                && (!conditioned || (q.defaultQuery.None? && (q.kind == Search || q.kind == Suggestion)))
                && ByValueFails(q))
  {
    var s := Semantics((a, b, f) => true, (p, e) => [], (l, e) => true);
    if q.react.Some? {
      EvaluatedFails(rs, "", q.react.value, State([], map[]));
      VacuousAsAsked(rs, q.react.value);
      if ReactState(rs, q).Ok? {
        ReactMeaning(s, Env(rs, Contribution), "", q.react.value, State([], map[]), map[]);
      }
    }
    ByTypeMeaning(s, q, map[]);
    var default := QueryOf(q.defaultQuery.GetOr(map[]));
    assert forall c :: Holding(q.defaultQuery, c) <==> default == Some(c);
  }
}
