// The fragment of the Elasticsearch query language that the compiler emits, with its meaning:
// which documents a query matches.

module EsQuery {
  import opened Wrappers

  // A JSON value as a filter or a document field holds it. A map is seen only through the keys
  // that a range reads.
  datatype Value =
    | Text(text: string)
    | Number(number: real)
    | Flag(flag: bool)
    | Bounds(start: Option<Value>, end: Option<Value>, boost: Option<real>)
    | List(items: seq<Value>)

  type Doc = map<string, seq<Value>>

  function FieldValues(d: Doc, field: string): seq<Value> {
    if field in d then d[field] else []
  }

  datatype Script = Script(source: string, vector: seq<real>, field: string)

  datatype Es =
    | MatchAll
    | Term(field: string, value: Value)
    | Terms(field: string, values: seq<Value>)
    | Range(field: string, gte: Option<Value>, lte: Option<Value>, format: Option<string>, boost: Option<real>)
    | Exists(field: string)
    | Bool(must: seq<Es>, should: seq<Es>, mustNot: seq<Es>, minimumShouldMatch: Option<int>)
    | Nested(path: string, query: Es)
    | ScriptScore(base: Option<Es>, script: Script)
    | Leaf(dsl: string)

  function Must(qs: seq<Es>): Es { Bool(qs, [], [], None) }

  function Should(qs: seq<Es>): Es { Bool([], qs, [], None) }

  function MustNot(q: Es): Es { Bool([], [], [q], None) }

  // What Elasticsearch itself decides: the order of values under a date format, the nested
  // documents of a path, and the meaning of a query given as raw DSL.
  datatype Semantics = Semantics(
    le: (Value, Value, Option<string>) -> bool,
    nested: (string, Doc) -> seq<Doc>,
    leaf: (string, Doc) -> bool)

  predicate Between(s: Semantics, gte: Option<Value>, lte: Option<Value>, format: Option<string>, v: Value) {
    && (gte.Some? ==> s.le(gte.value, v, format))
    && (lte.Some? ==> s.le(v, lte.value, format))
  }

  function MatchCount(s: Semantics, qs: seq<Es>, d: Doc): nat
    decreases qs
  {
    if qs == [] then 0
    else (if Matches(s, qs[0], d) then 1 else 0) + MatchCount(s, qs[1..], d)
  }

  // A bool query with optional clauses only needs one of them, unless told otherwise.
  function RequiredMatches(q: Es): int
    requires q.Bool?
  {
    if q.minimumShouldMatch.Some? then q.minimumShouldMatch.value
    else if q.should != [] && q.must == [] then 1
    else 0
  }

  predicate Matches(s: Semantics, q: Es, d: Doc)
    decreases q
  {
    match q
    case MatchAll => true
    case Term(field, value) => value in FieldValues(d, field)
    case Terms(field, values) => exists v :: v in values && v in FieldValues(d, field)
    case Range(field, gte, lte, format, _) =>
      exists v :: v in FieldValues(d, field) && Between(s, gte, lte, format, v)
    case Exists(field) => FieldValues(d, field) != []
    case Bool(must, should, mustNot, _) =>
      && (forall c :: c in must ==> Matches(s, c, d))
      && (forall c :: c in mustNot ==> !Matches(s, c, d))
      && MatchCount(s, should, d) >= RequiredMatches(q)
    case Nested(path, inner) => exists e :: e in s.nested(path, d) && Matches(s, inner, e)
    case ScriptScore(inner, _) => inner.Some? && Matches(s, inner.value, d)
    case Leaf(dsl) => s.leaf(dsl, d)
  }

  lemma {:induction false} MatchCountPositive(s: Semantics, qs: seq<Es>, d: Doc)
    ensures MatchCount(s, qs, d) >= 1 <==> exists c :: c in qs && Matches(s, c, d)
  {
    if qs != [] {
      MatchCountPositive(s, qs[1..], d);
      assert forall c :: c in qs <==> c == qs[0] || c in qs[1..];
      assert MatchCount(s, qs, d) == (if Matches(s, qs[0], d) then 1 else 0) + MatchCount(s, qs[1..], d);
      if Matches(s, qs[0], d) {
        assert exists c :: c in qs && Matches(s, c, d);
      }
    }
  }

  lemma ShouldMatches(s: Semantics, qs: seq<Es>, min: Option<int>, d: Doc)
    requires min == None || min == Some(1)
    requires min == None || qs != []
    ensures Matches(s, Bool([], qs, [], min), d) <==> (qs == [] || exists c :: c in qs && Matches(s, c, d))
  {
    MatchCountPositive(s, qs, d);
  }
}
