// Term and range queries: from a filter value to a query, and which documents that query accepts.

module TermRange {
  import opened Wrappers
  import opened EsQuery

  datatype Result<+T> = Ok(value: T) | Err(message: string)

  // The fields of a query that the two compilers read. Absent booleans count as false; an absent
  // queryFormat counts as "or" for term queries.
  datatype Filter = Filter(
    value: Option<Value>,
    fields: seq<string>,
    queryFormat: Option<string>,
    showMissing: bool,
    missingLabel: string,
    selectAllLabel: Option<string>,
    includeNullValues: bool,
    nestedField: Option<string>)

  const NO_DATA_FIELD := "field 'dataField' cannot be empty"
  const INVALID_RANGE := "invalid range value"
  const PIVOT_SEPARATOR := " > "

  predicate Any(q: Filter) { q.queryFormat.GetOr("or") == "or" }

  function Missing(field: string): Es { MustNot(Exists(field)) }

  function ApplyNested(q: Filter, query: Es): Es {
    if q.nestedField.Some? then Nested(q.nestedField.value, query) else query
  }

  // ---------- Term queries ----------

  function Splits(s: string, sep: string): (parts: seq<string>)
    requires sep != ""
    ensures parts != []
    decreases |s|
  {
    if |s| < |sep| then [s]
    else if sep <= s then [""] + Splits(s[|sep|..], sep)
    else
      var rest := Splits(s[1..], sep);
      [[s[0]] + rest[0]] + rest[1..]
  }

  // A text without the separator is one part.
  lemma {:induction false} SplitsWhole(s: string, sep: string)
    requires sep != "" && forall i :: 0 <= i <= |s| ==> !(sep <= s[i..])
    ensures Splits(s, sep) == [s]
    decreases |s|
  {
    if |s| >= |sep| {
      assert s[0..] == s;
      assert forall i :: 0 <= i <= |s| - 1 ==> s[1..][i..] == s[i + 1..];
      SplitsWhole(s[1..], sep);
      assert [s[0]] + s[1..] == s;
    }
  }

  // Otherwise the first part ends where the separator first occurs, and the rest is split likewise.
  lemma {:induction false} SplitsAtFirst(a: string, sep: string, b: string)
    requires sep != "" && forall i :: 0 <= i < |a| ==> !(sep <= (a + sep + b)[i..])
    ensures Splits(a + sep + b, sep) == [a] + Splits(b, sep)
    decreases |a|
  {
    var s := a + sep + b;
    if a == "" {
      assert s == sep + b && s[|sep|..] == b;
    } else {
      assert s[0..] == s && s[1..] == a[1..] + sep + b;
      assert forall i :: 0 <= i < |a| - 1 ==> s[1..][i..] == s[i + 1..];
      SplitsAtFirst(a[1..], sep, b);
      var rest := [a[1..]] + Splits(b, sep);
      assert rest[1..] == Splits(b, sep) && [s[0]] + a[1..] == a;
    }
  }

  // One row of a pivot facet: the i-th part of the text is looked up in the i-th field.
  method PivotRow(q: Filter, text: string) returns (row: seq<Es>)
    ensures row == PivotTerms(q.fields, Splits(text, PIVOT_SEPARATOR))
  {
    var parts := Splits(text, " > ");
    row := [];
    for i := 0 to |parts|
      invariant row == PivotTerms(q.fields, parts[..i])
    {
      assert parts[..i + 1][..i] == parts[..i];
      if i < |q.fields| {
        row := row + [Term(q.fields[i], Text(parts[i]))];
      }
    }
    assert parts[..|parts|] == parts;
  }

  function PivotTerms(fields: seq<string>, parts: seq<string>): seq<Es> {
    seq(if |parts| < |fields| then |parts| else |fields|,
        i requires 0 <= i < |parts| && i < |fields| => Term(fields[i], Text(parts[i])))
  }

  function PivotRowOf(q: Filter, text: string): Es {
    Must(PivotTerms(q.fields, Splits(text, PIVOT_SEPARATOR)))
  }

  function PivotRows(q: Filter, values: seq<Value>): seq<Es> {
    if values == [] then []
    else
      var init, last := values[..|values| - 1], values[|values| - 1];
      PivotRows(q, init)
      + (if last.Text? && q.fields != [] then [PivotRowOf(q, last.text)] else [])
  }

  // filterValue: the values other than the missing label.
  function WithoutLabel(q: Filter, values: seq<Value>): seq<Value> {
    if values == [] then []
    else
      var init, last := values[..|values| - 1], values[|values| - 1];
      WithoutLabel(q, init) + (if last != Text(q.missingLabel) then [last] else [])
  }

  function EachTerm(field: string, values: seq<Value>): seq<Es> {
    seq(|values|, i requires 0 <= i < |values| => Term(field, values[i]))
  }

  method GenerateListQuery(q: Filter, values: seq<Value>) returns (query: Es)
    requires q.fields != []
    ensures query == ListQuery(q, values)
  {
    var field := q.fields[0];
    if |q.fields| > 1 {
      var rows: seq<Es> := [];
      for i := 0 to |values|
        invariant rows == PivotRows(q, values[..i])
      {
        assert values[..i + 1][..i] == values[..i];
        if values[i].Text? {
          var row := PivotRow(q, values[i].text);
          if |row| > 0 {
            rows := rows + [Must(row)];
          }
        }
      }
      assert values[..|values|] == values;
      query := if Any(q) then Should(rows) else Must(rows);
    } else if Any(q) {
      var kept: seq<Value> := [];
      for i := 0 to |values|
        invariant kept == WithoutLabel(q, values[..i])
      {
        assert values[..i + 1][..i] == values[..i];
        if values[i] != Text(q.missingLabel) {
          kept := kept + [values[i]];
        }
      }
      assert values[..|values|] == values;
      var should := [Terms(field, kept)];
      if q.showMissing && Text(q.missingLabel) in values {
        should := should + [Missing(field)];
      }
      query := Should(should);
    } else {
      var terms: seq<Es> := [];
      for i := 0 to |values|
        invariant terms == EachTerm(field, values[..i])
      {
        assert EachTerm(field, values[..i + 1]) == EachTerm(field, values[..i]) + [Term(field, values[i])];
        terms := terms + [Term(field, values[i])];
      }
      assert values[..|values|] == values;
      query := Must(terms);
    }
  }

  // generateTermQuery; None is Go's nil query.
  method GenerateTermQuery(q: Filter) returns (r: Result<Option<Es>>)
    ensures r == TermQuery(q)
  {
    if q.value.None? || q.value.value == List([]) || q.value.value == Text("") {
      return Ok(None);
    }
    if q.fields == [] {
      return Err(NO_DATA_FIELD);
    }
    var value, field := q.value.value, q.fields[0];
    var values := if value.List? then value.items else [];
    if q.selectAllLabel.Some? && (Text(q.selectAllLabel.value) in values || value == Text(q.selectAllLabel.value)) {
      return Ok(Some(if q.showMissing then MatchAll else Exists(field)));
    }
    var query: Es;
    if values != [] {
      query := GenerateListQuery(q, values);
    } else if q.showMissing && value == Text(q.missingLabel) {
      query := Missing(field);
    } else {
      query := Term(field, value);
    }
    r := Ok(Some(ApplyNested(q, query)));
  }

  function TermQuery(q: Filter): Result<Option<Es>> {
    if q.value.None? || q.value.value == List([]) || q.value.value == Text("") then Ok(None)
    else if q.fields == [] then Err(NO_DATA_FIELD)
    else if SelectsAll(q) then Ok(Some(if q.showMissing then MatchAll else Exists(q.fields[0])))
    else
      Ok(Some(ApplyNested(q, match q.value.value
        case List(values) => ListQuery(q, values)
        case value =>
          if q.showMissing && value == Text(q.missingLabel) then Missing(q.fields[0])
          else Term(q.fields[0], value))))
  }

  predicate SelectsAll(q: Filter)
    requires q.value.Some?
  {
    && q.selectAllLabel.Some?
    && (q.value.value == Text(q.selectAllLabel.value)
        || (q.value.value.List? && Text(q.selectAllLabel.value) in q.value.value.items))
  }

  function ListQuery(q: Filter, values: seq<Value>): Es
    requires q.fields != []
  {
    var field := q.fields[0];
    if |q.fields| > 1 then
      if Any(q) then Should(PivotRows(q, values)) else Must(PivotRows(q, values))
    else if Any(q) then
      Should([Terms(field, WithoutLabel(q, values))]
             + if q.showMissing && Text(q.missingLabel) in values then [Missing(field)] else [])
    else Must(EachTerm(field, values))
  }

  // ---------- The documents a term filter selects, stated directly ----------

  ghost predicate PivotAccepts(fields: seq<string>, text: string, d: Doc) {
    var parts := Splits(text, " > ");
    forall i :: 0 <= i < |parts| && i < |fields| ==> Text(parts[i]) in FieldValues(d, fields[i])
  }

  ghost predicate ListAccepts(q: Filter, values: seq<Value>, d: Doc)
    requires q.fields != []
  {
    var has := FieldValues(d, q.fields[0]);
    var any := q.queryFormat == None || q.queryFormat == Some("or");
    if |q.fields| > 1 then
      if any then
        || (forall v :: v in values ==> !v.Text?)
        || (exists v :: v in values && v.Text? && PivotAccepts(q.fields, v.text, d))
      else forall v :: v in values && v.Text? ==> PivotAccepts(q.fields, v.text, d)
    else if any then
      || (exists v :: v in values && v in has && v != Text(q.missingLabel))
      || (q.showMissing && Text(q.missingLabel) in values && has == [])
    else forall v :: v in values ==> v in has
  }

  ghost predicate ValueAccepts(q: Filter, d: Doc)
    requires q.value.Some? && q.fields != []
  {
    match q.value.value
    case List(values) => ListAccepts(q, values, d)
    case v =>
      if q.showMissing && v == Text(q.missingLabel) then FieldValues(d, q.fields[0]) == []
      else v in FieldValues(d, q.fields[0])
  }

  // The value is the label, or a list with it.
  predicate Asks(value: Value, item: Value) {
    value == item || (value.List? && item in value.items)
  }

  // With a nested field, some nested document must be accepted instead of the document itself.
  ghost predicate TermAccepts(s: Semantics, q: Filter, d: Doc)
    requires q.value.Some? && q.fields != []
  {
    var all := q.selectAllLabel.Some? && Asks(q.value.value, Text(q.selectAllLabel.value));
    if all then q.showMissing || FieldValues(d, q.fields[0]) != []
    else if q.nestedField.Some? then exists e :: e in s.nested(q.nestedField.value, d) && ValueAccepts(q, e)
    else ValueAccepts(q, d)
  }

  lemma MissingMatches(s: Semantics, field: string, d: Doc)
    ensures Matches(s, Missing(field), d) <==> FieldValues(d, field) == []
  {
    assert Matches(s, Exists(field), d) <==> FieldValues(d, field) != [];
    assert Missing(field).mustNot[0] == Exists(field);
  }

  lemma {:induction false} PivotRowsMember(q: Filter, values: seq<Value>, c: Es)
    requires q.fields != []
    ensures c in PivotRows(q, values) <==>
            exists v :: v in values && v.Text? && c == PivotRowOf(q, v.text)
  {
    if values != [] {
      PivotRowsMember(q, values[..|values| - 1], c);
      assert forall v :: v in values <==> v in values[..|values| - 1] || v == values[|values| - 1];
    }
  }

  lemma {:induction false} WithoutLabelMember(q: Filter, values: seq<Value>, v: Value)
    ensures v in WithoutLabel(q, values) <==> v in values && v != Text(q.missingLabel)
  {
    if values != [] {
      WithoutLabelMember(q, values[..|values| - 1], v);
      assert v in values <==> v in values[..|values| - 1] || v == values[|values| - 1];
    }
  }

  lemma PivotRowMatches(s: Semantics, fields: seq<string>, text: string, d: Doc)
    ensures Matches(s, Must(PivotTerms(fields, Splits(text, PIVOT_SEPARATOR))), d) <==> PivotAccepts(fields, text, d)
  {
    var parts := Splits(text, " > ");
    var terms := PivotTerms(fields, parts);
    forall i | 0 <= i < |terms|
      ensures Matches(s, terms[i], d) <==> Text(parts[i]) in FieldValues(d, fields[i])
    {
    }
    if Matches(s, Must(terms), d) {
      forall i | 0 <= i < |parts| && i < |fields|
        ensures Text(parts[i]) in FieldValues(d, fields[i])
      {
        assert terms[i] in terms;
      }
    }
  }

  lemma PivotAny(s: Semantics, q: Filter, values: seq<Value>, d: Doc)
    requires q.fields != []
    ensures (exists c :: c in PivotRows(q, values) && Matches(s, c, d))
        <==> (exists v :: v in values && v.Text? && PivotAccepts(q.fields, v.text, d))
    ensures PivotRows(q, values) == [] <==> forall v :: v in values ==> !v.Text?
  {
    var rows := PivotRows(q, values);
    if rows != [] {
      PivotRowsMember(q, values, rows[0]);
      assert rows[0] in rows;
    }
    if c :| c in rows && Matches(s, c, d) {
      PivotRowsMember(q, values, c);
      var v :| v in values && v.Text? && c == PivotRowOf(q, v.text);
      PivotRowMatches(s, q.fields, v.text, d);
    }
    forall v | v in values && v.Text?
      ensures PivotRowOf(q, v.text) in rows
      ensures PivotAccepts(q.fields, v.text, d) ==> Matches(s, PivotRowOf(q, v.text), d)
    {
      PivotRowsMember(q, values, PivotRowOf(q, v.text));
      PivotRowMatches(s, q.fields, v.text, d);
    }
  }

  lemma PivotAll(s: Semantics, q: Filter, values: seq<Value>, d: Doc)
    requires q.fields != []
    ensures (forall c :: c in PivotRows(q, values) ==> Matches(s, c, d))
        <==> (forall v :: v in values && v.Text? ==> PivotAccepts(q.fields, v.text, d))
  {
    var rows := PivotRows(q, values);
    if c :| c in rows && !Matches(s, c, d) {
      PivotRowsMember(q, values, c);
      var v :| v in values && v.Text? && c == PivotRowOf(q, v.text);
      PivotRowMatches(s, q.fields, v.text, d);
    }
    if v :| v in values && v.Text? && !PivotAccepts(q.fields, v.text, d) {
      PivotRowsMember(q, values, PivotRowOf(q, v.text));
      PivotRowMatches(s, q.fields, v.text, d);
    }
  }

  lemma PivotMatches(s: Semantics, q: Filter, values: seq<Value>, d: Doc)
    requires |q.fields| > 1
    ensures Matches(s, ListQuery(q, values), d) <==> ListAccepts(q, values, d)
  {
    if Any(q) {
      PivotAny(s, q, values, d);
      ShouldMatches(s, PivotRows(q, values), None, d);
    } else {
      PivotAll(s, q, values, d);
    }
  }

  lemma ListMatches(s: Semantics, q: Filter, values: seq<Value>, d: Doc)
    requires |q.fields| == 1
    ensures Matches(s, ListQuery(q, values), d) <==> ListAccepts(q, values, d)
  {
    var field := q.fields[0];
    if Any(q) {
      forall v
        ensures v in WithoutLabel(q, values) <==> v in values && v != Text(q.missingLabel)
      {
        WithoutLabelMember(q, values, v);
      }
      var terms := Terms(field, WithoutLabel(q, values));
      assert Matches(s, terms, d) <==> exists v :: v in values && v in FieldValues(d, field) && v != Text(q.missingLabel);
      MissingMatches(s, field, d);
      var should := [terms] + if q.showMissing && Text(q.missingLabel) in values then [Missing(field)] else [];
      ShouldMatches(s, should, None, d);
      assert forall c :: c in should <==> c == terms || (q.showMissing && Text(q.missingLabel) in values && c == Missing(field));
    } else {
      var terms := EachTerm(field, values);
      forall v | v in values
        ensures Term(field, v) in terms
      {
        var i :| 0 <= i < |values| && values[i] == v;
        assert terms[i] == Term(field, v);
      }
      assert forall c :: c in terms ==> c.Term? && c.field == field && c.value in values;
      assert forall v :: Matches(s, Term(field, v), d) <==> v in FieldValues(d, field);
    }
  }

  // The compiled term query matches a document exactly when the filter accepts it; there is no
  // query exactly when there is no value, and an error exactly when there is a value but no field.
  lemma TermQueryMeaning(s: Semantics, q: Filter, d: Doc)
    ensures TermQuery(q) == Ok(None) <==> q.value.None? || q.value.value == List([]) || q.value.value == Text("")
    ensures TermQuery(q).Err? <==> TermQuery(q) != Ok(None) && q.fields == []
    ensures TermQuery(q).Ok? && TermQuery(q).value.Some? ==>
              (Matches(s, TermQuery(q).value.value, d) <==> TermAccepts(s, q, d))
  {
    if q.value.Some? && q.fields != [] {
      forall e: Doc
        ensures q.value.value.List? ==>
                  (Matches(s, ListQuery(q, q.value.value.items), e) <==> ListAccepts(q, q.value.value.items, e))
        ensures Matches(s, Missing(q.fields[0]), e) <==> FieldValues(e, q.fields[0]) == []
        ensures Matches(s, Term(q.fields[0], q.value.value), e) <==> q.value.value in FieldValues(e, q.fields[0])
      {
        MissingMatches(s, q.fields[0], e);
        if q.value.value.List? {
          if |q.fields| > 1 {
            PivotMatches(s, q, q.value.value.items, e);
          } else {
            ListMatches(s, q, q.value.value.items, e);
          }
        }
      }
    }
  }

  // ---------- Range queries ----------

  // getRangeQuery on one range value.
  function RangeOf(q: Filter, value: Value): Result<Option<Es>> {
    if !value.Bounds? then Err(INVALID_RANGE)
    else if value.start.None? && value.end.None? then Ok(None)
    else if q.fields == [] then Err(NO_DATA_FIELD)
    else
      var format := if q.queryFormat.Some? && q.queryFormat.value !in ["and", "or"] then q.queryFormat else None;
      var range := Range(q.fields[0], value.start, value.end, format, value.boost);
      Ok(Some(if q.includeNullValues then Should([range, Missing(q.fields[0])]) else range))
  }

  // generateRangeQuery: several ranges are a union, and one range without bounds voids them all.
  method GenerateRangeQuery(q: Filter) returns (r: Result<Option<Es>>)
    ensures r == RangeQuery(q)
  {
    if q.value.None? {
      return Ok(None);
    }
    if !q.value.value.List? {
      var one := RangeOf(q, q.value.value);
      if one.Err? || one.value.None? {
        return one;
      }
      return Ok(Some(ApplyNested(q, one.value.value)));
    }
    var values, ranges := q.value.value.items, [];
    for i := 0 to |values|
      invariant RangesOf(q, values[..i]) == Ok(Some(ranges))
    {
      var one := RangeOf(q, values[i]);
      assert values[..i + 1][..i] == values[..i];
      if one.Err? || one.value.None? {
        RangesOfStops(q, values, i + 1);
        return if one.Err? then one else Ok(None);
      }
      ranges := ranges + [one.value.value];
    }
    assert values[..|values|] == values;
    if ranges == [] {
      return Ok(None);
    }
    r := Ok(Some(ApplyNested(q, Bool([], ranges, [], Some(1)))));
  }

  // The queries of several ranges; the first error or the first range without bounds ends it.
  function RangesOf(q: Filter, values: seq<Value>): Result<Option<seq<Es>>> {
    if values == [] then Ok(Some([]))
    else
      var init := RangesOf(q, values[..|values| - 1]);
      if init.Err? || init.value.None? then init
      else
        var last := RangeOf(q, values[|values| - 1]);
        if last.Err? then Err(last.message)
        else if last.value.None? then Ok(None)
        else Ok(Some(init.value.value + [last.value.value]))
  }

  function RangeQuery(q: Filter): Result<Option<Es>> {
    Wrapped(q, BareRangeQuery(q))
  }

  function BareRangeQuery(q: Filter): Result<Option<Es>> {
    if q.value.None? then Ok(None)
    else if !q.value.value.List? then RangeOf(q, q.value.value)
    else
      var ranges := RangesOf(q, q.value.value.items);
      if ranges.Err? then Err(ranges.message)
      else if ranges.value.None? || ranges.value.value == [] then Ok(None)
      else Ok(Some(Bool([], ranges.value.value, [], Some(1))))
  }

  function Wrapped(q: Filter, r: Result<Option<Es>>): Result<Option<Es>> {
    if r.Ok? && r.value.Some? then Ok(Some(ApplyNested(q, r.value.value))) else r
  }

  lemma {:induction false} RangesOfStops(q: Filter, values: seq<Value>, n: nat)
    requires n <= |values| && (RangesOf(q, values[..n]).Err? || RangesOf(q, values[..n]) == Ok(None))
    ensures RangesOf(q, values) == RangesOf(q, values[..n])
  {
    if n < |values| {
      var init := values[..|values| - 1];
      assert init[..n] == values[..n];
      RangesOfStops(q, init, n);
    } else {
      assert values[..n] == values;
    }
  }

  ghost predicate BoundsAccept(s: Semantics, q: Filter, b: Value, d: Doc)
    requires b.Bounds? && q.fields != []
  {
    var format := if q.queryFormat.Some? && q.queryFormat.value !in ["and", "or"] then q.queryFormat else None;
    || (exists v :: v in FieldValues(d, q.fields[0])
                    && (b.start.Some? ==> s.le(b.start.value, v, format)) && (b.end.Some? ==> s.le(v, b.end.value, format)))
    || (q.includeNullValues && FieldValues(d, q.fields[0]) == [])
  }

  predicate Bounded(v: Value) { v.Bounds? && (v.start.Some? || v.end.Some?) }

  ghost predicate RangeValueAccepts(s: Semantics, q: Filter, d: Doc)
    requires q.value.Some? && q.fields != []
  {
    match q.value.value
    case List(values) => exists b :: b in values && Bounded(b) && BoundsAccept(s, q, b, d)
    case v => Bounded(v) && BoundsAccept(s, q, v, d)
  }

  lemma RangeOfMeaning(s: Semantics, q: Filter, value: Value, d: Doc)
    requires RangeOf(q, value).Ok? && RangeOf(q, value).value.Some?
    ensures q.fields != [] && Bounded(value)
    ensures Matches(s, RangeOf(q, value).value.value, d) <==> BoundsAccept(s, q, value, d)
  {
    var query := RangeOf(q, value).value.value;
    var range := if q.includeNullValues then query.should[0] else query;
    assert Matches(s, range, d) <==>
           exists v :: v in FieldValues(d, q.fields[0]) && Between(s, value.start, value.end, range.format, v);
    if q.includeNullValues {
      MissingMatches(s, q.fields[0], d);
      ShouldMatches(s, query.should, None, d);
      assert forall c :: c in query.should <==> c == range || c == Missing(q.fields[0]);
    }
  }

  // The clause of a range keeps its bounds and boost; a query format other than and / or is its format.
  lemma RangeClause(q: Filter, value: Value)
    requires RangeOf(q, value).Ok? && RangeOf(q, value).value.Some?
    ensures var query := RangeOf(q, value).value.value;
            var format := if q.queryFormat == Some("and") || q.queryFormat == Some("or") then None else q.queryFormat;
            var clause := Range(q.fields[0], value.start, value.end, format, value.boost);
            if q.includeNullValues then query.Bool? && query.should != [] && query.should[0] == clause else query == clause
  {
  }

  lemma {:induction false} RangesOfMember(q: Filter, values: seq<Value>, c: Es)
    requires RangesOf(q, values).Ok? && RangesOf(q, values).value.Some?
    ensures |RangesOf(q, values).value.value| == |values|
    ensures forall b :: b in values ==> RangeOf(q, b).Ok? && RangeOf(q, b).value.Some?
    ensures c in RangesOf(q, values).value.value <==> exists b :: b in values && RangeOf(q, b) == Ok(Some(c))
  {
    if values != [] {
      RangesOfMember(q, values[..|values| - 1], c);
      assert forall v :: v in values <==> v in values[..|values| - 1] || v == values[|values| - 1];
    }
  }

  ghost predicate RangeAccepts(s: Semantics, q: Filter, d: Doc)
    requires q.value.Some? && q.fields != []
  {
    if q.nestedField.Some? then exists e :: e in s.nested(q.nestedField.value, d) && RangeValueAccepts(s, q, e)
    else RangeValueAccepts(s, q, d)
  }

  lemma UnionMeaning(s: Semantics, q: Filter, values: seq<Value>, d: Doc)
    requires values != [] && RangesOf(q, values).Ok? && RangesOf(q, values).value.Some?
    ensures q.fields != []
    ensures Matches(s, Bool([], RangesOf(q, values).value.value, [], Some(1)), d)
        <==> exists b :: b in values && Bounded(b) && BoundsAccept(s, q, b, d)
  {
    var ranges := RangesOf(q, values).value.value;
    RangesOfMember(q, values, MatchAll);
    assert values[0] in values;
    RangeOfMeaning(s, q, values[0], d);
    ShouldMatches(s, ranges, Some(1), d);
    if c :| c in ranges && Matches(s, c, d) {
      RangesOfMember(q, values, c);
      var b :| b in values && RangeOf(q, b) == Ok(Some(c));
      RangeOfMeaning(s, q, b, d);
    }
    if b :| b in values && Bounded(b) && BoundsAccept(s, q, b, d) {
      RangesOfMember(q, values, RangeOf(q, b).value.value);
      RangeOfMeaning(s, q, b, d);
    }
  }

  lemma {:induction false} RangesOfExists(q: Filter, values: seq<Value>)
    ensures (RangesOf(q, values).Ok? && RangesOf(q, values).value.Some?) <==>
            (values == [] || q.fields != []) && forall v :: v in values ==> Bounded(v)
  {
    if values != [] {
      RangesOfExists(q, values[..|values| - 1]);
      assert values[|values| - 1] in values;
      assert forall v :: v in values <==> v in values[..|values| - 1] || v == values[|values| - 1];
    }
  }

  // There is a range query exactly when there is at least one range and every range has a bound;
  // it matches a document exactly when one of the ranges accepts it.
  lemma RangeQueryMeaning(s: Semantics, q: Filter, d: Doc)
    ensures (RangeQuery(q).Ok? && RangeQuery(q).value.Some?) <==>
            && q.value.Some? && q.fields != []
            && (if q.value.value.List? then q.value.value != List([]) && forall v :: v in q.value.value.items ==> Bounded(v)
                else Bounded(q.value.value))
    ensures RangeQuery(q).Ok? && RangeQuery(q).value.Some? ==>
            (Matches(s, RangeQuery(q).value.value, d) <==> RangeAccepts(s, q, d))
  {
    if q.value.Some? && q.value.value.List? {
      RangesOfExists(q, q.value.value.items);
      if q.value.value.items != [] {
        assert q.value.value.items[0] in q.value.value.items;
      }
    }
    if RangeQuery(q).Ok? && RangeQuery(q).value.Some? {
      forall e: Doc
        ensures Matches(s, BareRangeQuery(q).value.value, e) <==> RangeValueAccepts(s, q, e)
      {
        if q.value.value.List? {
          UnionMeaning(s, q, q.value.value.items, e);
        } else {
          RangeOfMeaning(s, q, q.value.value, e);
        }
      }
    }
  }

  // ---------- When there is no query ----------

  // The value asks for nothing.
  predicate NoTerm(q: Filter) {
    q.value == None || q.value == Some(List([])) || q.value == Some(Text(""))
  }

  // The compiler objects to the value: it is no range, or a range with bounds for which there is no field.
  predicate BadRange(q: Filter, v: Value) {
    !v.Bounds? || ((v.start.Some? || v.end.Some?) && q.fields == [])
  }

  predicate NoBounds(v: Value) { v.Bounds? && v.start.None? && v.end.None? }

  // Some range is bad and every one before it is good and has bounds.
  ghost predicate RangeFails(q: Filter) {
    q.value.Some?
    && if q.value.value.List? then
         exists i :: BadAt(q, q.value.value.items, i)
       else BadRange(q, q.value.value)
  }

  ghost predicate BadAt(q: Filter, values: seq<Value>, i: int) {
    0 <= i < |values| && BadRange(q, values[i]) && forall j :: 0 <= j < i ==> !BadRange(q, values[j]) && !NoBounds(values[j])
  }

  lemma {:induction false} RangesOfFails(q: Filter, values: seq<Value>)
    ensures RangesOf(q, values).Err? <==> exists i :: BadAt(q, values, i)
    ensures RangesOf(q, values).Ok? && RangesOf(q, values).value.Some? <==>
            forall j :: 0 <= j < |values| ==> !BadRange(q, values[j]) && !NoBounds(values[j])
  {
    if values != [] {
      var n := |values| - 1;
      var init := values[..n];
      RangesOfFails(q, init);
      assert forall i :: 0 <= i < n ==> init[i] == values[i];
      assert forall i :: i < n ==> (BadAt(q, values, i) <==> BadAt(q, init, i));
      assert BadAt(q, values, n) <==> BadRange(q, values[n]) && forall j :: 0 <= j < n ==> !BadRange(q, init[j]) && !NoBounds(init[j]);
    }
  }

  lemma RangeQueryFails(q: Filter)
    ensures RangeQuery(q).Err? <==> RangeFails(q)
  {
    if q.value.Some? && q.value.value.List? {
      RangesOfFails(q, q.value.value.items);
    }
  }
}
