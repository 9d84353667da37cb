// Searching a hit for the strings at a data field, and collecting them as suggestions whose
// labels are meant to be unique.

module ResponseTree {
  import opened Wrappers
  import opened Strings
  import opened Matching

  datatype Tree = Nil | Str(text: string) | Other | Obj(fields: map<string, Tree>) | Arr(items: seq<Tree>)

  datatype Hit = Hit(id: string, score: real, source: map<string, Tree>, highlight: map<string, Tree>)

  // The properties of a suggestion that ranking looks at; rsScore is in tenths.
  datatype Suggestion = Suggestion(value: string, labelText: string, rsScore: int, score: real, id: string, matchedTokens: seq<string>)

  // The query, lower-casing, the label under which suggestions count as duplicates, stripping HTML
  // and normalizing, and the match of a field value against the query.
  datatype Config = Config(
    value: string,
    lower: string -> string,
    parseLabel: string -> string,
    clean: string -> string,
    findMatch: (string, string) -> RankField)

  predicate Contains(s: string, sub: string) {
    exists i :: 0 <= i <= |s| - |sub| && sub <= s[i..]
  }

  function Get(m: map<string, Tree>, key: string): Tree {
    if key in m then m[key] else Nil
  }

  // addFieldHighlight: a highlighted field shows its first fragment.
  function ParsedSource(hit: Hit): map<string, Tree> {
    hit.source + map key | key in hit.highlight && hit.highlight[key].Arr? && hit.highlight[key].items != []
                   :: hit.highlight[key].items[0]
  }

  // A field with a highlight that is an array shows its first element, every other field what the
  // source has.
  lemma ParsedSourceAt(hit: Hit, key: string)
    ensures Get(ParsedSource(hit), key) ==
              if key in hit.highlight && hit.highlight[key].Arr? && |hit.highlight[key].items| > 0 then hit.highlight[key].items[0]
              else if key in hit.source then hit.source[key]
              else Nil
  {
  }

  lemma ContainsMeaning(s: string, sub: string)
    ensures Contains(s, sub) <==> exists a, b :: s == a + sub + b
  {
    if i :| 0 <= i <= |s| - |sub| && sub <= s[i..] {
      assert s == s[..i] + sub + s[i + |sub|..];
    }
    if a, b :| s == a + sub + b {
      assert s[|a|..] == sub + b && sub <= s[|a|..];
    }
  }

  // The element is a string that contains the query, in any case.
  predicate Fits(c: Config, e: Tree) {
    e.Str? && Contains(c.lower(e.text), c.lower(c.value))
  }

  lemma FitsMeaning(c: Config, e: Tree)
    ensures Fits(c, e) <==> exists text, a, b :: e == Str(text) && c.lower(text) == a + c.lower(c.value) + b
  {
    if e.Str? {
      ContainsMeaning(c.lower(e.text), c.lower(c.value));
    }
  }

  // ---------- The strings found, in order ----------

  // What the loop over an array finds: strings below its objects, and the first matching element.
  datatype Scan = Scan(found: seq<string>, matched: Option<string>)
  {
    // What the search goes on with.
    function After(sub: Tree): Tree {
      if matched.Some? then Str(matched.value) else sub
    }
  }

  function WholeText(whole: Tree): seq<string> {
    if whole.Str? && whole.text != "" then [whole.text] else []
  }

  // None is Go's panic: the slice past the last component of the field.
  function Candidates(c: Config, m: map<string, Tree>, path: seq<string>): Option<seq<string>>
    requires path != []
    decreases |path|, 2, 0
  {
    var below := FoundBelow(c, Get(m, path[0]), path);
    if below.None? then None else Some(WholeText(Get(m, Join(path, '.'))) + below.value)
  }

  // What is found under the first component.
  function FoundBelow(c: Config, sub: Tree, path: seq<string>): Option<seq<string>>
    requires path != []
    decreases |path|, 1, 1
  {
    var scan := ScannedIn(c, sub, path);
    if scan.None? then None
    else
      var rest := Rest(c, scan.value.After(sub), path);
      if rest.None? then None else Some(scan.value.found + rest.value)
  }

  function ScannedIn(c: Config, sub: Tree, path: seq<string>): Option<Scan>
    requires path != []
    decreases |path|, 1, 0
  {
    if sub.Arr? then Scanned(c, sub.items, path) else Some(Scan([], None))
  }

  function Rest(c: Config, sub: Tree, path: seq<string>): Option<seq<string>>
    requires path != []
    decreases |path|, 1, 0
  {
    if |path| == 1 then Some(if sub.Str? then [sub.text] else [])
    else if sub.Obj? then Candidates(c, sub.fields, path[1..])
    else Some([])
  }

  function Prepended(found: seq<string>, scan: Option<Scan>): Option<Scan> {
    if scan.None? then None else Some(Scan(found + scan.value.found, scan.value.matched))
  }

  lemma PrependedNothing(scan: Option<Scan>)
    ensures Prepended([], scan) == scan
  {
    if scan.Some? {
      assert [] + scan.value.found == scan.value.found;
    }
  }

  lemma PrependedTwice(a: seq<string>, b: seq<string>, scan: Option<Scan>)
    ensures Prepended(a, Prepended(b, scan)) == Prepended(a + b, scan)
  {
    if scan.Some? {
      assert a + (b + scan.value.found) == a + b + scan.value.found;
    }
  }

  // What is below an element of an array that does not match.
  function Below(c: Config, item: Tree, path: seq<string>): Option<seq<string>>
    requires path != []
    decreases |path|, 0, 0
  {
    if !item.Obj? then Some([]) else if |path| == 1 then None else Candidates(c, item.fields, path[1..])
  }

  function Scanned(c: Config, items: seq<Tree>, path: seq<string>): Option<Scan>
    requires path != []
    decreases |path|, 0, |items|
  {
    if items == [] then Some(Scan([], None))
    else if Fits(c, items[0]) then Some(Scan([], Some(items[0].text)))
    else
      var here := Below(c, items[0], path);
      if here.None? then None else Prepended(here.value, Scanned(c, items[1..], path))
  }

  // ---------- Where the strings come from ----------

  // The text is what the path leads to, from a map or from a value, skipping array positions; a
  // dotted key may stand for the whole rest of the path.
  ghost predicate Leads(m: map<string, Tree>, path: seq<string>, text: string)
    requires path != []
    decreases |path|
  {
    || Get(m, Join(path, '.')) == Str(text)
    || LeadsFrom(Get(m, path[0]), path, text)
  }

  ghost predicate LeadsFrom(t: Tree, path: seq<string>, text: string)
    requires path != []
    decreases |path|, 0
  {
    if |path| == 1 then t == Str(text) || (t.Arr? && Str(text) in t.items)
    else
      || (t.Obj? && Leads(t.fields, path[1..], text))
      || (t.Arr? && exists i :: 0 <= i < |t.items| && t.items[i].Obj? && Leads(t.items[i].fields, path[1..], text))
  }

  lemma BelowCases(c: Config, sub: Tree, path: seq<string>)
    requires path != []
    ensures FoundBelow(c, sub, path) ==
            if sub.Arr? then
              var scan := Scanned(c, sub.items, path);
              if scan.None? then None
              else Some(scan.value.found + (if scan.value.matched.Some? && |path| == 1 then [scan.value.matched.value] else []))
            else if |path| == 1 then Some(if sub.Str? then [sub.text] else [])
            else if sub.Obj? then Candidates(c, sub.fields, path[1..])
            else Some([])
  {
    var scan := ScannedIn(c, sub, path);
    if scan.Some? {
      var rest := Rest(c, scan.value.After(sub), path);
      if rest.Some? && !sub.Arr? {
        assert scan.value.found + rest.value == rest.value;
      }
    }
  }

  // Every string found is one that the path leads to.
  lemma {:induction false} CandidatesLead(c: Config, m: map<string, Tree>, path: seq<string>, text: string)
    requires path != []
    requires Candidates(c, m, path).Some? && text in Candidates(c, m, path).value
    ensures Leads(m, path, text)
    decreases |path|, 1, 0
  {
    var sub := Get(m, path[0]);
    BelowCases(c, sub, path);
    if Get(m, Join(path, '.')) != Str(text) {
      if sub.Arr? {
        ScannedLead(c, sub.items, path, text);
      } else if sub.Obj? && |path| > 1 {
        CandidatesLead(c, sub.fields, path[1..], text);
      }
    }
  }

  lemma {:induction false} ScannedLead(c: Config, items: seq<Tree>, path: seq<string>, text: string)
    requires path != [] && Scanned(c, items, path).Some?
    requires text in Scanned(c, items, path).value.found
          || (|path| == 1 && Scanned(c, items, path).value.matched == Some(text))
    ensures LeadsFrom(Arr(items), path, text)
    decreases |path|, 0, |items|
  {
    if Fits(c, items[0]) {
      assert items[0] == Str(text);
    } else {
      var here := if items[0].Obj? then Candidates(c, items[0].fields, path[1..]).value else [];
      if text in here {
        CandidatesLead(c, items[0].fields, path[1..], text);
      } else {
        ScannedLead(c, items[1..], path, text);
        assert forall i :: 0 <= i < |items| - 1 ==> items[1..][i] == items[i + 1];
      }
    }
  }

  // No array lies on the way of the path.
  ghost predicate ArrayFree(m: map<string, Tree>, path: seq<string>)
    requires path != []
    decreases |path|
  {
    var sub := Get(m, path[0]);
    !sub.Arr? && (|path| > 1 && sub.Obj? ==> ArrayFree(sub.fields, path[1..]))
  }

  // Without arrays, every non-empty string that the path leads to is found.
  lemma {:induction false} ArrayFreeComplete(c: Config, m: map<string, Tree>, path: seq<string>, text: string)
    requires path != [] && ArrayFree(m, path) && Leads(m, path, text) && text != ""
    ensures Candidates(c, m, path).Some? && text in Candidates(c, m, path).value
    decreases |path|
  {
    ArrayFreeSafe(c, m, path);
    var sub := Get(m, path[0]);
    BelowCases(c, sub, path);
    if Get(m, Join(path, '.')) != Str(text) && |path| > 1 {
      ArrayFreeComplete(c, sub.fields, path[1..], text);
    }
  }

  lemma {:induction false} ArrayFreeSafe(c: Config, m: map<string, Tree>, path: seq<string>)
    requires path != [] && ArrayFree(m, path)
    ensures Candidates(c, m, path).Some?
    decreases |path|
  {
    var sub := Get(m, path[0]);
    BelowCases(c, sub, path);
    if |path| > 1 && sub.Obj? {
      ArrayFreeSafe(c, sub.fields, path[1..]);
    }
  }

  // For an array of strings at the last component the first matching one is found.
  lemma {:induction false} FirstMatchFound(c: Config, items: seq<Tree>, path: seq<string>, k: nat)
    requires |path| == 1 && k < |items| && Fits(c, items[k])
    requires forall i :: 0 <= i < k ==> !Fits(c, items[i]) && !items[i].Obj?
    ensures Scanned(c, items, path) == Some(Scan([], Some(items[k].text)))
    decreases k
  {
    if k > 0 {
      FirstMatchFound(c, items[1..], path, k - 1);
      var none: seq<string> := [];
      assert none + none == none;
    }
  }

  // The order of the search: the value of the dotted key, then what is in the objects of an array,
  // one after the other.
  lemma SearchOrder(c: Config, m: map<string, Tree>, path: seq<string>, text: string, one: map<string, Tree>, two: map<string, Tree>)
    requires |path| > 1 && Get(m, Join(path, '.')) == Str(text) && text != "" && Get(m, path[0]) == Arr([Obj(one), Obj(two)])
    requires Candidates(c, one, path[1..]).Some? && Candidates(c, two, path[1..]).Some?
    ensures Candidates(c, m, path) == Some([text] + Candidates(c, one, path[1..]).value + Candidates(c, two, path[1..]).value)
  {
    var a, b := Candidates(c, one, path[1..]).value, Candidates(c, two, path[1..]).value;
    var items := [Obj(one), Obj(two)];
    assert items[1..] == [Obj(two)] && items[1..][1..] == [];
    BelowCases(c, Arr(items), path);
    assert b + [] == b && a + b + [] == a + b;
    assert Scanned(c, items[1..], path) == Some(Scan(b, None));
    assert Scanned(c, items, path) == Some(Scan(a + b, None));
    assert [text] + (a + b) == [text] + a + b;
  }

  // ---------- Exactly the strings found ----------

  // The loop over an array gets as far as element i.
  predicate Reached(c: Config, items: seq<Tree>, i: int) {
    0 <= i < |items| && forall j :: 0 <= j < i ==> !Fits(c, items[j])
  }

  // The text is at the path in the map: under the whole rest of the path, or below its first
  // component; of an array, in an object that comes before the first matching string, or that
  // string itself at the last component.
  ghost predicate Found(c: Config, m: map<string, Tree>, path: seq<string>, text: string)
    requires path != []
    decreases |path|, 2
  {
    (text != "" && Get(m, Join(path, '.')) == Str(text)) || FoundIn(c, Get(m, path[0]), path, text)
  }

  ghost predicate FoundIn(c: Config, sub: Tree, path: seq<string>, text: string)
    requires path != []
    decreases |path|, 1
  {
    if sub.Arr? then FoundAmong(c, sub.items, path, text)
    else if |path| == 1 then sub == Str(text)
    else sub.Obj? && Found(c, sub.fields, path[1..], text)
  }

  ghost predicate FoundAmong(c: Config, items: seq<Tree>, path: seq<string>, text: string)
    requires path != []
    decreases |path|, 0, 1
  {
    exists i :: Reached(c, items, i) && FoundAt(c, items[i], path, text)
  }

  ghost predicate FoundAt(c: Config, item: Tree, path: seq<string>, text: string)
    requires path != []
    decreases |path|, 0, 0
  {
    if Fits(c, item) then |path| == 1 && item.text == text
    else item.Obj? && |path| > 1 && Found(c, item.fields, path[1..], text)
  }

  // Without a panic, exactly these strings are found.
  lemma {:induction false} CandidatesExactly(c: Config, m: map<string, Tree>, path: seq<string>, text: string)
    requires path != [] && Candidates(c, m, path).Some?
    ensures text in Candidates(c, m, path).value <==> Found(c, m, path, text)
    decreases |path|, 1, 0
  {
    var sub := Get(m, path[0]);
    BelowCases(c, sub, path);
    if sub.Arr? {
      ScannedExactly(c, sub.items, path, text);
    } else if sub.Obj? && |path| > 1 {
      CandidatesExactly(c, sub.fields, path[1..], text);
    }
  }

  lemma {:induction false} ScannedExactly(c: Config, items: seq<Tree>, path: seq<string>, text: string)
    requires path != [] && Scanned(c, items, path).Some?
    ensures var scan := Scanned(c, items, path).value;
            text in scan.found || (|path| == 1 && scan.matched == Some(text)) <==> FoundAmong(c, items, path, text)
    decreases |path|, 0, |items|
  {
    if items != [] {
      var rest := items[1..];
      if Fits(c, items[0]) {
        assert forall i :: Reached(c, items, i) <==> i == 0;
      } else {
        if items[0].Obj? {
          CandidatesExactly(c, items[0].fields, path[1..], text);
        }
        ScannedExactly(c, rest, path, text);
        AmongRest(c, items, path, text);
      }
    }
  }

  lemma AmongRest(c: Config, items: seq<Tree>, path: seq<string>, text: string)
    requires path != [] && items != [] && !Fits(c, items[0])
    ensures FoundAmong(c, items, path, text) <==> FoundAt(c, items[0], path, text) || FoundAmong(c, items[1..], path, text)
  {
    var rest := items[1..];
    forall i
      ensures 0 < i < |items| ==> (Reached(c, items, i) <==> Reached(c, rest, i - 1)) && items[i] == rest[i - 1]
    {
      if 0 < i < |items| {
        assert forall j :: 0 < j < i ==> items[j] == rest[j - 1];
        assert forall j :: 0 <= j < i - 1 ==> rest[j] == items[j + 1];
      }
    }
    assert Reached(c, items, 0);
    if FoundAmong(c, rest, path, text) {
      var i :| Reached(c, rest, i) && FoundAt(c, rest[i], path, text);
      assert Reached(c, items, i + 1) && items[i + 1] == rest[i];
    }
  }

  // ---------- When the search panics ----------

  // An array at the last component holds an object before any matching string.
  ghost predicate Crashes(c: Config, m: map<string, Tree>, path: seq<string>)
    requires path != []
    decreases |path|, 1
  {
    var sub := Get(m, path[0]);
    || (sub.Arr? && ScanCrashes(c, sub.items, path))
    || (|path| > 1 && sub.Obj? && Crashes(c, sub.fields, path[1..]))
  }

  ghost predicate ScanCrashes(c: Config, items: seq<Tree>, path: seq<string>)
    requires path != []
    decreases |path|, 0, 1
  {
    exists i :: 0 <= i < |items| && CrashesAt(c, items, path, i)
  }

  ghost predicate CrashesAt(c: Config, items: seq<Tree>, path: seq<string>, i: int)
    requires path != [] && 0 <= i < |items|
    decreases |path|, 0, 0
  {
    && items[i].Obj?
    && (forall j :: 0 <= j < i ==> !Fits(c, items[j]))
    && (|path| == 1 || Crashes(c, items[i].fields, path[1..]))
  }

  // The search panics exactly then.
  lemma {:induction false} PanicsIff(c: Config, m: map<string, Tree>, path: seq<string>)
    requires path != []
    ensures Candidates(c, m, path).None? <==> Crashes(c, m, path)
    decreases |path|, 1, 0
  {
    var sub := Get(m, path[0]);
    BelowCases(c, sub, path);
    if sub.Arr? {
      ScanPanicsIff(c, sub.items, path);
    } else if sub.Obj? && |path| > 1 {
      PanicsIff(c, sub.fields, path[1..]);
    }
  }

  // A hit on which the search panics: the field holds an array of one object.
  lemma ArrayOfObjectsPanics(c: Config, field: string, fields: map<string, Tree>)
    requires '.' !in field
    ensures Candidates(c, map[field := Arr([Obj(fields)])], Split(field, '.')).None?
  {
    SplitSingle(field, '.');
    var m := map[field := Arr([Obj(fields)])];
    assert CrashesAt(c, m[field].items, [field], 0);
    PanicsIff(c, m, [field]);
  }

  lemma CrashesLater(c: Config, items: seq<Tree>, path: seq<string>, i: nat)
    requires path != [] && i + 1 < |items| && !Fits(c, items[0])
    ensures CrashesAt(c, items[1..], path, i) <==> CrashesAt(c, items, path, i + 1)
  {
    var rest := items[1..];
    assert rest[i] == items[i + 1];
    assert forall j :: 0 < j < i + 1 ==> items[j] == rest[j - 1];
    assert forall j :: 0 <= j < i ==> rest[j] == items[j + 1];
  }

  lemma {:induction false} ScanPanicsIff(c: Config, items: seq<Tree>, path: seq<string>)
    requires path != []
    ensures Scanned(c, items, path).None? <==> ScanCrashes(c, items, path)
    decreases |path|, 0, |items|
  {
    if items != [] && !Fits(c, items[0]) {
      var rest := items[1..];
      ScanPanicsIff(c, rest, path);
      if items[0].Obj? && |path| > 1 {
        PanicsIff(c, items[0].fields, path[1..]);
      }
      var here := items[0].Obj? && (|path| == 1 || Candidates(c, items[0].fields, path[1..]).None?);
      assert here <==> CrashesAt(c, items, path, 0);
      forall i | 0 <= i < |rest|
        ensures CrashesAt(c, rest, path, i) <==> CrashesAt(c, items, path, i + 1)
      {
        CrashesLater(c, items, path, i);
      }
      if i :| 0 <= i < |items| && CrashesAt(c, items, path, i) {
        if i > 0 {
          assert CrashesAt(c, rest, path, i - 1);
        }
      }
      if i :| 0 <= i < |rest| && CrashesAt(c, rest, path, i) {
        assert CrashesAt(c, items, path, i + 1);
      }
    }
  }

  // ---------- Collecting the strings as suggestions ----------

  datatype DocField = DocField(value: string, rawHit: Hit)

  datatype Lists = Lists(labels: seq<string>, suggestions: seq<Suggestion>)

  function Unquoted(s: string): string {
    if s == "" then "" else (if s[0] == '"' then "" else [s[0]]) + Unquoted(s[1..])
  }

  // The quotes go and everything else stays.
  lemma {:induction false} UnquotedMeaning(a: string, b: string, c: char)
    ensures Unquoted("\"") == "" && (c != '"' ==> Unquoted([c]) == [c])
    ensures Unquoted(a + b) == Unquoted(a) + Unquoted(b)
  {
    if a == "" {
      assert a + b == b;
    } else {
      assert (a + b)[1..] == a[1..] + b;
      UnquotedMeaning(a[1..], b, c);
    }
  }

  function SuggestionOf(c: Config, doc: DocField): Suggestion {
    var text := Unquoted(doc.value);
    var fieldValue := c.clean(text);
    var rank := c.findMatch(fieldValue, c.value);
    Suggestion(fieldValue, text, rank.score, doc.rawHit.score, doc.rawHit.id, rank.matchedTokens)
  }

  function Populated(c: Config, doc: DocField, s: Lists): Lists {
    if c.parseLabel(doc.value) in s.labels then s
    else Lists(s.labels + [c.parseLabel(Unquoted(doc.value))], s.suggestions + [SuggestionOf(c, doc)])
  }

  function PopulatedAll(c: Config, docs: seq<DocField>, s: Lists): Lists {
    if docs == [] then s else PopulatedAll(c, docs[1..], Populated(c, docs[0], s))
  }

  function Docs(texts: seq<string>, hit: Hit): (docs: seq<DocField>)
    ensures |docs| == |texts|
  {
    if texts == [] then [] else [DocField(texts[0], hit)] + Docs(texts[1..], hit)
  }

  lemma {:induction false} PopulatedAppend(c: Config, a: seq<DocField>, b: seq<DocField>, s: Lists)
    ensures PopulatedAll(c, a + b, s) == PopulatedAll(c, b, PopulatedAll(c, a, s))
  {
    if a == [] {
      assert a + b == b;
    } else {
      assert (a + b)[1..] == a[1..] + b;
      PopulatedAppend(c, a[1..], b, Populated(c, a[0], s));
    }
  }

  lemma {:induction false} DocsAppend(a: seq<string>, b: seq<string>, hit: Hit)
    ensures Docs(a + b, hit) == Docs(a, hit) + Docs(b, hit)
  {
    if a == [] {
      assert a + b == b;
    } else {
      assert (a + b)[1..] == a[1..] + b;
      DocsAppend(a[1..], b, hit);
    }
  }

  // What collecting the texts of one hit makes of the lists.
  function Collected(c: Config, hit: Hit, texts: seq<string>, s: Lists): Lists {
    PopulatedAll(c, Docs(texts, hit), s)
  }

  // The function tells what the lists are after each sequence of texts of the hit.
  ghost predicate Follows(c: Config, hit: Hit, spec: seq<string> -> Lists) {
    forall texts, t {:trigger spec(texts + [t])} :: spec(texts + [t]) == Populated(c, DocField(t, hit), spec(texts))
  }

  lemma CollectedFollows(c: Config, hit: Hit, s: Lists)
    ensures Follows(c, hit, texts => Collected(c, hit, texts, s))
  {
    forall texts, t
      ensures Collected(c, hit, texts + [t], s) == Populated(c, DocField(t, hit), Collected(c, hit, texts, s))
    {
      DocsAppend(texts, [t], hit);
      assert Docs([t], hit) == [DocField(t, hit)];
      PopulatedAppend(c, Docs(texts, hit), [DocField(t, hit)], s);
      PopulatedOne(c, DocField(t, hit), Collected(c, hit, texts, s));
    }
  }

  lemma PopulatedOne(c: Config, doc: DocField, s: Lists)
    ensures PopulatedAll(c, [doc], s) == Populated(c, doc, s)
  {
    assert [doc][1..] == [];
    assert PopulatedAll(c, [], Populated(c, doc, s)) == Populated(c, doc, s);
  }

  // Every field of every hit, hit by hit; None when one of the searches panics.
  function HitDocs(c: Config, hit: Hit, fields: seq<string>): Option<seq<DocField>> {
    if fields == [] then Some([])
    else
      var n := |fields| - 1;
      var before, texts := HitDocs(c, hit, fields[..n]), Candidates(c, ParsedSource(hit), Split(fields[n], '.'));
      if before.None? || texts.None? then None else Some(before.value + Docs(texts.value, hit))
  }

  function AllDocs(c: Config, hits: seq<Hit>, fields: seq<string>): Option<seq<DocField>> {
    if hits == [] then Some([])
    else
      var n := |hits| - 1;
      var before, docs := AllDocs(c, hits[..n], fields), HitDocs(c, hits[n], fields);
      if before.None? || docs.None? then None else Some(before.value + docs.value)
  }

  class SuggestionLists {
    var labels: seq<string>
    var suggestions: seq<Suggestion>

    constructor ()
      ensures State() == Lists([], [])
    {
      labels, suggestions := [], [];
    }

    function State(): Lists
      reads this
    {
      Lists(labels, suggestions)
    }

    method PopulateDefaultSuggestions(c: Config, docField: DocField)
      modifies this
      ensures State() == Populated(c, docField, old(State()))
    {
      if c.parseLabel(docField.value) !in labels {
        var value := Unquoted(docField.value);
        var fieldValue := c.clean(value);
        var rank := c.findMatch(fieldValue, c.value);
        labels := labels + [c.parseLabel(value)];
        suggestions := suggestions
          + [Suggestion(fieldValue, value, rank.score, docField.rawHit.score, docField.rawHit.id, rank.matchedTokens)];
      }
    }

    method AddText(c: Config, hit: Hit, text: string, ghost done: seq<string>, ghost spec: seq<string> -> Lists)
      requires Follows(c, hit, spec) && State() == spec(done)
      modifies this
      ensures State() == spec(done + [text])
    {
      PopulateDefaultSuggestions(c, DocField(text, hit));
    }

    method AddWhole(c: Config, hit: Hit, whole: Tree, ghost done: seq<string>, ghost spec: seq<string> -> Lists)
      requires Follows(c, hit, spec) && State() == spec(done)
      modifies this
      ensures State() == spec(done + WholeText(whole))
    {
      assert done + [] == done;
      if whole.Str? && whole.text != "" {
        AddText(c, hit, whole.text, done, spec);
      }
    }

    // The search below one map, for a dotted field; not ok is a panic.
    method ParseResponseTree(c: Config, hit: Hit, tree: map<string, Tree>, field: string,
                             ghost done: seq<string>, ghost spec: seq<string> -> Lists)
      returns (ok: bool)
      requires Follows(c, hit, spec) && State() == spec(done)
      modifies this
      ensures ok <==> Candidates(c, tree, Split(field, '.')).Some?
      ensures ok ==> State() == spec(done + Candidates(c, tree, Split(field, '.')).value)
      decreases |Split(field, '.')|, 1
    {
      JoinSplit(field, '.');
      var fieldNodes := Split(field, '.');
      AddWhole(c, hit, Get(tree, field), done, spec);
      ghost var first := WholeText(Get(tree, field));
      ok := ParseBelow(c, hit, Get(tree, fieldNodes[0]), field, done + first, spec);
      if ok {
        ghost var below := FoundBelow(c, Get(tree, fieldNodes[0]), fieldNodes).value;
        assert done + first + below == done + (first + below);
      }
    }

    method ParseBelow(c: Config, hit: Hit, subTree: Tree, field: string,
                      ghost done: seq<string>, ghost spec: seq<string> -> Lists)
      returns (ok: bool)
      requires Follows(c, hit, spec) && State() == spec(done)
      modifies this
      ensures ok <==> FoundBelow(c, subTree, Split(field, '.')).Some?
      ensures ok ==> State() == spec(done + FoundBelow(c, subTree, Split(field, '.')).value)
      decreases |Split(field, '.')|, 0, 3
    {
      var after;
      ok, after := ParseArray(c, hit, subTree, field, done, spec);
      if ok {
        ghost var found := ScannedIn(c, subTree, Split(field, '.')).value.found;
        ok := ParseRest(c, hit, after, field, done + found, spec);
        if ok {
          ghost var rest := Rest(c, after, Split(field, '.')).value;
          assert done + found + rest == done + (found + rest);
        }
      }
    }

    // The matching string of an array takes the place of the array.
    method ParseArray(c: Config, hit: Hit, subTree: Tree, field: string,
                      ghost done: seq<string>, ghost spec: seq<string> -> Lists)
      returns (ok: bool, after: Tree)
      requires Follows(c, hit, spec) && State() == spec(done)
      modifies this
      ensures ok <==> ScannedIn(c, subTree, Split(field, '.')).Some?
      ensures ok ==> after == ScannedIn(c, subTree, Split(field, '.')).value.After(subTree)
      ensures ok ==> State() == spec(done + ScannedIn(c, subTree, Split(field, '.')).value.found)
      decreases |Split(field, '.')|, 0, 2
    {
      ok, after := true, subTree;
      assert done + [] == done;
      if subTree.Arr? {
        var matched;
        ok, matched := ParseItems(c, hit, subTree.items, field, done, spec);
        if ok && matched.Some? {
          after := Str(matched.value);
        }
      }
    }

    method ParseRest(c: Config, hit: Hit, subTree: Tree, field: string,
                     ghost done: seq<string>, ghost spec: seq<string> -> Lists)
      returns (ok: bool)
      requires Follows(c, hit, spec) && State() == spec(done)
      modifies this
      ensures ok <==> Rest(c, subTree, Split(field, '.')).Some?
      ensures ok ==> State() == spec(done + Rest(c, subTree, Split(field, '.')).value)
      decreases |Split(field, '.')|, 0, 0
    {
      var fieldNodes := Split(field, '.');
      ok := true;
      assert done + [] == done;
      if |fieldNodes| > 1 {
        if subTree.Obj? {
          SplitTail(field, '.');
          ok := ParseResponseTree(c, hit, subTree.fields, field[|fieldNodes[0]| + 1..], done, spec);
        }
      } else if subTree.Str? {
        AddText(c, hit, subTree.text, done, spec);
      }
    }

    // The loop over an array; stops at the first matching string.
    method ParseItems(c: Config, hit: Hit, items: seq<Tree>, field: string,
                      ghost done: seq<string>, ghost spec: seq<string> -> Lists)
      returns (ok: bool, matched: Option<string>)
      requires Follows(c, hit, spec) && State() == spec(done)
      modifies this
      ensures ok <==> Scanned(c, items, Split(field, '.')).Some?
      ensures ok ==> matched == Scanned(c, items, Split(field, '.')).value.matched
      ensures ok ==> State() == spec(done + Scanned(c, items, Split(field, '.')).value.found)
      decreases |Split(field, '.')|, 0, 1
    {
      var fieldNodes := Split(field, '.');
      ghost var whole := Scanned(c, items, fieldNodes);
      ghost var found := [];
      assert done + found == done;
      var i := 0;
      assert items[i..] == items;
      PrependedNothing(whole);
      while i < |items|
        invariant 0 <= i <= |items|
        invariant i == 0 ==> found == []
        invariant whole == Prepended(found, Scanned(c, items[i..], fieldNodes))
        invariant State() == spec(done + found)
      {
        var item := items[i];
        assert items[i..][0] == item && items[i..][1..] == items[i + 1..];
        if Fits(c, item) {
          assert Scanned(c, items[i..], fieldNodes) == Some(Scan([], Some(item.text)));
          assert found + [] == found;
          return true, Some(item.text);
        }
        ok := ParseItem(c, hit, item, field, done + found, spec);
        if !ok {
          return false, None;
        }
        ghost var here := Below(c, item, fieldNodes).value;
        assert done + found + here == done + (found + here);
        PrependedTwice(found, here, Scanned(c, items[i + 1..], fieldNodes));
        found := found + here;
        i := i + 1;
      }
      assert items[i..] == [];
      assert found + [] == found;
      return true, None;
    }

    method ParseItem(c: Config, hit: Hit, item: Tree, field: string,
                     ghost done: seq<string>, ghost spec: seq<string> -> Lists)
      returns (ok: bool)
      requires Follows(c, hit, spec) && State() == spec(done)
      modifies this
      ensures ok <==> Below(c, item, Split(field, '.')).Some?
      ensures ok ==> State() == spec(done + Below(c, item, Split(field, '.')).value)
      decreases |Split(field, '.')|, 0, 0
    {
      var fieldNodes := Split(field, '.');
      assert done + [] == done;
      ok := !item.Obj?;
      if item.Obj? && |fieldNodes| > 1 {
        SplitTail(field, '.');
        ok := ParseResponseTree(c, hit, item.fields, field[|fieldNodes[0]| + 1..], done, spec);
      }
    }

    method ParseHit(c: Config, hit: Hit, fields: seq<string>) returns (ok: bool)
      modifies this
      ensures ok <==> HitDocs(c, hit, fields).Some?
      ensures ok ==> State() == PopulatedAll(c, HitDocs(c, hit, fields).value, old(State()))
    {
      ghost var before := State();
      for k := 0 to |fields|
        invariant HitDocs(c, hit, fields[..k]).Some?
        invariant State() == PopulatedAll(c, HitDocs(c, hit, fields[..k]).value, before)
      {
        assert fields[..k + 1][..k] == fields[..k];
        ghost var s := State();
        CollectedFollows(c, hit, s);
        ok := ParseResponseTree(c, hit, ParsedSource(hit), fields[k], [], texts => Collected(c, hit, texts, s));
        if !ok {
          HitDocsNone(c, hit, fields, k + 1);
          return;
        }
        ghost var texts := Candidates(c, ParsedSource(hit), Split(fields[k], '.')).value;
        assert [] + texts == texts;
        PopulatedAppend(c, HitDocs(c, hit, fields[..k]).value, Docs(texts, hit), before);
      }
      assert fields[..|fields|] == fields;
      ok := true;
    }

    method GetDefaultSuggestions(c: Config, hits: seq<Hit>, fields: seq<string>) returns (ok: bool)
      modifies this
      ensures ok <==> AllDocs(c, hits, fields).Some?
      ensures ok ==> State() == PopulatedAll(c, AllDocs(c, hits, fields).value, old(State()))
    {
      ghost var before := State();
      for k := 0 to |hits|
        invariant AllDocs(c, hits[..k], fields).Some?
        invariant State() == PopulatedAll(c, AllDocs(c, hits[..k], fields).value, before)
      {
        assert hits[..k + 1][..k] == hits[..k];
        ok := ParseHit(c, hits[k], fields);
        if !ok {
          AllDocsNone(c, hits, fields, k + 1);
          return;
        }
        PopulatedAppend(c, AllDocs(c, hits[..k], fields).value, HitDocs(c, hits[k], fields).value, before);
      }
      assert hits[..|hits|] == hits;
      ok := true;
    }
  }

  lemma {:induction false} HitDocsNone(c: Config, hit: Hit, fields: seq<string>, k: nat)
    requires k <= |fields| && HitDocs(c, hit, fields[..k]).None?
    ensures HitDocs(c, hit, fields).None?
    decreases |fields|
  {
    if k == |fields| {
      assert fields[..k] == fields;
    } else {
      assert fields[..|fields| - 1][..k] == fields[..k];
      HitDocsNone(c, hit, fields[..|fields| - 1], k);
    }
  }

  lemma {:induction false} AllDocsNone(c: Config, hits: seq<Hit>, fields: seq<string>, k: nat)
    requires k <= |hits| && AllDocs(c, hits[..k], fields).None?
    ensures AllDocs(c, hits, fields).None?
    decreases |hits|
  {
    if k == |hits| {
      assert hits[..k] == hits;
    } else {
      assert hits[..|hits| - 1][..k] == hits[..k];
      AllDocsNone(c, hits[..|hits| - 1], fields, k);
    }
  }

  // ---------- Labels are unique unless a value changes its label with its quotes ----------

  ghost predicate Distinct<T>(xs: seq<T>) {
    forall i, j :: 0 <= i < j < |xs| ==> xs[i] != xs[j]
  }

  // Dropping the quotes of the text does not change what it counts as.
  predicate Plain(c: Config, text: string) {
    c.parseLabel(text) == c.parseLabel(Unquoted(text))
  }

  // The lists fit together: one label for each suggestion.
  ghost predicate Aligned(c: Config, s: Lists) {
    |s.labels| == |s.suggestions| && forall i :: 0 <= i < |s.labels| ==> s.labels[i] == c.parseLabel(s.suggestions[i].labelText)
  }

  // Every suggestion comes from one of the fields, under its unquoted text; every field is
  // represented under one of its labels; and what was listed before stays in front.
  lemma {:induction false} CollectsAll(c: Config, docs: seq<DocField>, s: Lists)
    requires Aligned(c, s)
    ensures var t := PopulatedAll(c, docs, s);
            && Aligned(c, t)
            && s.labels <= t.labels && s.suggestions <= t.suggestions
            && (forall g :: g in t.suggestions ==> g in s.suggestions || exists d :: d in docs && g == SuggestionOf(c, d))
            && (forall d :: d in docs ==> c.parseLabel(d.value) in t.labels || c.parseLabel(Unquoted(d.value)) in t.labels)
  {
    if docs != [] {
      var d, mid := docs[0], Populated(c, docs[0], s);
      assert Aligned(c, mid);
      CollectsAll(c, docs[1..], mid);
      var t := PopulatedAll(c, docs, s);
      assert s.labels <= mid.labels && s.suggestions <= mid.suggestions;
      assert c.parseLabel(Unquoted(d.value)) in mid.labels || c.parseLabel(d.value) in mid.labels by {
        assert mid != s ==> mid.labels[|s.labels|] == c.parseLabel(Unquoted(d.value));
      }
      forall e | e in docs
        ensures c.parseLabel(e.value) in t.labels || c.parseLabel(Unquoted(e.value)) in t.labels
      {
        assert e == d || e in docs[1..];
      }
      forall g | g in t.suggestions
        ensures g in s.suggestions || exists e :: e in docs && g == SuggestionOf(c, e)
      {
        if g !in s.suggestions && g != SuggestionOf(c, d) {
          assert g !in mid.suggestions;
          var e :| e in docs[1..] && g == SuggestionOf(c, e);
          assert e in docs;
        }
      }
    }
  }

  lemma {:induction false} PlainKeepsDistinct(c: Config, docs: seq<DocField>, s: Lists)
    requires Distinct(s.labels) && forall d :: d in docs ==> Plain(c, d.value)
    ensures Distinct(PopulatedAll(c, docs, s).labels)
  {
    if docs != [] {
      var mid := Populated(c, docs[0], s);
      assert docs[0] in docs && Distinct(mid.labels);
      PlainKeepsDistinct(c, docs[1..], mid);
    }
  }

  // For a given list of fields the labels are unique exactly when no field is listed whose own
  // label is new while the label of its unquoted text is not.
  lemma {:induction false} LabelsUniqueForIff(c: Config, docs: seq<DocField>, s: Lists)
    ensures Distinct(PopulatedAll(c, docs, s).labels) <==>
            && Distinct(s.labels)
            && forall j :: 0 <= j < |docs| ==>
                 var listed := PopulatedAll(c, docs[..j], s).labels;
                 c.parseLabel(docs[j].value) in listed || c.parseLabel(Unquoted(docs[j].value)) !in listed
  {
    if docs != [] {
      var mid, rest := Populated(c, docs[0], s), docs[1..];
      LabelsUniqueForIff(c, rest, mid);
      forall j | 0 <= j < |rest|
        ensures PopulatedAll(c, docs[..j + 1], s) == PopulatedAll(c, rest[..j], mid) && docs[j + 1] == rest[j]
      {
        assert docs[..j + 1][1..] == rest[..j];
      }
      assert PopulatedAll(c, docs[..0], s) == s;
      OneMore(c, docs[0], s);
      assert forall j :: 0 < j < |docs| ==> docs[j] == rest[j - 1];
    }
  }

  lemma OneMore(c: Config, doc: DocField, s: Lists)
    ensures Distinct(Populated(c, doc, s).labels) <==>
            Distinct(s.labels) && (c.parseLabel(doc.value) in s.labels || c.parseLabel(Unquoted(doc.value)) !in s.labels)
  {
    var after := Populated(c, doc, s).labels;
    assert s.labels == after[..|s.labels|];
    if after != s.labels && after[|s.labels|] in s.labels {
      var i :| 0 <= i < |s.labels| && s.labels[i] == after[|s.labels|];
      assert after[i] == after[|s.labels|];
    }
  }

  // Texts without quotes never break uniqueness.
  lemma NoQuotesUnique(c: Config, docs: seq<DocField>)
    requires forall d :: d in docs ==> '"' !in d.value
    ensures Distinct(PopulatedAll(c, docs, Lists([], [])).labels)
  {
    forall d | d in docs
      ensures Plain(c, d.value)
    {
      NothingToUnquote(d.value);
    }
    PlainKeepsDistinct(c, docs, Lists([], []));
  }

  lemma {:induction false} NothingToUnquote(s: string)
    requires '"' !in s
    ensures Unquoted(s) == s
  {
    if s != "" {
      NothingToUnquote(s[1..]);
      assert s[0] in s && [s[0]] + s[1..] == s;
    }
  }

  // The labels are unique for every list of fields exactly when quotes never change a label.
  lemma LabelsUniqueIff(c: Config)
    ensures (forall docs :: Distinct(PopulatedAll(c, docs, Lists([], [])).labels)) <==> (forall text :: Plain(c, text))
  {
    var none := Lists([], []);
    if forall text :: Plain(c, text) {
      forall docs
        ensures Distinct(PopulatedAll(c, docs, none).labels)
      {
        PlainKeepsDistinct(c, docs, none);
      }
    } else {
      var text :| !Plain(c, text);
      var doc := DocField(text, Hit("", 0.0, map[], map[]));
      AddedTwice(c, doc);
      assert !Distinct(PopulatedAll(c, [doc, doc], none).labels);
    }
  }

  lemma AddedTwice(c: Config, doc: DocField)
    ensures var t := PopulatedAll(c, [doc, doc], Lists([], []));
            if Plain(c, doc.value) then t == Lists([c.parseLabel(doc.value)], [SuggestionOf(c, doc)])
            else t.suggestions == [SuggestionOf(c, doc), SuggestionOf(c, doc)] && !Distinct(t.labels)
  {
    var none := Lists([], []);
    var one := Populated(c, doc, none);
    assert one == Lists([c.parseLabel(Unquoted(doc.value))], [SuggestionOf(c, doc)]);
    var two := Populated(c, doc, one);
    assert [doc, doc][1..] == [doc] && [doc][1..] == [];
    assert PopulatedAll(c, [doc], one) == two;
    if !Plain(c, doc.value) {
      assert two.labels[0] == two.labels[1];
    }
  }

  // A string at a field without dots is looked up twice, so a single hit already yields two
  // equal suggestions exactly when dropping its quotes changes its label.
  lemma TopLevelStringTwiceIff(c: Config, hit: Hit, tree: map<string, Tree>, field: string, text: string)
    requires '.' !in field && Get(tree, field) == Str(text) && text != ""
    ensures Candidates(c, tree, Split(field, '.')) == Some([text, text])
    ensures |Collected(c, hit, [text, text], Lists([], [])).suggestions| == 1 <==> Plain(c, text)
  {
    SplitSingle(field, '.');
    BelowCases(c, Str(text), [field]);
    assert [text] + [text] == [text, text];
    var doc := DocField(text, hit);
    assert Docs([text, text], hit) == [doc, doc] by {
      DocsAppend([text], [text], hit);
      assert Docs([text], hit) == [doc];
    }
    AddedTwice(c, doc);
  }
}
