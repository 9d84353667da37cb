// In-place reindexing: copy an index to its successor, delete it, and give the successor the name
// of the original as an alias. Any call to Elasticsearch can fail on the way.

module Reindex {
  import opened Wrappers
  import opened Strings

  // ---------- Names ----------

  const MARK := "reindexed_"

  // The unanchored pattern .*reindexed_[0-9]+ matches the name.
  predicate MatchesPattern(name: string) {
    exists i :: 0 <= i < |name| - |MARK| && MARK <= name[i..] && IsDigit(name[i + |MARK|])
  }

  // Somewhere in the name the mark is followed by a digit.
  lemma PatternMeaning(name: string)
    ensures MatchesPattern(name) <==> exists a, c, b :: '0' <= c <= '9' && name == a + "reindexed_" + [c] + b
  {
    if i :| 0 <= i < |name| - |MARK| && MARK <= name[i..] && IsDigit(name[i + |MARK|]) {
      MarkAt(name, i);
    }
    if a, c, b :| '0' <= c <= '9' && name == a + "reindexed_" + [c] + b {
      MarkBehind(a, c, b);
    }
  }

  lemma MarkAt(name: string, i: nat)
    requires i < |name| - |MARK| && MARK <= name[i..]
    ensures name == name[..i] + "reindexed_" + [name[i + |MARK|]] + name[i + |MARK| + 1..]
  {
    assert name[i..][..|MARK|] == MARK;
  }

  lemma MarkBehind(a: string, c: char, b: string)
    requires '0' <= c <= '9'
    ensures MatchesPattern(a + "reindexed_" + [c] + b)
  {
    var name := a + "reindexed_" + [c] + b;
    assert name[|a|..] == MARK + [c] + b;
    assert MARK <= name[|a|..] && name[|a| + |MARK|] == c;
  }

  function Format(n: int): string {
    if n < 0 then "-" + Itoa(-n) else Itoa(n)
  }

  // Go's int wraps around.
  function Increment(n: int): int {
    if n == MAX_INT then MIN_INT else n + 1
  }

  // reindexedName; None is the error of strconv.Atoi.
  function ReindexedName(name: string): Option<string> {
    if !MatchesPattern(name) then Some(name + "_reindexed_1")
    else
      var tokens := Split(name, '_');
      var last := |tokens| - 1;
      var number := Atoi(tokens[last]);
      if number.None? then None
      else Some(Join(tokens[last := Format(Increment(number.value))], '_'))
  }

  // A name that matches the pattern has a successor exactly if its last token is a number, and then
  // that token becomes the next number, after the greatest one the least; other names get a first one.
  lemma ReindexedNameMeaning(name: string)
    ensures !MatchesPattern(name) ==> ReindexedName(name) == Some(name + "_reindexed_1")
    ensures MatchesPattern(name) ==>
              var tokens := Split(name, '_');
              var number := Atoi(tokens[|tokens| - 1]);
              && (ReindexedName(name).Some? <==> number.Some?)
              && (number.Some? ==>
                    var next := Split(ReindexedName(name).value, '_');
                    && |next| == |tokens| && next[..|next| - 1] == tokens[..|tokens| - 1]
                    && Atoi(next[|next| - 1]) ==
                         Some(if number.value == 0x7FFF_FFFF_FFFF_FFFF then -0x8000_0000_0000_0000 else number.value + 1))
  {
    if MatchesPattern(name) {
      var tokens := Split(name, '_');
      var last := |tokens| - 1;
      var number := Atoi(tokens[last]);
      if number.Some? {
        FormatAtoi(Increment(number.value));
        var token := Format(Increment(number.value));
        ChangedSepFree(tokens, last, token, '_');
        SplitJoin(tokens[last := token], '_');
      }
    }
  }

  // The name of the k-th successor of an index.
  function Nth(name: string, k: nat): string {
    name + "_reindexed_" + Itoa(k)
  }

  lemma NthMatches(name: string, k: nat)
    ensures MatchesPattern(Nth(name, k))
  {
    var s, i := Nth(name, k), |name| + 1;
    assert s[i..] == MARK + Itoa(k);
    assert s[i + |MARK|] == Itoa(k)[0];
    assert Itoa(k)[0] in Itoa(k);
  }

  lemma NthTokens(name: string, k: nat)
    ensures Split(Nth(name, k), '_') == Split(name + "_reindexed", '_') + [Itoa(k)]
  {
    var head := name + "_reindexed";
    assert Nth(name, k) == head + ['_'] + Itoa(k);
    SplitConcat(head, Itoa(k), '_');
    ItoaLacks(k, '_');
    SplitSingle(Itoa(k), '_');
  }

  lemma NextName(name: string, k: nat)
    requires k < MAX_INT
    ensures ReindexedName(Nth(name, k)) == Some(Nth(name, k + 1))
  {
    NthMatches(name, k);
    AtoiItoa(k);
    NthTokens(name, k);
    NthTokens(name, k + 1);
    JoinSplit(Nth(name, k + 1), '_');
    var heads := Split(name + "_reindexed", '_');
    assert (heads + [Itoa(k)])[|heads| := Itoa(k + 1)] == heads + [Itoa(k + 1)];
  }

  // ---------- The cluster and the caches ----------

  type Docs = map<string, string>

  datatype Row = Row(alias: string, index: string)

  // rows is the list of aliases; indexAlias and aliasIndex are the two alias caches.
  datatype State = State(indices: map<string, Docs>, rows: seq<Row>, indexAlias: map<string, string>, aliasIndex: map<string, string>)

  // How a call ends: it is carried out; it is refused and changes nothing; or it is carried out
  // and yet reported as an error, or not acknowledged.
  datatype Outcome = Done | Refused | Lost

  // The outcome of each call of a run. partial is what a failed copy has already written.
  datatype Faults = Faults(
    lookup: Outcome, mappings: Outcome, settings: Outcome, create: Outcome, relevancy: Outcome, synonyms: Outcome,
    copy: Outcome, partial: Docs, aliases: Outcome, delete: Outcome, alias: Outcome, replicas: Outcome, cleanup: Outcome)

  // The calls, as the place where a run fails.
  datatype Failure = Lookup | Mappings | Settings | Name | Create | Relevancy | Synonyms | Copy | Aliases | Delete | Alias | Replicas

  datatype Result = Ok | Err(at: Failure)

  // The configuration: whether mappings and search relevancy settings are passed, the action
  // array, and what include, exclude and script make of the documents.
  datatype Config = Config(mappings: bool, relevancy: bool, action: seq<string>, transform: Docs -> Docs)

  predicate IsAlias(s: State, name: string) { exists r :: r in s.rows && r.alias == name }

  function RowsOfAlias(rows: seq<Row>, alias: string): seq<string> {
    if rows == [] then []
    else
      var last := rows[|rows| - 1];
      RowsOfAlias(rows[..|rows| - 1], alias) + (if last.alias == alias then [last.index] else [])
  }

  function RowsWithout(rows: seq<Row>, index: string): seq<Row> {
    if rows == [] then []
    else
      var last := rows[|rows| - 1];
      RowsWithout(rows[..|rows| - 1], index) + (if last.index != index then [last] else [])
  }

  // The indices that a name stands for.
  function Resolve(s: State, name: string): seq<string> {
    if name in s.indices then [name] else RowsOfAlias(s.rows, name)
  }

  predicate CanCreate(s: State, name: string) { name !in s.indices && !IsAlias(s, name) }

  function Created(s: State, name: string, o: Outcome): State {
    if !o.Refused? && CanCreate(s, name) then s.(indices := s.indices[name := map[]]) else s
  }

  function Deleted(s: State, name: string, o: Outcome): State {
    if !o.Refused? && name in s.indices then
      s.(indices := s.indices - {name}, rows := RowsWithout(s.rows, name))
    else s
  }

  function DocsOf(s: State, name: string): Docs {
    if name in s.indices then s.indices[name] else map[]
  }

  // The destination of a copy is created when it does not exist; a copy through an alias is taken
  // to be refused.
  predicate CanCopy(s: State, dest: string) { dest in s.indices || !IsAlias(s, dest) }

  function Copied(s: State, source: string, dest: string, transform: Docs -> Docs, o: Outcome, partial: Docs): State {
    var docs := if o.Refused? then partial else transform(DocsOf(s, source));
    if !CanCopy(s, dest) || (o.Refused? && dest !in s.indices && partial == map[]) then s
    else s.(indices := s.indices[dest := DocsOf(s, dest) + docs])
  }

  predicate CanAlias(s: State, index: string, alias: string) { index in s.indices && alias !in s.indices }

  function Aliased(s: State, index: string, alias: string, o: Outcome): State {
    if o.Refused? || !CanAlias(s, index, alias) then s
    else
      var rows := if Row(alias, index) in s.rows then s.rows else s.rows + [Row(alias, index)];
      if o.Lost? then s.(rows := rows)
      else s.(rows := rows, indexAlias := s.indexAlias[index := alias], aliasIndex := s.aliasIndex[alias := index])
  }

  // aliasesOf: only for an index that was reindexed before; the last row wins.
  function AliasOf(rows: seq<Row>, index: string): string {
    if !MatchesPattern(index) || rows == [] then ""
    else if rows[|rows| - 1].index == index then rows[|rows| - 1].alias
    else AliasOf(rows[..|rows| - 1], index)
  }

  // ---------- A run ----------

  class Cluster {
    var indices: map<string, Docs>
    var rows: seq<Row>
    var indexAliasCache: map<string, string>
    var aliasIndexCache: map<string, string>

    function View(): State
      reads this
    {
      State(indices, rows, indexAliasCache, aliasIndexCache)
    }

    method CreateIndex(name: string, o: Outcome) returns (ok: bool)
      modifies this
      ensures View() == Created(old(View()), name, o)
      ensures ok == (o.Done? && CanCreate(old(View()), name))
    {
      ok := o.Done? && CanCreate(View(), name);
      if !o.Refused? && CanCreate(View(), name) {
        indices := indices[name := map[]];
      }
    }

    method DeleteIndex(name: string, o: Outcome) returns (ok: bool)
      modifies this
      ensures View() == Deleted(old(View()), name, o)
      ensures ok == (o.Done? && name in old(indices))
    {
      ok := o.Done? && name in indices;
      if !o.Refused? && name in indices {
        indices := indices - {name};
        var kept: seq<Row> := [];
        for k := 0 to |rows|
          invariant kept == RowsWithout(rows[..k], name)
          invariant rows == old(rows) && indices == old(indices) - {name}
          invariant indexAliasCache == old(indexAliasCache) && aliasIndexCache == old(aliasIndexCache)
        {
          assert rows[..k + 1][..k] == rows[..k];
          if rows[k].index != name {
            kept := kept + [rows[k]];
          }
        }
        assert rows[..|rows|] == rows;
        rows := kept;
      }
    }

    method CopyDocs(source: string, dest: string, transform: Docs -> Docs, o: Outcome, partial: Docs) returns (ok: bool)
      modifies this
      ensures View() == Copied(old(View()), source, dest, transform, o, partial)
      ensures ok == (o.Done? && CanCopy(old(View()), dest))
    {
      ok := o.Done? && CanCopy(View(), dest);
      var s := View();
      var docs := if o.Refused? then partial else transform(DocsOf(s, source));
      if CanCopy(s, dest) && !(o.Refused? && dest !in indices && partial == map[]) {
        indices := indices[dest := DocsOf(s, dest) + docs];
      }
    }

    method AliasesOf(index: string) returns (alias: string)
      ensures alias == AliasOf(rows, index)
    {
      alias := "";
      for k := 0 to |rows|
        invariant alias == AliasOf(rows[..k], index)
      {
        assert rows[..k + 1][..k] == rows[..k];
        if rows[k].index == index && MatchesPattern(index) {
          alias := rows[k].alias;
        }
      }
      assert rows[..|rows|] == rows;
    }

    method SetAlias(index: string, alias: string, o: Outcome) returns (ok: bool)
      modifies this
      ensures View() == Aliased(old(View()), index, alias, o)
      ensures ok == (o.Done? && CanAlias(old(View()), index, alias))
    {
      ok := o.Done? && CanAlias(View(), index, alias);
      if !o.Refused? && CanAlias(View(), index, alias) && Row(alias, index) !in rows {
        rows := rows + [Row(alias, index)];
      }
      if ok {
        indexAliasCache := indexAliasCache[index := alias];
        aliasIndexCache := aliasIndexCache[alias := index];
      }
    }

    // postReIndex of an in-place run.
    method PostReIndex(source: string, newIndex: string, f: Faults) returns (r: Result)
      modifies this
      ensures View() == Post(old(View()), source, newIndex, f).0
      ensures r == Post(old(View()), source, newIndex, f).1
    {
      if !f.aliases.Done? {
        return Err(Aliases);
      }
      var alias := AliasesOf(source);
      if alias == "" {
        alias := source;
      }
      var ok := DeleteIndex(source, f.delete);
      if !ok {
        return Err(Delete);
      }
      ok := SetAlias(newIndex, alias, f.alias);
      if !ok {
        return Err(Alias);
      }
      r := if f.replicas.Done? then Ok else Err(Replicas);
    }

    // Reindex without destination index, waiting for completion.
    method ReindexInPlace(name: string, config: Config, f: Faults) returns (r: Result)
      modifies this
      ensures View() == Run(old(View()), name, config, f).0
      ensures r == Run(old(View()), name, config, f).1
    {
      var source := Source(View(), name, f);
      var checked := CheckSource(name, source, config, f);
      if checked.Err? {
        return checked;
      }
      var newIndex := ReindexedName(source).value;
      var ok := CreateIndex(newIndex, f.create);
      if !ok && !DataOnly(config) {
        return Err(Create);
      }
      if config.relevancy && "search_relevancy" in config.action && !f.relevancy.Done? {
        return Err(Relevancy);
      }
      if "synonyms" in config.action && !f.synonyms.Done? {
        return Err(Synonyms);
      }
      if !CopiesData(config) {
        return Ok;
      }
      r := CopyAndFinish(source, newIndex, config, f);
    }

    // The steps before anything is changed.
    method CheckSource(name: string, source: string, config: Config, f: Faults) returns (r: Result)
      requires source == Source(View(), name, f)
      ensures r == Checked(View(), name, config, f)
    {
      if f.lookup.Done? && |RowsOfAlias(rows, name)| > 1 {
        return Err(Lookup);
      }
      if !config.mappings && (config.action == [] || "mappings" in config.action) && !(f.mappings.Done? && source in indices) {
        return Err(Mappings);
      }
      if !(f.settings.Done? && source in indices) {
        return Err(Settings);
      }
      r := if ReindexedName(source).None? then Err(Name) else Ok;
    }

    // The rest of the run, with its clean-up after a failure.
    method CopyAndFinish(source: string, newIndex: string, config: Config, f: Faults) returns (r: Result)
      modifies this
      ensures (View(), r) == Finish(old(View()), source, newIndex, config, f)
    {
      var ok := CopyDocs(source, newIndex, config.transform, f.copy, f.partial);
      if !ok {
        var _ := DeleteIndex(newIndex, f.cleanup);
        return Err(Copy);
      }
      r := PostReIndex(source, newIndex, f);
      if r.Err? {
        var _ := DeleteIndex(newIndex, f.cleanup);
      }
    }

    // The loop of asyncReIndex over polls and announcements, and what follows it.
    method AsyncReIndex(source: string, newIndex: string, f: Faults, events: seq<Event>)
      modifies this
      ensures View() == AsyncOutcome(old(View()), source, newIndex, f, events)
    {
      var p := Polling(false, false);
      for i := 0 to |events|
        invariant p == PollerAfter(events[..i])
      {
        assert events[..i + 1][..i] == events[..i];
        p := OnEvent(p, events[i]);
      }
      assert events[..|events|] == events;
      if p.Finished? {
        if p.hasError {
          var _ := DeleteIndex(newIndex, f.cleanup);
        } else {
          var _ := PostReIndex(source, newIndex, f);
        }
      }
    }
  }

  predicate DataOnly(config: Config) {
    "data" in config.action && "mappings" !in config.action && "settings" !in config.action
  }

  predicate CopiesData(config: Config) { config.action == [] || "data" in config.action }

  function Post(s: State, source: string, newIndex: string, f: Faults): (State, Result) {
    if !f.aliases.Done? then (s, Err(Aliases))
    else
      var alias := Moved(s, source);
      var s1 := Deleted(s, source, f.delete);
      if !(f.delete.Done? && source in s.indices) then (s1, Err(Delete))
      else
        var s2 := Aliased(s1, newIndex, alias, f.alias);
        if !(f.alias.Done? && CanAlias(s1, newIndex, alias)) then (s2, Err(Alias))
        else (s2, if f.replicas.Done? then Ok else Err(Replicas))
  }

  // The index that the name stands for at the start of a run.
  function Source(s: State, name: string, f: Faults): string {
    var found := if f.lookup.Done? then RowsOfAlias(s.rows, name) else [];
    if |found| == 1 then found[0] else name
  }

  // The steps before anything is changed.
  function Checked(s: State, name: string, config: Config, f: Faults): Result {
    var source := Source(s, name, f);
    if f.lookup.Done? && |RowsOfAlias(s.rows, name)| > 1 then Err(Lookup)
    else if !config.mappings && (config.action == [] || "mappings" in config.action) && !(f.mappings.Done? && source in s.indices) then Err(Mappings)
    else if !(f.settings.Done? && source in s.indices) then Err(Settings)
    else if ReindexedName(source).None? then Err(Name)
    else Ok
  }

  function Run(s: State, name: string, config: Config, f: Faults): (State, Result) {
    if Checked(s, name, config, f).Err? then (s, Checked(s, name, config, f))
    else
      var source := Source(s, name, f);
      var newIndex := ReindexedName(source).value;
      var s1 := Created(s, newIndex, f.create);
      if !(f.create.Done? && CanCreate(s, newIndex)) && !DataOnly(config) then (s1, Err(Create))
      else if config.relevancy && "search_relevancy" in config.action && !f.relevancy.Done? then (s1, Err(Relevancy))
      else if "synonyms" in config.action && !f.synonyms.Done? then (s1, Err(Synonyms))
      else if !CopiesData(config) then (s1, Ok)
      else Finish(s1, source, newIndex, config, f)
  }

  function Finish(s: State, source: string, newIndex: string, config: Config, f: Faults): (State, Result) {
    var copied := Copied(s, source, newIndex, config.transform, f.copy, f.partial);
    if !(f.copy.Done? && CanCopy(s, newIndex)) then (Deleted(copied, newIndex, f.cleanup), Err(Copy))
    else
      var post := Post(copied, source, newIndex, f);
      if post.1.Err? then (Deleted(post.0, newIndex, f.cleanup), post.1) else post
  }

  // ---------- When a run succeeds ----------

  // The index that a name stands for, if it is an alias of exactly one; otherwise the name itself.
  predicate StandsFor(s: State, name: string, looked: bool, source: string) {
    if looked && |RowsOfAlias(s.rows, name)| == 1 then RowsOfAlias(s.rows, name) == [source] else source == name
  }

  predicate Asks(config: Config, action: string) { action in config.action }

  // Nothing stands in the way before the documents are copied: the name is no alias of several
  // indices; the mappings, when neither given nor left out of the actions, and the settings of the
  // source can be read; there is a next name; it is free and can be created, unless data is asked
  // for without mappings and settings; and relevancy, when given and asked for, and synonyms, when
  // asked for, can be copied.
  predicate Prepares(s: State, name: string, source: string, config: Config, f: Faults) {
    && !(f.lookup == Done && |RowsOfAlias(s.rows, name)| > 1)
    && (config.mappings || (config.action != [] && !Asks(config, "mappings")) || (f.mappings == Done && source in s.indices))
    && f.settings == Done && source in s.indices
    && ReindexedName(source).Some?
    && (|| (f.create == Done && ReindexedName(source).value !in s.indices && !IsAlias(s, ReindexedName(source).value))
        || (Asks(config, "data") && !Asks(config, "mappings") && !Asks(config, "settings")))
    && (config.relevancy && Asks(config, "search_relevancy") ==> f.relevancy == Done)
    && (Asks(config, "synonyms") ==> f.synonyms == Done)
  }

  // The alias that moves: that of the last row of a source that was reindexed before, else its name.
  ghost predicate MovedAlias(s: State, source: string, alias: string) {
    if MatchesPattern(source) && exists i :: LastRow(s.rows, source, i) && s.rows[i].alias != "" then
      exists i :: LastRow(s.rows, source, i) && s.rows[i].alias == alias
    else alias == source
  }

  predicate LastRow(rows: seq<Row>, index: string, i: int) {
    0 <= i < |rows| && rows[i].index == index && forall j :: i < j < |rows| ==> rows[j].index != index
  }

  lemma {:induction false} AliasOfLast(rows: seq<Row>, index: string)
    requires MatchesPattern(index)
    ensures forall i :: LastRow(rows, index, i) ==> AliasOf(rows, index) == rows[i].alias
    ensures (forall i :: !LastRow(rows, index, i)) ==> AliasOf(rows, index) == ""
  {
    if rows != [] {
      var n := |rows| - 1;
      var init := rows[..n];
      if rows[n].index == index {
        assert LastRow(rows, index, n);
        assert forall i :: LastRow(rows, index, i) ==> i == n;
      } else {
        AliasOfLast(init, index);
        assert forall i :: LastRow(rows, index, i) <==> LastRow(init, index, i);
      }
    }
  }

  lemma MovedMeaning(s: State, source: string)
    ensures forall alias :: MovedAlias(s, source, alias) <==> alias == Moved(s, source)
  {
    if MatchesPattern(source) {
      AliasOfLast(s.rows, source);
      assert forall i, j :: LastRow(s.rows, source, i) && LastRow(s.rows, source, j) ==> i == j;
    }
  }

  // Nothing stands in the way of copying the documents and moving the name over: every call is
  // carried out, no alias has the next name unless an index has it, and no index but the source
  // has the name that moves.
  ghost predicate Finishes(s: State, source: string, f: Faults)
    requires ReindexedName(source).Some?
  {
    var newIndex := ReindexedName(source).value;
    && f.copy == Done && f.aliases == Done && f.delete == Done && f.alias == Done && f.replicas == Done
    && (newIndex in s.indices || !IsAlias(s, newIndex))
    && (forall alias :: MovedAlias(s, source, alias) ==> alias != newIndex && (alias in s.indices ==> alias == source))
  }

  // A run succeeds exactly when nothing stands in its way; without the documents, when neither an
  // empty list of actions nor data asks for them, it ends after the preparations.
  lemma RunSucceedsIff(s: State, name: string, config: Config, f: Faults, source: string)
    requires StandsFor(s, name, f.lookup == Done, source)
    ensures Source(s, name, f) == source
    ensures Run(s, name, config, f).1.Ok? <==>
            Prepares(s, name, source, config, f) && (config.action == [] || Asks(config, "data") ==> Finishes(s, source, f))
  {
    PreparesIff(s, name, source, config, f);
    if ReindexedName(source).Some? && source in s.indices {
      NewNameDiffers(source);
      FinishesIff(s, source, config, f);
    }
  }

  // The run gets as far as the copy, or past it, exactly when it is prepared.
  lemma PreparesIff(s: State, name: string, source: string, config: Config, f: Faults)
    requires StandsFor(s, name, f.lookup == Done, source)
    ensures Source(s, name, f) == source
    ensures Prepares(s, name, source, config, f) ==>
              Run(s, name, config, f) ==
                if !CopiesData(config) then (Created(s, ReindexedName(source).value, f.create), Ok)
                else Finish(Created(s, ReindexedName(source).value, f.create), source, ReindexedName(source).value, config, f)
    ensures !Prepares(s, name, source, config, f) ==> Run(s, name, config, f).1.Err?
  {
    assert |RowsOfAlias(s.rows, name)| == 1 ==> RowsOfAlias(s.rows, name) == [RowsOfAlias(s.rows, name)[0]];
  }

  lemma FinishesIff(s: State, source: string, config: Config, f: Faults)
    requires source in s.indices && ReindexedName(source).Some? && ReindexedName(source).value != source
    ensures var newIndex := ReindexedName(source).value;
            Finish(Created(s, newIndex, f.create), source, newIndex, config, f).1.Ok? <==> Finishes(s, source, f)
  {
    var newIndex := ReindexedName(source).value;
    FilledFinishes(s, source, newIndex, config, f);
    MovedMeaning(s, source);
    assert MovedAlias(s, source, Moved(s, source));
  }

  lemma FilledFinishes(s: State, source: string, newIndex: string, config: Config, f: Faults)
    requires source in s.indices && newIndex != source
    ensures Finish(Created(s, newIndex, f.create), source, newIndex, config, f).1.Ok? <==>
              && f.copy == Done && (newIndex in s.indices || !IsAlias(s, newIndex))
              && f.aliases == Done && f.delete == Done && f.alias == Done && f.replicas == Done
              && Moved(s, source) != newIndex && (Moved(s, source) in s.indices ==> Moved(s, source) == source)
  {
    var s1 := Created(s, newIndex, f.create);
    assert CanCopy(s1, newIndex) <==> newIndex in s.indices || !IsAlias(s, newIndex);
    if f.copy.Done? && CanCopy(s1, newIndex) {
      var copied := Copied(s1, source, newIndex, config.transform, f.copy, f.partial);
      assert copied.indices.Keys == s.indices.Keys + {newIndex} && copied.rows == s.rows;
      PostSucceedsIff(copied, source, newIndex, f);
    }
  }

  lemma PostSucceedsIff(s: State, source: string, newIndex: string, f: Faults)
    requires source in s.indices && newIndex in s.indices && newIndex != source
    ensures Post(s, source, newIndex, f).1.Ok? <==>
              && f.aliases == Done && f.delete == Done && f.alias == Done && f.replicas == Done
              && (Moved(s, source) in s.indices ==> Moved(s, source) == source)
  {
  }

  // ---------- Facts about names and aliases ----------

  lemma FormatAtoi(n: int)
    requires MIN_INT <= n <= MAX_INT
    ensures Atoi(Format(n)) == Some(n) && '_' !in Format(n)
  {
    if n < 0 {
      var digits := Itoa(-n);
      assert Format(n)[0] == '-' && Format(n)[1..] == digits;
      ItoaLacks(-n, '_');
      assert DigitsValue(digits) == -n by { DigitsValueItoa(-n); }
    } else {
      AtoiItoa(n);
      ItoaLacks(n, '_');
    }
  }

  lemma NewNameDiffers(name: string)
    requires ReindexedName(name).Some?
    ensures ReindexedName(name).value != name
  {
    if MatchesPattern(name) {
      var tokens := Split(name, '_');
      var last := |tokens| - 1;
      NextTokenDiffers(name, tokens[last]);
    } else {
      assert |name + "_reindexed_1"| > |name|;
    }
  }

  lemma NextTokenDiffers(name: string, token: string)
    requires Atoi(token).Some?
    requires var tokens := Split(name, '_'); token == tokens[|tokens| - 1]
    ensures var tokens := Split(name, '_'); Join(tokens[|tokens| - 1 := Format(Increment(Atoi(token).value))], '_') != name
  {
    Incremented(token);
    OtherLastToken(name, Format(Increment(Atoi(token).value)));
  }

  lemma Incremented(token: string)
    requires Atoi(token).Some?
    ensures var next := Format(Increment(Atoi(token).value)); '_' !in next && next != token
  {
    FormatAtoi(Increment(Atoi(token).value));
  }

  lemma OtherLastToken(name: string, token: string)
    requires '_' !in token
    ensures var tokens := Split(name, '_');
            token != tokens[|tokens| - 1] ==> Join(tokens[|tokens| - 1 := token], '_') != name
  {
    var tokens := Split(name, '_');
    var last := |tokens| - 1;
    var changed := tokens[last := token];
    ChangedSepFree(tokens, last, token, '_');
    SplitJoin(changed, '_');
    assert changed[last] == token;
  }

  lemma ChangedSepFree(tokens: seq<string>, i: nat, token: string, sep: char)
    requires i < |tokens| && SepFree(tokens, sep) && sep !in token
    ensures SepFree(tokens[i := token], sep)
  {
    assert forall t :: t in tokens[i := token] ==> t in tokens || t == token;
  }

  function NamesWithout(names: seq<string>, name: string): seq<string> {
    if names == [] then []
    else
      var last := names[|names| - 1];
      NamesWithout(names[..|names| - 1], name) + (if last != name then [last] else [])
  }

  lemma {:induction false} NamesWithoutAbsent(names: seq<string>, name: string)
    requires name !in names
    ensures NamesWithout(names, name) == names
  {
    if names != [] {
      NamesWithoutAbsent(names[..|names| - 1], name);
      assert names[|names| - 1] in names;
    }
  }

  lemma RowsOfAliasAppend(rows: seq<Row>, r: Row, alias: string)
    ensures RowsOfAlias(rows + [r], alias) == RowsOfAlias(rows, alias) + (if r.alias == alias then [r.index] else [])
  {
    assert (rows + [r])[..|rows|] == rows;
  }

  // Deleting an index takes it out of what every alias stands for, and nothing else.
  lemma {:induction false} RowsWithoutAlias(rows: seq<Row>, index: string, alias: string)
    ensures RowsOfAlias(RowsWithout(rows, index), alias) == NamesWithout(RowsOfAlias(rows, alias), index)
  {
    if rows != [] {
      var init, last := rows[..|rows| - 1], rows[|rows| - 1];
      RowsWithoutAlias(init, index, alias);
      RowsOfAliasAppend(RowsWithout(init, index), last, alias);
      NamesWithoutAppend(RowsOfAlias(init, alias), last.index, index);
      assert RowsWithout(init, index) + [] == RowsWithout(init, index);
      assert RowsOfAlias(init, alias) + [] == RowsOfAlias(init, alias);
      assert NamesWithout(RowsOfAlias(init, alias), index) + [] == NamesWithout(RowsOfAlias(init, alias), index);
    }
  }

  lemma NamesWithoutAppend(names: seq<string>, last: string, name: string)
    ensures NamesWithout(names + [last], name) == NamesWithout(names, name) + (if last != name then [last] else [])
  {
    assert (names + [last])[..|names|] == names;
  }

  lemma {:induction false} RowsWithoutMember(rows: seq<Row>, index: string, r: Row)
    ensures r in RowsWithout(rows, index) <==> r in rows && r.index != index
  {
    if rows != [] {
      RowsWithoutMember(rows[..|rows| - 1], index, r);
      assert r in rows <==> r in rows[..|rows| - 1] || r == rows[|rows| - 1];
    }
  }

  lemma {:induction false} RowsOfAliasMember(rows: seq<Row>, alias: string)
    ensures RowsOfAlias(rows, alias) == [] <==> forall r :: r in rows ==> r.alias != alias
  {
    if rows != [] {
      RowsOfAliasMember(rows[..|rows| - 1], alias);
      assert rows[|rows| - 1] in rows;
      assert forall r :: r in rows <==> r in rows[..|rows| - 1] || r == rows[|rows| - 1];
    }
  }

  // ---------- Failures ----------

  // The source and its documents are untouched, and every name that stood for it alone still does.
  ghost predicate Survives(s: State, s': State, source: string) {
    && source in s'.indices && source in s.indices && s'.indices[source] == s.indices[source]
    && (forall name :: Resolve(s, name) == [source] ==> Resolve(s', name) == [source])
  }

  predicate DeleteTookEffect(at: Failure, f: Faults) {
    at.Alias? || at.Replicas? || (at.Delete? && f.delete.Lost?)
  }

  lemma DeletingAnotherKeeps(s: State, source: string, other: string, o: Outcome)
    requires source in s.indices && other != source
    ensures Survives(s, Deleted(s, other, o), source)
  {
    forall name | Resolve(s, name) == [source]
      ensures Resolve(Deleted(s, other, o), name) == [source]
    {
      RowsWithoutAlias(s.rows, other, name);
      NamesWithoutAbsent([source], other);
    }
  }

  lemma SurvivesTrans(a: State, b: State, c: State, source: string)
    requires Survives(a, b, source) && Survives(b, c, source)
    ensures Survives(a, c, source)
  {
  }

  // Creating the successor and copying into it change nothing about the source.
  lemma AddingKeeps(s: State, source: string, dest: string, docs: Docs)
    requires source in s.indices && dest != source && CanCopy(s, dest)
    ensures Survives(s, s.(indices := s.indices[dest := docs]), source)
  {
    RowsOfAliasMember(s.rows, dest);
  }

  lemma FillingKeeps(s: State, source: string, newIndex: string, config: Config, f: Faults)
    requires source in s.indices && newIndex != source
    ensures Survives(s, Created(s, newIndex, f.create), source)
    ensures Survives(s, Copied(Created(s, newIndex, f.create), source, newIndex, config.transform, f.copy, f.partial), source)
  {
    var s1 := Created(s, newIndex, f.create);
    if CanCreate(s, newIndex) {
      AddingKeeps(s, source, newIndex, map[]);
    }
    if CanCopy(s1, newIndex) {
      var docs := if f.copy.Refused? then f.partial else config.transform(DocsOf(s1, source));
      AddingKeeps(s1, source, newIndex, DocsOf(s1, newIndex) + docs);
    }
  }

  // What the in-place run hands to postReIndex once the copy has succeeded.
  lemma FilledState(s: State, source: string, newIndex: string, config: Config, f: Faults)
    requires source in s.indices && newIndex != source && f.copy.Done? && CanCopy(Created(s, newIndex, f.create), newIndex)
    ensures Copied(Created(s, newIndex, f.create), source, newIndex, config.transform, f.copy, f.partial)
         == s.(indices := s.indices[newIndex := DocsOf(s, newIndex) + config.transform(s.indices[source])])
  {
    var s1 := Created(s, newIndex, f.create);
    assert DocsOf(s1, newIndex) == DocsOf(s, newIndex);
    assert s1.indices[newIndex := DocsOf(s, newIndex) + config.transform(s.indices[source])]
        == s.indices[newIndex := DocsOf(s, newIndex) + config.transform(s.indices[source])];
  }

  // A failed run leaves the source and its documents untouched, and its names in place, exactly
  // when the delete of the source did not take effect. When it did, all that is left are the
  // documents in the successor, and only if the clean-up that follows was itself refused.
  lemma FailureOutcome(s: State, name: string, config: Config, f: Faults)
    requires Run(s, name, config, f).1.Err? && Source(s, name, f) in s.indices
    ensures var (s', r), source := Run(s, name, config, f), Source(s, name, f);
            if !DeleteTookEffect(r.at, f) then Survives(s, s', source)
            else
              && source !in s'.indices
              && ReindexedName(source).Some?
              && var newIndex := ReindexedName(source).value;
                 && (newIndex in s'.indices <==> f.cleanup.Refused?)
                 && (f.cleanup.Refused? ==>
                      && s'.indices[newIndex] == DocsOf(s, newIndex) + config.transform(s.indices[source])
                      && (r.at.Replicas? ==> newIndex in RowsOfAlias(s'.rows, Moved(s, source))))
  {
    var source := Source(s, name, f);
    if Checked(s, name, config, f).Ok? {
      var newIndex := ReindexedName(source).value;
      NewNameDiffers(source);
      FillingKeeps(s, source, newIndex, config, f);
      var s1 := Created(s, newIndex, f.create);
      var s2 := Copied(s1, source, newIndex, config.transform, f.copy, f.partial);
      var (s', r) := Run(s, name, config, f);
      if r.at.Copy? {
        DeletingAnotherKeeps(s2, source, newIndex, f.cleanup);
        SurvivesTrans(s, s2, s', source);
      } else if r.at in {Aliases, Delete, Alias, Replicas} {
        FilledState(s, source, newIndex, config, f);
        PostEffect(s2, source, newIndex, f);
        if !DeleteTookEffect(r.at, f) {
          DeletingAnotherKeeps(s2, source, newIndex, f.cleanup);
          SurvivesTrans(s, s2, s', source);
        }
      }
    }
  }

  // Every index but the two is as it was.
  ghost predicate OthersKept(s: State, s': State, source: string, newIndex: string) {
    forall i :: i != source && i != newIndex ==>
      (i in s'.indices <==> i in s.indices) && (i in s.indices ==> s'.indices[i] == s.indices[i])
  }

  predicate SameCaches(s: State, s': State) { s'.indexAlias == s.indexAlias && s'.aliasIndex == s.aliasIndex }

  lemma FillingElsewhere(s: State, source: string, newIndex: string, config: Config, f: Faults)
    ensures var s1 := Created(s, newIndex, f.create);
            var s2 := Copied(s1, source, newIndex, config.transform, f.copy, f.partial);
            && OthersKept(s, s1, source, newIndex) && SameCaches(s, s1) && s1.rows == s.rows
            && OthersKept(s, s2, source, newIndex) && SameCaches(s, s2) && s2.rows == s.rows
            && (newIndex in s.indices ==> s1 == s && newIndex in s2.indices)
  {
  }

  lemma CleanedUp(s: State, source: string, newIndex: string, o: Outcome)
    ensures var s' := Deleted(s, newIndex, o);
            OthersKept(s, s', source, newIndex) && SameCaches(s, s') && (newIndex in s'.indices <==> newIndex in s.indices && o.Refused?)
  {
  }

  lemma PostElsewhere(s: State, source: string, newIndex: string, f: Faults)
    requires source != newIndex
    ensures var (s', r) := Post(s, source, newIndex, f);
            && OthersKept(s, s', source, newIndex) && (newIndex in s'.indices <==> newIndex in s.indices)
            && (r.Err? ==> r.at in {Aliases, Delete, Alias, Replicas})
  {
  }

  lemma PostCaches(s: State, source: string, newIndex: string, f: Faults)
    ensures var (s', r) := Post(s, source, newIndex, f);
            if r.Ok? || r.at.Replicas? then
              && s'.indexAlias == s.indexAlias[newIndex := Moved(s, source)]
              && s'.aliasIndex == s.aliasIndex[Moved(s, source) := newIndex]
            else SameCaches(s, s')
  {
  }

  lemma FinishElsewhere(s: State, source: string, newIndex: string, config: Config, f: Faults)
    requires source != newIndex
    ensures var (s', r) := Finish(s, source, newIndex, config, f);
            && OthersKept(s, s', source, newIndex)
            && (if r.Ok? || r.at.Replicas? then
                  && s'.indexAlias == s.indexAlias[newIndex := Moved(s, source)]
                  && s'.aliasIndex == s.aliasIndex[Moved(s, source) := newIndex]
                else SameCaches(s, s'))
  {
    var copied := Copied(s, source, newIndex, config.transform, f.copy, f.partial);
    assert OthersKept(s, copied, source, newIndex) && SameCaches(s, copied) && copied.rows == s.rows;
    CleanedUp(copied, source, newIndex, f.cleanup);
    PostElsewhere(copied, source, newIndex, f);
    PostCaches(copied, source, newIndex, f);
    CleanedUp(Post(copied, source, newIndex, f).0, source, newIndex, f.cleanup);
  }

  // A failed run changes no other index, and no alias cache unless it fails at the replicas: then
  // both caches already name the successor, which the clean-up is about to delete.
  lemma FailureElsewhere(s: State, name: string, config: Config, f: Faults)
    requires Run(s, name, config, f).1.Err?
    ensures var (s', r), source := Run(s, name, config, f), Source(s, name, f);
            var newIndex := ReindexedName(source).GetOr(source);
            && OthersKept(s, s', source, newIndex)
            && (if r.at.Replicas? then
                  && s'.indexAlias == s.indexAlias[newIndex := Moved(s, source)]
                  && s'.aliasIndex == s.aliasIndex[Moved(s, source) := newIndex]
                else SameCaches(s, s'))
  {
    var source := Source(s, name, f);
    if Checked(s, name, config, f).Ok? {
      var newIndex := ReindexedName(source).value;
      NewNameDiffers(source);
      FillingElsewhere(s, source, newIndex, config, f);
      FinishElsewhere(Created(s, newIndex, f.create), source, newIndex, config, f);
    }
  }

  // A successor that existed before the run survives its failure unless the run got as far as the
  // copy, which only a run for the data alone does, and the clean-up is not refused.
  lemma LeftoverSurvivesIff(s: State, name: string, config: Config, f: Faults)
    requires Run(s, name, config, f).1.Err?
    requires var next := ReindexedName(Source(s, name, f)); next.Some? && next.value in s.indices
    ensures var (s', r), newIndex := Run(s, name, config, f), ReindexedName(Source(s, name, f)).value;
            && (newIndex !in s'.indices <==> r.at in {Copy, Aliases, Delete, Alias, Replicas} && !f.cleanup.Refused?)
            && (r.at in {Copy, Aliases, Delete, Alias, Replicas} ==> DataOnly(config))
            && (r.at !in {Copy, Aliases, Delete, Alias, Replicas} ==> s' == s)
  {
    var source := Source(s, name, f);
    if Checked(s, name, config, f).Ok? {
      var newIndex := ReindexedName(source).value;
      NewNameDiffers(source);
      var s2 := Copied(Created(s, newIndex, f.create), source, newIndex, config.transform, f.copy, f.partial);
      FillingElsewhere(s, source, newIndex, config, f);
      CleanedUp(s2, source, newIndex, f.cleanup);
      PostElsewhere(s2, source, newIndex, f);
      CleanedUp(Post(s2, source, newIndex, f).0, source, newIndex, f.cleanup);
    }
  }

  // The alias that postReIndex moves to the successor.
  function Moved(s: State, source: string): string {
    if AliasOf(s.rows, source) == "" then source else AliasOf(s.rows, source)
  }

  // postReIndex changes nothing unless the delete takes effect, and then keeps the successor.
  lemma PostEffect(s: State, source: string, newIndex: string, f: Faults)
    requires source in s.indices && newIndex in s.indices && newIndex != source
    ensures var (s', r) := Post(s, source, newIndex, f);
            && (if f.aliases.Done? && !f.delete.Refused? then
                  source !in s'.indices && newIndex in s'.indices && s'.indices[newIndex] == s.indices[newIndex]
                else s' == s)
            && (r.Err? ==> r.at in {Aliases, Delete, Alias, Replicas}
                           && (DeleteTookEffect(r.at, f) <==> f.aliases.Done? && !f.delete.Refused?))
            && (f.aliases.Done? && f.delete.Done? && !f.alias.Refused? && Moved(s, source) !in s'.indices ==>
                  newIndex in RowsOfAlias(s'.rows, Moved(s, source)))
            && (r.Ok? || r.at.Replicas? ==> Moved(s, source) !in s'.indices)
  {
    var s', alias := Post(s, source, newIndex, f).0, Moved(s, source);
    if Row(alias, newIndex) in s'.rows {
      RowInAlias(s'.rows, Row(alias, newIndex));
    }
  }

  lemma {:induction false} RowInAlias(rows: seq<Row>, r: Row)
    requires r in rows
    ensures r.index in RowsOfAlias(rows, r.alias)
  {
    var init, last := rows[..|rows| - 1], rows[|rows| - 1];
    if last != r {
      assert r in init;
      RowInAlias(init, r);
    }
  }

  // ---------- Successful runs ----------

  ghost predicate RowsExist(s: State) {
    forall r :: r in s.rows ==> r.index in s.indices
  }

  lemma PostSuccess(s: State, source: string, newIndex: string, f: Faults)
    requires source in s.indices && Post(s, source, newIndex, f).1.Ok?
    ensures var s', alias := Post(s, source, newIndex, f).0, Moved(s, source);
            && s'.indices == (s.indices - {source})
            && alias !in s'.indices
            && s'.indexAlias == s.indexAlias[newIndex := alias] && s'.aliasIndex == s.aliasIndex[alias := newIndex]
            && s'.rows == WithRow(RowsWithout(s.rows, source), Row(alias, newIndex))
  {
    var s1 := Deleted(s, source, f.delete);
    assert Post(s, source, newIndex, f).0 == Aliased(s1, newIndex, Moved(s, source), Done) && CanAlias(s1, newIndex, Moved(s, source));
    assert s1.rows == RowsWithout(s.rows, source) && s1.indexAlias == s.indexAlias && s1.aliasIndex == s.aliasIndex;
  }

  function WithRow(rows: seq<Row>, r: Row): seq<Row> {
    if r in rows then rows else rows + [r]
  }

  // What the successor holds once the documents of the source have been copied over whatever an
  // index of that name held before.
  function CopiedDocs(s: State, source: string, newIndex: string, config: Config): Docs
    requires source in s.indices
  {
    DocsOf(s, newIndex) + config.transform(s.indices[source])
  }

  // A successful run replaces the source by its successor, which holds the documents, and gives
  // it the name of the original. Only a run for the data alone accepts a successor that exists.
  lemma SuccessOutcome(s: State, name: string, config: Config, f: Faults)
    requires Run(s, name, config, f).1.Ok? && CopiesData(config)
    ensures var s', source := Run(s, name, config, f).0, Source(s, name, f);
            && source in s.indices && ReindexedName(source).Some? && source != ReindexedName(source).value
            && var newIndex, alias := ReindexedName(source).value, Moved(s, source);
               && (newIndex in s.indices ==> DataOnly(config))
               && s'.indices == (s.indices - {source})[newIndex := CopiedDocs(s, source, newIndex, config)]
               && s'.rows == WithRow(RowsWithout(s.rows, source), Row(alias, newIndex))
               && alias !in s'.indices
               && s'.indexAlias == s.indexAlias[newIndex := alias] && s'.aliasIndex == s.aliasIndex[alias := newIndex]
  {
    var source := Source(s, name, f);
    var newIndex := ReindexedName(source).value;
    RunIsPost(s, name, config, f);
    PostSuccess(Filled(s, source, newIndex, config), source, newIndex, f);
  }

  // Of the aliases of the source, the successor keeps the one that is moved and no other: every other
  // alias only loses the source. A first run moves the name of the index itself, so all are lost.
  lemma AliasesAfterRun(s: State, name: string, config: Config, f: Faults, alias: string)
    requires Run(s, name, config, f).1.Ok? && CopiesData(config)
    ensures var s', source := Run(s, name, config, f).0, Source(s, name, f);
            && ReindexedName(source).Some?
            && var newIndex := ReindexedName(source).value;
               var others := NamesWithout(RowsOfAlias(s.rows, alias), source);
               && RowsOfAlias(s'.rows, alias)
                    == others + (if alias == Moved(s, source) && Row(alias, newIndex) !in s.rows then [newIndex] else [])
               && (!MatchesPattern(source) ==> Moved(s, source) == source)
  {
    var source := Source(s, name, f);
    var newIndex := ReindexedName(source).value;
    SuccessOutcome(s, name, config, f);
    var kept, row := RowsWithout(s.rows, source), Row(Moved(s, source), newIndex);
    RowsWithoutAlias(s.rows, source, alias);
    RowsWithoutMember(s.rows, source, row);
    RowsOfAliasAppend(kept, row, alias);
    assert RowsOfAlias(kept, alias) + [] == RowsOfAlias(kept, alias);
  }

  // An alias of the source alone stands for nothing after the run, unless it is the one that is moved.
  lemma OtherAliasLost(s: State, name: string, config: Config, f: Faults, alias: string)
    requires Run(s, name, config, f).1.Ok? && CopiesData(config) && RowsOfAlias(s.rows, alias) == [Source(s, name, f)]
    ensures alias != Moved(s, Source(s, name, f)) ==> RowsOfAlias(Run(s, name, config, f).0.rows, alias) == []
  {
    var source := Source(s, name, f);
    AliasesAfterRun(s, name, config, f, alias);
    assert [source][..0] == [];
    assert NamesWithout([source], source) == [];
  }

  // The cluster once the documents are in the successor.
  function Filled(s: State, source: string, newIndex: string, config: Config): State
    requires source in s.indices
  {
    s.(indices := s.indices[newIndex := CopiedDocs(s, source, newIndex, config)])
  }

  lemma RunIsPost(s: State, name: string, config: Config, f: Faults)
    requires Run(s, name, config, f).1.Ok? && CopiesData(config)
    ensures var source := Source(s, name, f);
            && source in s.indices && ReindexedName(source).Some?
            && var newIndex := ReindexedName(source).value;
               && (newIndex in s.indices ==> DataOnly(config)) && source != newIndex
               && Run(s, name, config, f) == Post(Filled(s, source, newIndex, config), source, newIndex, f)
  {
    var source := Source(s, name, f);
    var newIndex := ReindexedName(source).value;
    NewNameDiffers(source);
    FilledState(s, source, newIndex, config, f);
  }

  // A successful run that is not asked for the data leaves everything and adds the successor, empty.
  lemma WithoutDataKeepsSource(s: State, name: string, config: Config, f: Faults)
    requires Run(s, name, config, f).1.Ok? && !CopiesData(config)
    ensures var s', source := Run(s, name, config, f).0, Source(s, name, f);
            && ReindexedName(source).Some? && ReindexedName(source).value !in s.indices
            && s' == s.(indices := s.indices[ReindexedName(source).value := map[]])
            && Survives(s, s', source)
  {
    var source := Source(s, name, f);
    NewNameDiffers(source);
    FillingKeeps(s, source, ReindexedName(source).value, config, f);
  }

  // After k successful runs on an index: the one index with its documents is the k-th successor,
  // the original name is an alias of it and of nothing else, and the cache agrees.
  ghost predicate Stage(s: State, name: string, k: nat, docs: Docs) {
    && RowsExist(s)
    && (if k == 0 then
          && name in s.indices && s.indices[name] == docs && RowsOfAlias(s.rows, name) == []
        else
          && Nth(name, k) in s.indices && s.indices[Nth(name, k)] == docs
          && name !in s.indices && RowsOfAlias(s.rows, name) == [Nth(name, k)]
          && AliasOf(s.rows, Nth(name, k)) == name
          && name in s.aliasIndex && s.aliasIndex[name] == Nth(name, k))
  }

  function StageIndex(name: string, k: nat): string {
    if k == 0 then name else Nth(name, k)
  }

  lemma StageName(name: string, k: nat)
    requires k < MAX_INT && !MatchesPattern(name)
    ensures ReindexedName(StageIndex(name, k)) == Some(Nth(name, k + 1))
  {
    if k > 0 {
      NextName(name, k);
    } else {
      assert Nth(name, 1) == name + "_reindexed_1";
    }
  }

  // One more successful run leads to the next stage. What the successor held before, if it
  // existed, is still there under what was copied.
  lemma SuccessKeepsStage(s: State, name: string, k: nat, docs: Docs, config: Config, f: Faults)
    requires name != "" && !MatchesPattern(name) && k < MAX_INT && Stage(s, name, k, docs)
    requires Run(s, name, config, f).1.Ok? && CopiesData(config)
    ensures var docs' := DocsOf(s, Nth(name, k + 1)) + config.transform(docs);
            && Stage(Run(s, name, config, f).0, name, k + 1, docs')
            && Run(s, name, config, f).0.indices
                 == (s.indices - {StageIndex(name, k)})[Nth(name, k + 1) := docs']
  {
    var s' := Run(s, name, config, f).0;
    SuccessOutcome(s, name, config, f);
    StageName(name, k);
    assert Source(s, name, f) == StageIndex(name, k);
    StageRows(s, name, k);
    NextStage(s, s', name, k, DocsOf(s, Nth(name, k + 1)) + config.transform(docs));
  }

  lemma NextStage(s: State, s': State, name: string, k: nat, docs: Docs)
    requires !MatchesPattern(name) && RowsExist(s)
    requires var kept := RowsWithout(s.rows, StageIndex(name, k));
             RowsOfAlias(kept, name) == [] && s'.rows == kept + [Row(name, Nth(name, k + 1))]
    requires s'.indices == (s.indices - {StageIndex(name, k)})[Nth(name, k + 1) := docs]
    requires name !in s'.indices && name in s'.aliasIndex && s'.aliasIndex[name] == Nth(name, k + 1)
    ensures Stage(s', name, k + 1, docs)
  {
    var newIndex := Nth(name, k + 1);
    NthMatches(name, k + 1);
    NextRows(RowsWithout(s.rows, StageIndex(name, k)), name, newIndex);
    NextRowsExist(s, StageIndex(name, k), Row(name, newIndex), docs);
  }

  lemma NextRows(kept: seq<Row>, name: string, newIndex: string)
    requires RowsOfAlias(kept, name) == [] && MatchesPattern(newIndex)
    ensures var rows := kept + [Row(name, newIndex)]; RowsOfAlias(rows, name) == [newIndex] && AliasOf(rows, newIndex) == name
  {
    RowsOfAliasAppend(kept, Row(name, newIndex), name);
  }

  lemma NextRowsExist(s: State, source: string, row: Row, docs: Docs)
    requires RowsExist(s)
    ensures forall r :: r in RowsWithout(s.rows, source) + [row] ==> r.index in (s.indices - {source})[row.index := docs]
  {
    forall r | r in RowsWithout(s.rows, source)
      ensures r in s.rows && r.index != source
    {
      RowsWithoutMember(s.rows, source, r);
    }
  }

  // Without the current stage no row is left for the name.
  lemma StageRows(s: State, name: string, k: nat)
    requires RowsOfAlias(s.rows, name) == if k == 0 then [] else [Nth(name, k)]
    ensures var kept := RowsWithout(s.rows, StageIndex(name, k));
            RowsOfAlias(kept, name) == [] && forall index :: Row(name, index) !in kept
  {
    var source := StageIndex(name, k);
    RowsWithoutAlias(s.rows, source, name);
    if k > 0 {
      assert [source][..0] == [];
    }
    RowsOfAliasMember(RowsWithout(s.rows, source), name);
  }

  // Reindexing an index in place over and over, always under its original name.
  function RunAll(s: State, name: string, runs: seq<(Config, Faults)>): (State, bool)
  {
    if runs == [] then (s, true)
    else
      var before := RunAll(s, name, runs[..|runs| - 1]);
      var (config, f) := runs[|runs| - 1];
      var (s', r) := Run(before.0, name, config, f);
      (s', before.1 && r.Ok?)
  }

  // The documents after the runs: every run puts what it copies over what the successor held.
  function Carried(s: State, name: string, docs: Docs, runs: seq<(Config, Faults)>): Docs {
    if runs == [] then docs
    else
      var k := |runs| - 1;
      DocsOf(s, Nth(name, k + 1)) + runs[k].0.transform(Carried(s, name, docs, runs[..k]))
  }

  // The names under which the documents have been up to stage k.
  function Stages(name: string, k: nat): set<string> {
    if k == 0 then {name} else Stages(name, k - 1) + {Nth(name, k)}
  }

  lemma {:induction false} LaterStage(name: string, k: nat, n: nat)
    requires !MatchesPattern(name) && k < n
    ensures Nth(name, n) !in Stages(name, k)
    ensures StageIndex(name, k) in Stages(name, k)
  {
    NthMatches(name, n);
    if k > 0 {
      LaterStage(name, k - 1, n);
      if Nth(name, k) == Nth(name, n) {
        assert Nth(name, k)[|name + "_reindexed_"|..] == Itoa(k);
        assert Nth(name, n)[|name + "_reindexed_"|..] == Itoa(n);
        ItoaInjective(k, n);
      }
    }
  }

  // The cluster s' is s with the documents in the k-th successor in the place of the stages so far.
  ghost predicate Replaced(s: State, s': State, name: string, k: nat, docs: Docs) {
    s'.indices == (s.indices - Stages(name, k))[StageIndex(name, k) := docs]
  }

  lemma ReplacedAgain(s: State, mid: State, s': State, name: string, k: nat, docs: Docs, docs': Docs)
    requires !MatchesPattern(name) && Replaced(s, mid, name, k, docs)
    requires s'.indices == (mid.indices - {StageIndex(name, k)})[Nth(name, k + 1) := docs']
    ensures Replaced(s, s', name, k + 1, docs')
    ensures DocsOf(mid, Nth(name, k + 1)) == DocsOf(s, Nth(name, k + 1))
  {
    LaterStage(name, k, k + 1);
    MovedOn(s.indices, Stages(name, k), StageIndex(name, k), Nth(name, k + 1), docs, docs');
  }

  lemma MovedOn(indices: map<string, Docs>, stages: set<string>, here: string, next: string, docs: Docs, docs': Docs)
    requires here in stages && next !in stages
    ensures var mid := (indices - stages)[here := docs];
            (mid - {here})[next := docs'] == (indices - (stages + {next}))[next := docs']
  {
    assert (indices - stages)[here := docs] - {here} == indices - stages;
  }

  // After n successful runs that copy data, the documents live in the n-th successor alone, no
  // index but the stages was touched, and the name still leads to them, in the cluster and in the
  // cache.
  lemma {:induction false} RepeatedRuns(s: State, name: string, docs: Docs, runs: seq<(Config, Faults)>)
    requires name != "" && !MatchesPattern(name) && |runs| <= MAX_INT && Stage(s, name, 0, docs)
    requires RunAll(s, name, runs).1 && forall i :: 0 <= i < |runs| ==> CopiesData(runs[i].0)
    ensures Stage(RunAll(s, name, runs).0, name, |runs|, Carried(s, name, docs, runs))
    ensures Resolve(RunAll(s, name, runs).0, name) == [StageIndex(name, |runs|)]
    ensures Replaced(s, RunAll(s, name, runs).0, name, |runs|, Carried(s, name, docs, runs))
  {
    if runs == [] {
      assert (s.indices - {name})[name := docs] == s.indices;
    } else {
      var k := |runs| - 1;
      var init, config, f := runs[..k], runs[k].0, runs[k].1;
      RepeatedRuns(s, name, docs, init);
      var mid, before := RunAll(s, name, init).0, Carried(s, name, docs, init);
      var s' := Run(mid, name, config, f).0;
      assert RunAll(s, name, runs).0 == s';
      SuccessKeepsStage(mid, name, k, before, config, f);
      ReplacedAgain(s, mid, s', name, k, before, DocsOf(mid, Nth(name, k + 1)) + config.transform(before));
    }
  }

  // Every run copies the documents it finds as they are.
  ghost predicate CopyAsTheyAre(s: State, name: string, docs: Docs, runs: seq<(Config, Faults)>) {
    forall i :: 0 <= i < |runs| ==>
      var before := Carried(s, name, docs, runs[..i]);
      runs[i].0.transform(before) == before
  }

  lemma CopyBefore(s: State, name: string, docs: Docs, runs: seq<(Config, Faults)>)
    requires CopyAsTheyAre(s, name, docs, runs) && runs != []
    ensures var k := |runs| - 1;
            && CopyAsTheyAre(s, name, docs, runs[..k])
            && Carried(s, name, docs, runs) == DocsOf(s, Nth(name, k + 1)) + Carried(s, name, docs, runs[..k])
  {
    var k := |runs| - 1;
    assert forall i :: 0 <= i < k ==> runs[..k][..i] == runs[..i];
    assert runs[k].0.transform(Carried(s, name, docs, runs[..k])) == Carried(s, name, docs, runs[..k]);
  }

  // Nothing that was there is lost.
  lemma {:induction false} CarriedKeys(s: State, name: string, docs: Docs, runs: seq<(Config, Faults)>)
    requires CopyAsTheyAre(s, name, docs, runs)
    ensures docs.Keys <= Carried(s, name, docs, runs).Keys
    ensures forall k :: 1 <= k <= |runs| ==> DocsOf(s, Nth(name, k)).Keys <= Carried(s, name, docs, runs).Keys
  {
    if runs != [] {
      CopyBefore(s, name, docs, runs);
      CarriedKeys(s, name, docs, runs[..|runs| - 1]);
    }
  }

  // Documents that are copied as they are stay unchanged exactly when no successor held a document
  // that the index does not have. A successor that did not exist held none.
  lemma {:induction false} DocumentsUnchangedIff(s: State, name: string, docs: Docs, runs: seq<(Config, Faults)>)
    requires CopyAsTheyAre(s, name, docs, runs)
    ensures Carried(s, name, docs, runs) == docs <==>
            forall k :: 1 <= k <= |runs| ==> DocsOf(s, Nth(name, k)).Keys <= docs.Keys
  {
    CarriedKeys(s, name, docs, runs);
    if forall k :: 1 <= k <= |runs| ==> DocsOf(s, Nth(name, k)).Keys <= docs.Keys {
      StayUnchanged(s, name, docs, runs);
    }
  }

  lemma {:induction false} StayUnchanged(s: State, name: string, docs: Docs, runs: seq<(Config, Faults)>)
    requires CopyAsTheyAre(s, name, docs, runs)
    requires forall k :: 1 <= k <= |runs| ==> DocsOf(s, Nth(name, k)).Keys <= docs.Keys
    ensures Carried(s, name, docs, runs) == docs
  {
    if runs != [] {
      CopyBefore(s, name, docs, runs);
      StayUnchanged(s, name, docs, runs[..|runs| - 1]);
      var left := DocsOf(s, Nth(name, |runs|));
      assert left.Keys <= docs.Keys;
      assert left + docs == docs;
    }
  }

  // ---------- Runs that lose or mix documents ----------

  const ALL_DONE := Faults(Done, Done, Done, Done, Done, Done, Done, map[], Done, Done, Done, Done, Done)

  // A cluster that holds one index, and perhaps a successor that an earlier run has left over.
  function Small(name: string, docs: Docs, leftover: Option<Docs>): State {
    State(if leftover.Some? then map[name := docs, Nth(name, 1) := leftover.value] else map[name := docs], [], map[], map[])
  }

  function Plain(action: seq<string>): Config {
    Config(false, false, action, docs => docs)
  }

  // A first run in which every call but perhaps the last succeeds gets as far as postReIndex.
  lemma FirstRunIsPost(s: State, name: string, action: seq<string>, f: Faults)
    requires name in s.indices && s.rows == [] && name != "" && !MatchesPattern(name) && f == ALL_DONE.(replicas := f.replicas)
    requires action == ["data"] || (action == [] && Nth(name, 1) !in s.indices)
    ensures var post := Post(Filled(s, name, Nth(name, 1), Plain(action)), name, Nth(name, 1), f);
            Run(s, name, Plain(action), f) == if post.1.Err? then (Deleted(post.0, Nth(name, 1), Done), post.1) else post
  {
    var newIndex, config := Nth(name, 1), Plain(action);
    FirstChecked(s, name, config, f);
    assert Run(s, name, config, f) == Finish(Created(s, newIndex, Done), name, newIndex, config, f);
    assert CanCopy(Created(s, newIndex, Done), newIndex);
    FinishIsPost(s, name, newIndex, config, f);
  }

  lemma FirstChecked(s: State, name: string, config: Config, f: Faults)
    requires name in s.indices && s.rows == [] && !MatchesPattern(name) && f.lookup.Done? && f.mappings.Done? && f.settings.Done?
    ensures Source(s, name, f) == name && ReindexedName(name) == Some(Nth(name, 1)) && Nth(name, 1) != name
    ensures Checked(s, name, config, f).Ok?
  {
    StageName(name, 0);
    NthMatches(name, 1);
  }

  lemma FinishIsPost(s: State, source: string, newIndex: string, config: Config, f: Faults)
    requires source in s.indices && newIndex != source && f.copy.Done? && CanCopy(Created(s, newIndex, f.create), newIndex)
    ensures var post := Post(Filled(s, source, newIndex, config), source, newIndex, f);
            Finish(Created(s, newIndex, f.create), source, newIndex, config, f) ==
              if post.1.Err? then (Deleted(post.0, newIndex, f.cleanup), post.1) else post
  {
    FilledState(s, source, newIndex, config, f);
  }

  lemma FirstRun(s: State, name: string, action: seq<string>, f: Faults)
    requires name in s.indices && s.rows == [] && name != "" && !MatchesPattern(name) && f == ALL_DONE.(replicas := f.replicas)
    requires action == ["data"] || (action == [] && Nth(name, 1) !in s.indices)
    ensures Run(s, name, Plain(action), f).1 == if f.replicas.Done? then Ok else Err(Replicas)
  {
    var newIndex := Nth(name, 1);
    NthMatches(name, 1);
    FirstRunIsPost(s, name, action, f);
    FirstPost(Filled(s, name, newIndex, Plain(action)), name, newIndex, f);
  }

  lemma FirstPost(s: State, source: string, newIndex: string, f: Faults)
    requires source in s.indices && newIndex in s.indices && newIndex != source && s.rows == []
    requires f == ALL_DONE.(replicas := f.replicas)
    ensures Post(s, source, newIndex, f).1 == if f.replicas.Done? then Ok else Err(Replicas)
  {
    assert Moved(s, source) == source && CanAlias(Deleted(s, source, Done), newIndex, source);
  }

  // A run for the data alone, all calls of which succeed, mixes the left-over documents in.
  lemma DataOnlyMixesLeftover(name: string, docs: Docs, leftover: Docs)
    requires name != "" && !MatchesPattern(name)
    ensures var (s', r) := Run(Small(name, docs, Some(leftover)), name, Plain(["data"]), ALL_DONE);
            r.Ok? && s'.indices == map[Nth(name, 1) := leftover + docs]
  {
    var s := Small(name, docs, Some(leftover));
    FirstRun(s, name, ["data"], ALL_DONE);
    FirstChecked(s, name, Plain(["data"]), ALL_DONE);
    SuccessOutcome(s, name, Plain(["data"]), ALL_DONE);
  }

  // When only the last call, setting the replicas, fails, the clean-up deletes the one copy that is
  // left, while the cache goes on to name it.
  lemma ReplicasFailureLosesDocuments(name: string, docs: Docs)
    requires name != "" && !MatchesPattern(name)
    ensures var (s', r) := Run(Small(name, docs, None), name, Plain([]), ALL_DONE.(replicas := Refused));
            r == Err(Replicas) && s'.indices == map[] && s'.aliasIndex == map[name := Nth(name, 1)]
  {
    var s, f := Small(name, docs, None), ALL_DONE.(replicas := Refused);
    FirstChecked(s, name, Plain([]), f);
    FirstRun(s, name, [], f);
    FailureOutcome(s, name, Plain([]), f);
    FailureElsewhere(s, name, Plain([]), f);
  }

  // ---------- The asynchronous run ----------

  // What a poll of the copying task reports, and the moment at which the loop reads the channel
  // on which completion was announced. The channel holds one announcement.
  datatype Event = Running | PollError | Completed | CompletedWithFailures | Announced

  datatype Poller = Polling(announced: bool, hasError: bool) | Blocked | Finished(hasError: bool)

  function OnEvent(p: Poller, e: Event): Poller {
    if !p.Polling? then p
    else
      match e
      case Running => p
      case PollError => p.(hasError := true)
      case Completed => if p.announced then Blocked else p.(announced := true)
      case CompletedWithFailures => if p.announced then Blocked else Polling(true, true)
      case Announced => if p.announced then Finished(p.hasError) else p
  }

  function PollerAfter(events: seq<Event>): Poller {
    if events == [] then Polling(false, false)
    else OnEvent(PollerAfter(events[..|events| - 1]), events[|events| - 1])
  }

  predicate Announces(e: Event) { e.Completed? || e.CompletedWithFailures? }

  predicate Fails(e: Event) { e.PollError? || e.CompletedWithFailures? }

  ghost predicate SomeAnnounces(events: seq<Event>) { exists i :: 0 <= i < |events| && Announces(events[i]) }

  ghost predicate SomeFails(events: seq<Event>) { exists i :: 0 <= i < |events| && Fails(events[i]) }

  // Event n can end the loop: there was an announcement before, and it is either another one or
  // the reading of the channel.
  ghost predicate CanStop(events: seq<Event>, n: int) {
    0 <= n < |events| && (Announces(events[n]) || events[n].Announced?) && SomeAnnounces(events[..n])
  }

  // Event n is the first that can end the loop.
  ghost predicate StopsAt(events: seq<Event>, n: int) {
    CanStop(events, n) && forall m :: m < n ==> !CanStop(events, m)
  }

  // The loop polls on until the first event after an announcement that either reads it, and then
  // takes the copy as failed exactly when some poll had failed by then, or is another announcement
  // and gets stuck on the full channel.
  lemma PollerMeaning(events: seq<Event>)
    ensures PollerAfter(events) == Blocked <==> exists n :: StopsAt(events, n) && Announces(events[n])
    ensures forall h :: PollerAfter(events) == Finished(h) <==>
              exists n :: StopsAt(events, n) && events[n].Announced? && h == SomeFails(events[..n])
    ensures PollerAfter(events).Polling? <==> forall n :: !StopsAt(events, n)
    ensures PollerAfter(events).Polling? ==> PollerAfter(events) == Polling(SomeAnnounces(events), SomeFails(events))
  {
    PollerStops(events);
    assert forall m, n :: StopsAt(events, m) && StopsAt(events, n) ==> m == n;
  }

  // Where the loop stands, read off the first event that can end it.
  lemma {:induction false} PollerStops(events: seq<Event>)
    ensures match PollerAfter(events)
            case Polling(announced, hasError) =>
              (forall n :: !CanStop(events, n)) && announced == SomeAnnounces(events) && hasError == SomeFails(events)
            case Finished(hasError) =>
              exists n :: StopsAt(events, n) && events[n].Announced? && hasError == SomeFails(events[..n])
            case Blocked => exists n :: StopsAt(events, n) && Announces(events[n])
  {
    if events != [] {
      var n := |events| - 1;
      var init := events[..n];
      PollerStops(init);
      forall m
        ensures m < n ==> (CanStop(events, m) <==> CanStop(init, m))
        ensures m < n && CanStop(init, m) ==> events[..m] == init[..m] && events[m] == init[m]
      {
        if 0 <= m < n {
          assert events[..m] == init[..m];
        }
      }
      if PollerAfter(init).Polling? {
        LastPoll(events);
        if CanStop(events, n) {
          assert StopsAt(events, n);
        }
      } else {
        var m :| StopsAt(init, m);
        assert StopsAt(events, m);
      }
    }
  }

  lemma LastPoll(events: seq<Event>)
    requires events != []
    ensures var n := |events| - 1;
            && (SomeAnnounces(events) <==> SomeAnnounces(events[..n]) || Announces(events[n]))
            && (SomeFails(events) <==> SomeFails(events[..n]) || Fails(events[n]))
  {
    var n := |events| - 1;
    var init := events[..n];
    assert forall i :: 0 <= i < n ==> init[i] == events[i];
    if i :| 0 <= i < n && Announces(init[i]) { assert Announces(events[i]); }
    if i :| 0 <= i < n && Fails(init[i]) { assert Fails(events[i]); }
  }

  // Two completed polls before the channel is read leave the loop stuck; reading in between ends it.
  lemma SecondCompletionBlocks()
    ensures PollerAfter([Running, Completed, Completed, Announced]) == Blocked
    ensures PollerAfter([Running, Completed, Announced, Completed]) == Finished(false)
    ensures PollerAfter([Running, PollError, Completed, Announced]) == Finished(true)
  {
    FourPolls(Running, Completed, Completed, Announced);
    FourPolls(Running, Completed, Announced, Completed);
    FourPolls(Running, PollError, Completed, Announced);
  }

  lemma FourPolls(a: Event, b: Event, c: Event, d: Event)
    ensures PollerAfter([a, b, c, d]) == OnEvent(OnEvent(OnEvent(OnEvent(Polling(false, false), a), b), c), d)
  {
    assert [a, b, c, d][..3] == [a, b, c] && [a, b, c][..2] == [a, b] && [a, b][..1] == [a] && [a][..0] == [];
    assert PollerAfter([a]) == OnEvent(PollerAfter([]), a);
    assert PollerAfter([a, b]) == OnEvent(PollerAfter([a]), b);
    assert PollerAfter([a, b, c]) == OnEvent(PollerAfter([a, b]), c);
  }

  // What asyncReIndex does to the cluster once the loop is over.
  function AsyncOutcome(s: State, source: string, newIndex: string, f: Faults, events: seq<Event>): State {
    match PollerAfter(events)
    case Finished(true) => Deleted(s, newIndex, f.cleanup)
    case Finished(false) => Post(s, source, newIndex, f).0
    case _ => s
  }

  // Unlike the synchronous run, the asynchronous one never deletes both copies: the source
  // survives unless the delete took effect, and then the successor stays with what was copied.
  lemma AsyncKeepsDocuments(s: State, source: string, newIndex: string, f: Faults, events: seq<Event>)
    requires source in s.indices && newIndex in s.indices && source != newIndex
    ensures var s', alias := AsyncOutcome(s, source, newIndex, f, events), Moved(s, source);
            if PollerAfter(events) == Finished(false) && f.aliases.Done? && !f.delete.Refused? then
              && source !in s'.indices && newIndex in s'.indices && s'.indices[newIndex] == s.indices[newIndex]
              && (f.delete.Done? && !f.alias.Refused? && alias !in s'.indices ==> newIndex in RowsOfAlias(s'.rows, alias))
            else Survives(s, s', source)
    ensures var s' := AsyncOutcome(s, source, newIndex, f, events);
            match PollerAfter(events)
            case Finished(true) => newIndex in s'.indices <==> f.cleanup == Refused
            case Finished(false) => newIndex in s'.indices && s'.indices[newIndex] == s.indices[newIndex]
            case _ => s' == s
  {
    PostEffect(s, source, newIndex, f);
    DeletingAnotherKeeps(s, source, newIndex, f.cleanup);
  }
}
