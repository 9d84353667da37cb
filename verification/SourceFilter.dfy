// Source filtering of documents: a JSON tree is flattened to dotted keys, the keys are filtered,
// and the surviving entries are put back into a tree, one key at a time and in whatever order
// Go iterates the map.

module SourceFilter {
  import opened Wrappers
  import opened Strings

  // Null is Go's nil: a JSON null, an absent map entry and the padding of an array.
  datatype Json = Null | Scalar(text: string) | Obj(fields: map<string, Json>) | Arr(items: seq<Json>)
  {
    predicate IsLeaf() { Null? || Scalar? }
  }

  type Path = seq<string>

  // ---------- Trees and their leaves ----------

  // A Go slice never has more elements than an int can count.
  ghost predicate Sized(t: Json) {
    match t
    case Obj(m) => forall k :: k in m ==> Sized(m[k])
    case Arr(xs) => |xs| <= MAX_INT && forall i :: 0 <= i < |xs| ==> Sized(xs[i])
    case _ => true
  }

  ghost predicate NoEmpty(t: Json) {
    match t
    case Obj(m) => m != map[] && forall k :: k in m ==> NoEmpty(m[k])
    case Arr(xs) => xs != [] && forall i :: 0 <= i < |xs| ==> NoEmpty(xs[i])
    case _ => true
  }

  ghost predicate DotFree(t: Json) {
    match t
    case Obj(m) => forall k :: k in m ==> '.' !in k && DotFree(m[k])
    case Arr(xs) => forall i :: 0 <= i < |xs| ==> DotFree(xs[i])
    case _ => true
  }

  ghost predicate NoIntegerKeys(t: Json) {
    match t
    case Obj(m) => forall k :: k in m ==> Atoi(k).None? && NoIntegerKeys(m[k])
    case Arr(xs) => forall i :: 0 <= i < |xs| ==> NoIntegerKeys(xs[i])
    case _ => true
  }

  ghost predicate Clean(t: Json) {
    NoEmpty(t) && DotFree(t) && NoIntegerKeys(t)
  }

  // The child that a path token selects.
  function Child(t: Json, token: string): Option<Json> {
    match t
    case Obj(m) => if token in m then Some(m[token]) else None
    case Arr(xs) =>
      var i := Atoi(token);
      if i.Some? && 0 <= i.value < |xs| && token == Itoa(i.value) then Some(xs[i.value]) else None
    case _ => None
  }

  // The tree t has the leaf v at path p.
  predicate LeafAt(t: Json, p: Path, v: Json)
    decreases |p|
  {
    if p == [] then t.IsLeaf() && v == t
    else Child(t, p[0]).Some? && LeafAt(Child(t, p[0]).value, p[1..], v)
  }

  lemma {:induction false} ArrChild(xs: seq<Json>, i: nat)
    requires i < |xs| <= MAX_INT
    ensures Child(Arr(xs), Itoa(i)) == Some(xs[i])
  {
    AtoiItoa(i);
  }

  // ---------- Flattening ----------

  // The (key, value) pairs that flattening t writes when every key starts with base.
  ghost function Emissions(t: Json, base: string): set<(string, Json)>
    decreases t, 2
  {
    match t
    case Obj(m) => ObjEmissions(t, base, m.Keys)
    case Arr(xs) => ArrEmissions(t, base, |xs|)
    case _ => {}
  }

  ghost function ObjEmissions(t: Json, base: string, ks: set<string>): set<(string, Json)>
    requires t.Obj?
    decreases t, 1
  {
    set k, e | k in ks && k in t.fields && e in EmissionsAt(t.fields[k], base + k) :: e
  }

  ghost function ArrEmissions(t: Json, base: string, n: nat): set<(string, Json)>
    requires t.Arr? && n <= |t.items|
    decreases t, 1
  {
    set i, e | 0 <= i < n && e in EmissionsAt(t.items[i], base + Itoa(i)) :: e
  }

  ghost function EmissionsAt(c: Json, name: string): set<(string, Json)>
    decreases c, 3
  {
    if c.IsLeaf() then {(name, c)} else Emissions(c, name + ".")
  }

  // What a shared target map may hold after the pairs es have been written to it: when keys
  // collide the last write wins, and Go's map iteration decides which write that is.
  ghost predicate Flattened(before: map<string, Json>, after: map<string, Json>, es: set<(string, Json)>) {
    && (forall key :: key in after ==> (key, after[key]) in es || (key in before && after[key] == before[key]))
    && (forall e :: e in es ==> e.0 in after && (e.0, after[e.0]) in es)
    && (forall key :: key in before ==> key in after)
  }

  lemma FlattenedTrans(a: map<string, Json>, b: map<string, Json>, c: map<string, Json>,
                       es: set<(string, Json)>, fs: set<(string, Json)>)
    requires Flattened(a, b, es) && Flattened(b, c, fs)
    ensures Flattened(a, c, es + fs)
  {
    forall e | e in es + fs
      ensures e.0 in c && (e.0, c[e.0]) in es + fs
    {
      if e in es {
        assert e.0 in b && (e.0, b[e.0]) in es;
        assert e.0 in c;
      }
    }
  }

  class DotMap {
    var entries: map<string, Json>

    constructor ()
      ensures entries == map[]
    {
      entries := map[];
    }

    // dotNotate on a map or on an array; prefix is what the source passes, without the dot
    // that the array case adds itself.
    method DotNotate(source: Json, prefix: string)
      modifies this
      ensures Flattened(old(entries), entries, Emissions(source, if source.Arr? then prefix + "." else prefix))
      decreases source, 0, 2
    {
      if source.Obj? {
        DotNotateFields(source, prefix);
      } else if source.Arr? {
        DotNotateItems(source, prefix + ".");
      }
    }

    // The loop over a map, in any order.
    method DotNotateFields(source: Json, prefix: string)
      requires source.Obj?
      modifies this
      ensures Flattened(old(entries), entries, ObjEmissions(source, prefix, source.fields.Keys))
      decreases source, 0, 1
    {
      var rest := source.fields.Keys;
      while rest != {}
        invariant rest <= source.fields.Keys
        invariant Flattened(old(entries), entries, ObjEmissions(source, prefix, source.fields.Keys - rest))
        decreases rest
      {
        var k :| k in rest;
        ghost var mid, done := entries, source.fields.Keys - rest;
        DotNotateChild(source.fields[k], prefix + k);
        rest := rest - {k};
        FlattenedTrans(old(entries), mid, entries, ObjEmissions(source, prefix, done), EmissionsAt(source.fields[k], prefix + k));
        assert ObjEmissions(source, prefix, source.fields.Keys - rest)
            == ObjEmissions(source, prefix, done) + EmissionsAt(source.fields[k], prefix + k);
      }
      assert source.fields.Keys - rest == source.fields.Keys;
    }

    method DotNotateItems(source: Json, base: string)
      requires source.Arr?
      modifies this
      ensures Flattened(old(entries), entries, ArrEmissions(source, base, |source.items|))
      decreases source, 0, 1
    {
      var i := 0;
      while i < |source.items|
        invariant 0 <= i <= |source.items|
        invariant Flattened(old(entries), entries, ArrEmissions(source, base, i))
      {
        ghost var mid := entries;
        var name := base + Itoa(i);
        DotNotateChild(source.items[i], name);
        FlattenedTrans(old(entries), mid, entries, ArrEmissions(source, base, i), EmissionsAt(source.items[i], name));
        i := i + 1;
        assert ArrEmissions(source, base, i)
            == ArrEmissions(source, base, i - 1) + EmissionsAt(source.items[i - 1], name);
      }
    }

    method DotNotateChild(v: Json, name: string)
      modifies this
      ensures Flattened(old(entries), entries, EmissionsAt(v, name))
      decreases v, 1
    {
      if v.Obj? {
        DotNotate(v, name + ".");
      } else if v.Arr? {
        DotNotate(v, name);
      } else {
        entries := entries[name := v];
      }
    }
  }

  // ---------- Rebuilding ----------

  function PadTo(xs: seq<Json>, n: nat): (ys: seq<Json>)
    ensures |ys| == (if |xs| < n then n else |xs|) && xs <= ys
    ensures forall i :: |xs| <= i < |ys| ==> ys[i] == Null
  {
    xs + seq(if |xs| < n then n - |xs| else 0, _ => Null)
  }

  // Putting value at path into source; None when Go panics on a negative slice index.
  function Insert(source: Json, path: Path, value: Json): Option<Json>
    requires path != []
    decreases |path|
  {
    var token := path[0];
    var start := if !source.Null? then source else if Atoi(token).None? then Obj(map[]) else Arr([]);
    match start
    case Obj(m) =>
      var c := InsertChild(if token in m then m[token] else Null, path, value);
      if c.None? then None else Some(Obj(m[token := c.value]))
    case Arr(xs) =>
      var index := Atoi(token);
      if index.None? then Some(start)
      else if index.value < 0 then None
      else
        var padded := PadTo(xs, index.value + 1);
        var c := InsertChild(padded[index.value], path, value);
        if c.None? then None else Some(Arr(padded[index.value := c.value]))
    case _ => Some(start)
  }

  function InsertChild(child: Json, path: Path, value: Json): Option<Json>
    requires path != []
    decreases |path|, 0
  {
    if |path| == 1 then Some(value) else Insert(child, path[1..], value)
  }

  method MakeSpace(xs: seq<Json>, n: nat) returns (slots: seq<Json>)
    ensures slots == PadTo(xs, n)
  {
    slots := xs;
    while |slots| < n
      invariant slots == PadTo(xs, |slots|)
      invariant |slots| <= n || slots == xs
    {
      slots := slots + [Null];
    }
  }

  // generateMap works on the dotted key itself: one token is split off per call.
  method GenerateMap(source: Json, key: string, value: Json) returns (output: Option<Json>)
    ensures output == Insert(source, Split(key, '.'), value)
    decreases |key|, 1
  {
    var token := Split(key, '.')[0];
    var start := source;
    if source.Null? {
      start := if Atoi(token).None? then Obj(map[]) else Arr([]);
    }
    if start.Obj? {
      var child := GenerateChild(if token in start.fields then start.fields[token] else Null, key, value);
      if child.None? {
        return None;
      }
      return Some(Obj(start.fields[token := child.value]));
    } else if start.Arr? {
      var index := Atoi(token);
      if index.None? {
        return Some(start);
      }
      if index.value < 0 {
        return None;
      }
      var slots := MakeSpace(start.items, index.value + 1);
      var child := GenerateChild(slots[index.value], key, value);
      if child.None? {
        return None;
      }
      return Some(Arr(slots[index.value := child.value]));
    }
    return Some(start);
  }

  method GenerateChild(child: Json, key: string, value: Json) returns (output: Option<Json>)
    ensures output == InsertChild(child, Split(key, '.'), value)
    decreases |key|, 0
  {
    var tokens := Split(key, '.');
    if |tokens| == 1 {
      return Some(value);
    }
    SplitTail(key, '.');
    output := GenerateMap(child, key[|tokens[0]| + 1..], value);
  }

  // Inserting the entries of a flat map one after the other, in the given order.
  function Rebuild(flat: map<string, Json>, order: seq<string>): Option<Json>
    requires forall key :: key in order ==> key in flat
  {
    if order == [] then Some(Null)
    else
      var key := order[|order| - 1];
      var before := Rebuild(flat, order[..|order| - 1]);
      if before.None? then None else Insert(before.value, Split(key, '.'), flat[key])
  }

  ghost predicate IsOrdering(order: seq<string>, keys: set<string>) {
    && (forall key :: key in order <==> key in keys)
    && (forall i, j :: 0 <= i < j < |order| ==> order[i] != order[j])
  }

  // Go picks the iteration order; order reports the one that was picked.
  method DotNotationToMap(source: map<string, Json>) returns (output: Option<Json>, ghost order: seq<string>)
    ensures forall key :: key in order ==> key in source
    ensures output.Some? ==> IsOrdering(order, source.Keys)
    ensures output == Rebuild(source, order)
    ensures output.Some? ==> exists o :: IsOrdering(o, source.Keys) && output == Rebuild(source, o)
  {
    output, order := Some(Null), [];
    var rest := source.Keys;
    while rest != {}
      invariant rest <= source.Keys
      invariant IsOrdering(order, source.Keys - rest)
      invariant output.Some? && output == Rebuild(source, order)
      decreases rest
    {
      var key :| key in rest;
      output := GenerateMap(output.value, key, source[key]);
      order := order + [key];
      assert order[..|order| - 1] + [key] == order;
      rest := rest - {key};
      if output.None? {
        return;
      }
    }
  }

  // ---------- The reference tree ----------

  // The members of keep that start with token, without it.
  ghost function Under(keep: set<Path>, token: string): set<Path> {
    set p | p in keep && p != [] && p[0] == token :: p[1..]
  }

  ghost function LastKept(items: seq<Option<Json>>): (n: nat)
    ensures n <= |items|
    ensures n > 0 ==> items[n - 1].Some?
    ensures forall i :: n <= i < |items| ==> items[i].None?
  {
    if items == [] then 0
    else if items[|items| - 1].Some? then |items|
    else LastKept(items[..|items| - 1])
  }

  // The tree t cut down to the leaves whose path is in keep: an object loses the members that
  // keep nothing, an array keeps its positions, with null where nothing is kept, up to the last
  // position that keeps something.
  ghost function Prune(t: Json, keep: set<Path>): Option<Json>
    decreases t, 1
  {
    match t
    case Obj(m) => ObjOf(PruneFields(t, keep))
    case Arr(xs) => ArrOf(PruneItems(t, keep))
    case _ => if [] in keep then Some(t) else None
  }

  ghost function PruneFields(t: Json, keep: set<Path>): map<string, Json>
    requires t.Obj?
    decreases t, 0
  {
    map k | k in t.fields && Prune(t.fields[k], Under(keep, k)).Some? :: Prune(t.fields[k], Under(keep, k)).value
  }

  ghost function PruneItems(t: Json, keep: set<Path>): (items: seq<Option<Json>>)
    requires t.Arr?
    decreases t, 0
  {
    seq(|t.items|, i requires 0 <= i < |t.items| => Prune(t.items[i], Under(keep, Itoa(i))))
  }

  ghost function ObjOf(kept: map<string, Json>): Option<Json> {
    if kept == map[] then None else Some(Obj(kept))
  }

  ghost function ArrOf(items: seq<Option<Json>>): Option<Json> {
    var n := LastKept(items);
    if n == 0 then None else Some(Arr(seq(n, i requires 0 <= i < n => items[i].GetOr(Null))))
  }

  lemma UnderAdd(keep: set<Path>, p: Path, token: string)
    requires p != []
    ensures Under(keep + {p}, token) == if token == p[0] then Under(keep, token) + {p[1..]} else Under(keep, token)
  {
  }

  lemma InsertIntoObj(kept: map<string, Json>, p: Path, v: Json, c: Json)
    requires p != [] && Atoi(p[0]).None?
    requires InsertChild(if p[0] in kept then kept[p[0]] else Null, p, v) == Some(c)
    ensures Insert(ObjOf(kept).GetOr(Null), p, v) == ObjOf(kept[p[0] := c])
  {
  }

  lemma InsertIntoArr(items: seq<Option<Json>>, index: nat, p: Path, v: Json, c: Json)
    requires p != [] && Atoi(p[0]) == Some(index) && index < |items|
    requires InsertChild(items[index].GetOr(Null), p, v) == Some(c)
    ensures Insert(ArrOf(items).GetOr(Null), p, v) == ArrOf(items[index := Some(c)])
  {
    var items' := items[index := Some(c)];
    var n, n' := LastKept(items), LastKept(items');
    assert items'[index].Some? && (n > 0 ==> items'[n - 1].Some?);
    assert n' > index && n' >= n && (n' > index + 1 ==> items[n' - 1].Some?);
    var slots := ArrOf(items).GetOr(Arr([])).items;
    var padded := PadTo(slots, index + 1);
    assert padded[index] == items[index].GetOr(Null);
    assert padded[index := c] == ArrOf(items').value.items;
  }

  lemma PruneFieldsAdd(t: Json, keep: set<Path>, p: Path)
    requires t.Obj? && p != [] && p[0] in t.fields && Prune(t.fields[p[0]], Under(keep, p[0]) + {p[1..]}).Some?
    ensures PruneFields(t, keep + {p}) == PruneFields(t, keep)[p[0] := Prune(t.fields[p[0]], Under(keep, p[0]) + {p[1..]}).value]
  {
    forall k | k in t.fields
      ensures Under(keep + {p}, k) == if k == p[0] then Under(keep, k) + {p[1..]} else Under(keep, k)
    {
      UnderAdd(keep, p, k);
    }
  }

  lemma PruneItemsAdd(t: Json, keep: set<Path>, p: Path, index: nat)
    requires t.Arr? && p != [] && index < |t.items| && p[0] == Itoa(index)
    ensures PruneItems(t, keep + {p}) == PruneItems(t, keep)[index := Prune(t.items[index], Under(keep, p[0]) + {p[1..]})]
  {
    forall i | 0 <= i < |t.items|
      ensures Under(keep + {p}, Itoa(i)) == if i == index then Under(keep, p[0]) + {p[1..]} else Under(keep, Itoa(i))
    {
      UnderAdd(keep, p, Itoa(i));
      if Itoa(i) == p[0] {
        ItoaInjective(i, index);
      }
    }
  }

  lemma InsertPruneHere(t: Json, keep: set<Path>, p: Path, v: Json)
    requires p != [] && Child(t, p[0]).Some? && Sized(t) && (t.Obj? ==> Atoi(p[0]).None?)
    requires var child := Child(t, p[0]).value;
             var after := Prune(child, Under(keep, p[0]) + {p[1..]});
             after.Some? && InsertChild(Prune(child, Under(keep, p[0])).GetOr(Null), p, v) == after
    ensures Prune(t, keep + {p}).Some?
    ensures Insert(Prune(t, keep).GetOr(Null), p, v) == Prune(t, keep + {p})
  {
    var after := Prune(Child(t, p[0]).value, Under(keep, p[0]) + {p[1..]});
    if t.Obj? {
      PruneFieldsAdd(t, keep, p);
      InsertIntoObj(PruneFields(t, keep), p, v, after.value);
    } else {
      var index := Atoi(p[0]).value;
      PruneItemsAdd(t, keep, p, index);
      InsertIntoArr(PruneItems(t, keep), index, p, v, after.value);
    }
  }

  // One insertion step: adding the leaf at p to a pruned tree gives the tree pruned to one more path.
  lemma {:induction false} InsertPrune(t: Json, keep: set<Path>, p: Path, v: Json)
    requires p != [] && LeafAt(t, p, v)
    requires Sized(t) && NoIntegerKeys(t)
    ensures Prune(t, keep + {p}).Some?
    ensures Insert(Prune(t, keep).GetOr(Null), p, v) == Prune(t, keep + {p})
    decreases |p|
  {
    var child := Child(t, p[0]).value;
    if |p| == 1 {
      assert p[1..] == [] && [] in Under(keep, p[0]) + {p[1..]};
    } else {
      InsertPrune(child, Under(keep, p[0]), p[1..], v);
    }
    InsertPruneHere(t, keep, p, v);
  }

  // ---------- Keys and paths ----------

  lemma {:induction false} EmissionPath(t: Json, base: string, e: (string, Json)) returns (p: Path)
    requires !t.IsLeaf() && Sized(t) && e in Emissions(t, base)
    ensures p != [] && LeafAt(t, p, e.1) && e.0 == base + Join(p, '.')
    decreases t
  {
    var token: string, child: Json;
    if t.Obj? {
      var k :| k in t.fields && e in EmissionsAt(t.fields[k], base + k);
      token, child := k, t.fields[k];
    } else {
      var i :| 0 <= i < |t.items| && e in EmissionsAt(t.items[i], base + Itoa(i));
      token, child := Itoa(i), t.items[i];
      ArrChild(t.items, i);
    }
    assert Child(t, token) == Some(child) && e in EmissionsAt(child, base + token);
    if child.IsLeaf() {
      p := [token];
      assert p[1..] == [];
    } else {
      var q := EmissionPath(child, base + token + ".", e);
      p := [token] + q;
      assert p[1..] == q;
      assert base + token + "." + Join(q, '.') == base + Join(p, '.');
    }
  }

  lemma {:induction false} PathEmission(t: Json, base: string, p: Path, v: Json)
    requires p != [] && LeafAt(t, p, v)
    ensures (base + Join(p, '.'), v) in Emissions(t, base)
    decreases |p|
  {
    var token, child := p[0], Child(t, p[0]).value;
    var e := (base + Join(p, '.'), v);
    if |p| == 1 {
      assert p[1..] == [];
    } else {
      PathEmission(child, base + token + ".", p[1..], v);
      assert base + token + "." + Join(p[1..], '.') == e.0;
    }
    assert e in EmissionsAt(child, base + token);
    if t.Arr? {
      assert 0 <= Atoi(token).value < |t.items| && token == Itoa(Atoi(token).value);
    }
  }

  lemma {:induction false} LeafPathDotFree(t: Json, p: Path, v: Json)
    requires LeafAt(t, p, v) && DotFree(t)
    ensures SepFree(p, '.')
    decreases |p|
  {
    if p != [] {
      LeafPathDotFree(Child(t, p[0]).value, p[1..], v);
      if t.Arr? {
        ItoaLacks(Atoi(p[0]).value, '.');
      }
      assert p == [p[0]] + p[1..];
    }
  }

  lemma {:induction false} LeafUnique(t: Json, p: Path, v: Json, w: Json)
    requires LeafAt(t, p, v) && LeafAt(t, p, w)
    ensures v == w
    decreases |p|
  {
    if p != [] {
      LeafUnique(Child(t, p[0]).value, p[1..], v, w);
    }
  }

  // The flat map of t, whatever order it was written in, holds exactly the leaves of t.
  ghost predicate FlatOf(t: Json, flat: map<string, Json>) {
    && (forall key :: key in flat ==> LeafAt(t, Split(key, '.'), flat[key]))
    && (forall p, v :: p != [] && LeafAt(t, p, v) ==>
          Split(Join(p, '.'), '.') == p && Join(p, '.') in flat && flat[Join(p, '.')] == v)
  }

  lemma FlattenedIsFlatOf(t: Json, flat: map<string, Json>)
    requires !t.IsLeaf() && Sized(t) && DotFree(t)
    requires Flattened(map[], flat, Emissions(t, ""))
    ensures FlatOf(t, flat)
  {
    forall key | key in flat
      ensures LeafAt(t, Split(key, '.'), flat[key])
    {
      var p := EmissionPath(t, "", (key, flat[key]));
      assert key == Join(p, '.');
      LeafPathDotFree(t, p, flat[key]);
      SplitJoin(p, '.');
    }
    forall p, v | p != [] && LeafAt(t, p, v)
      ensures Split(Join(p, '.'), '.') == p && Join(p, '.') in flat && flat[Join(p, '.')] == v
    {
      PathEmission(t, "", p, v);
      LeafPathDotFree(t, p, v);
      SplitJoin(p, '.');
      assert "" + Join(p, '.') == Join(p, '.');
      assert (Join(p, '.'), v) in Emissions(t, "");
      LeafUnique(t, p, v, flat[Join(p, '.')]);
    }
  }

  ghost function PathsOf(keys: seq<string>): set<Path> {
    set key | key in keys :: Split(key, '.')
  }

  lemma PathsOfAppend(keys: seq<string>, key: string)
    ensures PathsOf(keys + [key]) == PathsOf(keys) + {Split(key, '.')}
  {
    assert key in keys + [key];
  }

  // Whatever order the entries are inserted in, the result is the pruned tree.
  lemma {:induction false} RebuildIsPrune(t: Json, flat: map<string, Json>, order: seq<string>)
    requires !t.IsLeaf() && Sized(t) && NoIntegerKeys(t)
    requires forall key :: key in order ==> key in flat && LeafAt(t, Split(key, '.'), flat[key])
    ensures Rebuild(flat, order) == Some(Prune(t, PathsOf(order)).GetOr(Null))
  {
    if order == [] {
      assert PathsOf(order) == {};
      PruneNothing(t);
    } else {
      var init, key := order[..|order| - 1], order[|order| - 1];
      assert key in order && order == init + [key];
      RebuildIsPrune(t, flat, init);
      PathsOfAppend(init, key);
      InsertPrune(t, PathsOf(init), Split(key, '.'), flat[key]);
    }
  }

  lemma {:induction false} PruneNothing(t: Json)
    ensures Prune(t, {}).None?
    decreases t
  {
    forall token
      ensures Under({}, token) == {}
    {
    }
    if t.Obj? {
      forall k | k in t.fields { PruneNothing(t.fields[k]); }
    } else if t.Arr? {
      forall i | 0 <= i < |t.items| { PruneNothing(t.items[i]); }
    }
  }

  lemma {:induction false} PruneAll(t: Json, keep: set<Path>)
    requires Sized(t) && NoEmpty(t)
    requires forall p, v :: LeafAt(t, p, v) ==> p in keep
    ensures Prune(t, keep) == Some(t)
    decreases t
  {
    forall token | Child(t, token).Some?
      ensures forall p, v :: LeafAt(Child(t, token).value, p, v) ==> p in Under(keep, token)
    {
      forall p, v | LeafAt(Child(t, token).value, p, v)
        ensures p in Under(keep, token)
      {
        assert ([token] + p)[1..] == p;
        assert LeafAt(t, [token] + p, v);
      }
    }
    match t
    case Obj(m) =>
      forall k | k in m
        ensures Prune(m[k], Under(keep, k)) == Some(m[k])
      {
        assert Child(t, k) == Some(m[k]);
        PruneAll(m[k], Under(keep, k));
      }
      assert PruneFields(t, keep) == m;
    case Arr(xs) =>
      forall i | 0 <= i < |xs|
        ensures Prune(xs[i], Under(keep, Itoa(i))) == Some(xs[i])
      {
        ArrChild(xs, i);
        PruneAll(xs[i], Under(keep, Itoa(i)));
      }
      assert PruneItems(t, keep)[|xs| - 1].Some?;
      assert ArrOf(PruneItems(t, keep)).value.items == xs;
    case _ =>
      assert LeafAt(t, [], t);
  }

  // ---------- Which leaves a pruned tree has ----------

  lemma UnderMember(keep: set<Path>, p: Path)
    requires p != []
    ensures p in keep <==> p[1..] in Under(keep, p[0])
  {
    if p[1..] in Under(keep, p[0]) {
      var q :| q in keep && q != [] && q[0] == p[0] && q[1..] == p[1..];
      assert q == [q[0]] + q[1..] == p;
    }
  }

  lemma {:induction false} PruneKeeps(t: Json, keep: set<Path>, p: Path, v: Json)
    requires Sized(t) && LeafAt(t, p, v) && p in keep
    ensures Prune(t, keep).Some? && LeafAt(Prune(t, keep).value, p, v)
    decreases |p|
  {
    if p != [] {
      UnderMember(keep, p);
      PruneKeeps(Child(t, p[0]).value, Under(keep, p[0]), p[1..], v);
      if t.Obj? {
        assert p[0] in PruneFields(t, keep);
      } else {
        var items, i := PruneItems(t, keep), Atoi(p[0]).value;
        assert items[i].Some?;
        assert i < LastKept(items);
        ArrChild(ArrOf(items).value.items, i);
      }
    }
  }

  lemma {:induction false} PruneHasLeaf(t: Json, keep: set<Path>) returns (p: Path, v: Json)
    requires Sized(t) && Prune(t, keep).Some?
    ensures p in keep && LeafAt(t, p, v)
    decreases t
  {
    if t.IsLeaf() {
      return [], t;
    }
    var token: string;
    if t.Obj? {
      token :| token in PruneFields(t, keep);
    } else {
      var n := LastKept(PruneItems(t, keep));
      token := Itoa(n - 1);
      ArrChild(t.items, n - 1);
    }
    var q, w := PruneHasLeaf(Child(t, token).value, Under(keep, token));
    p, v := [token] + q, w;
    assert p[1..] == q;
    UnderMember(keep, p);
  }

  // A padding slot: p ends in an array position before a position through which a kept leaf goes.
  ghost predicate Padding(t: Json, keep: set<Path>, p: Path) {
    p != [] && exists q, w :: q in keep && LeafAt(t, q, w) && PadsBefore(p, q)
  }

  ghost predicate PadsBefore(p: Path, q: Path)
    requires p != []
  {
    var n := |p| - 1;
    && |q| > n && p[..n] == q[..n]
    && Atoi(p[n]).Some? && Atoi(q[n]).Some? && Atoi(p[n]).value < Atoi(q[n]).value
  }

  // A leaf of a pruned tree comes from the pruned child, or is a null in a slot that keeps nothing.
  lemma PrunedChild(t: Json, keep: set<Path>, p: Path, v: Json)
    requires Sized(t) && p != [] && Prune(t, keep).Some? && LeafAt(Prune(t, keep).value, p, v)
    ensures Child(t, p[0]).Some?
    ensures var after := Prune(Child(t, p[0]).value, Under(keep, p[0]));
            if after.Some? then LeafAt(after.value, p[1..], v)
            else t.Arr? && |p| == 1 && v == Null && Atoi(p[0]).value < LastKept(PruneItems(t, keep)) - 1
  {
    var r := Prune(t, keep).value;
    if t.Obj? {
      assert r == Obj(PruneFields(t, keep));
      assert p[0] in PruneFields(t, keep);
    } else {
      PrunedSlot(PruneItems(t, keep), p, v);
      var i := Atoi(p[0]).value;
      assert PruneItems(t, keep)[i] == Prune(t.items[i], Under(keep, Itoa(i)));
    }
  }

  lemma PrunedSlot(items: seq<Option<Json>>, p: Path, v: Json)
    requires p != [] && ArrOf(items).Some? && LeafAt(ArrOf(items).value, p, v)
    ensures Atoi(p[0]).Some? && 0 <= Atoi(p[0]).value < |items| && p[0] == Itoa(Atoi(p[0]).value)
    ensures var item := items[Atoi(p[0]).value];
            if item.Some? then LeafAt(item.value, p[1..], v)
            else |p| == 1 && v == Null && Atoi(p[0]).value < LastKept(items) - 1
  {
    var i := Atoi(p[0]).value;
    assert ArrOf(items).value.items[i] == items[i].GetOr(Null);
  }

  lemma PaddingBelow(t: Json, keep: set<Path>, p: Path)
    requires |p| > 1 && Child(t, p[0]).Some? && Padding(Child(t, p[0]).value, Under(keep, p[0]), p[1..])
    ensures Padding(t, keep, p)
  {
    var q, w :| q in Under(keep, p[0]) && LeafAt(Child(t, p[0]).value, q, w) && PadsBefore(p[1..], q);
    var q' := [p[0]] + q;
    assert q'[1..] == q;
    UnderMember(keep, q');
    assert LeafAt(t, q', w);
    assert p[..|p| - 1] == [p[0]] + p[1..][..|p| - 2];
    assert q'[..|p| - 1] == [p[0]] + q[..|p| - 2];
  }

  lemma PaddingHere(t: Json, keep: set<Path>, p: Path, n: nat)
    requires t.Arr? && Sized(t) && |p| == 1 && Atoi(p[0]).Some? && Atoi(p[0]).value < n < |t.items|
    requires Prune(t.items[n], Under(keep, Itoa(n))).Some?
    ensures Padding(t, keep, p)
  {
    var token := Itoa(n);
    ArrChild(t.items, n);
    AtoiItoa(n);
    var q, w := PruneHasLeaf(t.items[n], Under(keep, token));
    var q' := [token] + q;
    assert q'[1..] == q;
    UnderMember(keep, q');
    assert LeafAt(t, q', w) && PadsBefore(p, q');
  }

  lemma {:induction false} PruneOnly(t: Json, keep: set<Path>, p: Path, v: Json)
    requires Sized(t) && Prune(t, keep).Some? && LeafAt(Prune(t, keep).value, p, v)
    ensures (p in keep && LeafAt(t, p, v)) || (v == Null && Padding(t, keep, p))
    decreases |p|
  {
    if p != [] {
      PrunedChild(t, keep, p, v);
      var child := Child(t, p[0]).value;
      if Prune(child, Under(keep, p[0])).Some? {
        PruneOnly(child, Under(keep, p[0]), p[1..], v);
        UnderMember(keep, p);
        if Padding(child, Under(keep, p[0]), p[1..]) {
          PaddingBelow(t, keep, p);
        }
      } else {
        var n := LastKept(PruneItems(t, keep));
        assert PruneItems(t, keep)[n - 1].Some?;
        PaddingHere(t, keep, p, n - 1);
      }
    }
  }

  // ---------- Filtering ----------

  datatype Verdict = BadPattern | Matched | Unmatched

  // The regular expression engine, on a pattern and a text.
  type Engine = (string, string) -> Verdict

  datatype Rules = Rules(re: Engine, includes: seq<string>, excludes: seq<string>)

  // strings.Replace(pattern, "*", ".*", -1)
  function Widen(pattern: string): string {
    if pattern == "" then ""
    else (if pattern[0] == '*' then ".*" else [pattern[0]]) + Widen(pattern[1..])
  }

  function DigitRun(s: string): (n: nat)
    ensures n <= |s|
    ensures AllDigits(s[..n])
    ensures n < |s| ==> !IsDigit(s[n])
  {
    if s != "" && IsDigit(s[0]) then
      var n := DigitRun(s[1..]);
      assert s[..n + 1] == [s[0]] + s[1..][..n];
      n + 1
    else 0
  }

  // Replacing every non-overlapping match of \.[0-9]+\. by a dot.
  function StripIndices(key: string): string
    decreases |key|
  {
    if key == "" then ""
    else if key[0] != '.' then [key[0]] + StripIndices(key[1..])
    else
      var n := DigitRun(key[1..]);
      if 0 < n && n + 1 < |key| && key[n + 1] == '.' then "." + StripIndices(key[n + 2..])
      else "." + StripIndices(key[1..])
  }

  // Every star becomes ".*", and nothing else changes.
  lemma {:induction false} WidenMeaning(a: string, b: string, c: char)
    ensures Widen("*") == ".*" && (c != '*' ==> Widen([c]) == [c])
    ensures Widen(a + b) == Widen(a) + Widen(b)
  {
    if a == "" {
      assert a + b == b;
    } else {
      assert (a + b)[1..] == a[1..] + b;
      WidenMeaning(a[1..], b, c);
    }
  }

  // Token i of a key is an array position that is left out: a number with a token on both sides that
  // does not directly follow one that is left out.
  predicate LeftOut(tokens: seq<string>, i: nat)
    requires i < |tokens|
  {
    0 < i < |tokens| - 1 && tokens[i] != "" && AllDigits(tokens[i]) && !LeftOut(tokens, i - 1)
  }

  function RestOf(tokens: seq<string>, i: nat): seq<string>
    requires i <= |tokens|
    decreases |tokens| - i
  {
    if i == |tokens| then [] else (if LeftOut(tokens, i) then [] else [tokens[i]]) + RestOf(tokens, i + 1)
  }

  // The text that the patterns see: the key without the array positions that are left out.
  lemma StripMeaning(tokens: seq<string>)
    requires tokens != [] && SepFree(tokens, '.')
    ensures StripIndices(Join(tokens, '.')) == Join(RestOf(tokens, 0), '.')
  {
    StripFrom(tokens, 0);
    assert tokens[0..] == tokens;
  }

  lemma {:induction false} StripFrom(tokens: seq<string>, i: nat)
    requires i < |tokens| && SepFree(tokens, '.') && !LeftOut(tokens, i)
    ensures StripIndices(Join(tokens[i..], '.')) == Join(RestOf(tokens, i), '.')
    decreases |tokens| - i
  {
    if i == |tokens| - 1 {
      StripLast(tokens, i);
    } else {
      var next := NextKept(tokens, i);
      StripStep(tokens, i);
      RestStep(tokens, i);
      StripFrom(tokens, next);
      JoinAppend([tokens[i]], RestOf(tokens, next), '.');
    }
  }

  // The token after one that stays, or the one after that.
  function NextKept(tokens: seq<string>, i: nat): (next: nat)
    requires i + 1 < |tokens| && !LeftOut(tokens, i)
    ensures i < next < |tokens| && !LeftOut(tokens, next)
  {
    if LeftOut(tokens, i + 1) then i + 2 else i + 1
  }

  lemma StripLast(tokens: seq<string>, i: nat)
    requires i == |tokens| - 1 && SepFree(tokens, '.') && !LeftOut(tokens, i)
    ensures StripIndices(Join(tokens[i..], '.')) == Join(RestOf(tokens, i), '.')
  {
    assert tokens[i] in tokens && tokens[i..] == [tokens[i]];
    assert RestOf(tokens, i) == [tokens[i]] + RestOf(tokens, i + 1);
    StripToken(tokens[i], "");
    assert tokens[i] + "" == tokens[i];
  }

  lemma RestStep(tokens: seq<string>, i: nat)
    requires i + 1 < |tokens| && !LeftOut(tokens, i)
    ensures RestOf(tokens, i) == [tokens[i]] + RestOf(tokens, NextKept(tokens, i))
    ensures RestOf(tokens, NextKept(tokens, i)) != []
  {
    assert RestOf(tokens, i) == [tokens[i]] + RestOf(tokens, i + 1);
    if LeftOut(tokens, i + 1) {
      assert RestOf(tokens, i + 1) == [] + RestOf(tokens, i + 2);
    }
  }

  lemma StripStep(tokens: seq<string>, i: nat)
    requires i + 1 < |tokens| && SepFree(tokens, '.') && !LeftOut(tokens, i)
    ensures StripIndices(Join(tokens[i..], '.')) == tokens[i] + "." + StripIndices(Join(tokens[NextKept(tokens, i)..], '.'))
  {
    var t, rest := tokens[i], Join(tokens[i + 1..], '.');
    assert t in tokens && tokens[i..][1..] == tokens[i + 1..];
    assert Join(tokens[i..], '.') == t + ("." + rest);
    StripToken(t, "." + rest);
    StripDot(tokens, i + 1);
  }

  // A token goes through unchanged.
  lemma {:induction false} StripToken(t: string, s: string)
    requires '.' !in t
    ensures StripIndices(t + s) == t + StripIndices(s)
  {
    if t == "" {
      assert t + s == s;
    } else {
      assert t[0] in t && (t + s)[1..] == t[1..] + s;
      StripToken(t[1..], s);
    }
  }

  // After a token that stays, the dot and what follows it.
  lemma StripDot(tokens: seq<string>, i: nat)
    requires 0 < i < |tokens| && SepFree(tokens, '.') && !LeftOut(tokens, i - 1)
    ensures StripIndices("." + Join(tokens[i..], '.'))
         == "." + StripIndices(Join(if LeftOut(tokens, i) then tokens[i + 1..] else tokens[i..], '.'))
  {
    var t, rest := tokens[i], Join(tokens[i..], '.');
    assert t in tokens;
    var tail := if i + 1 < |tokens| then "." + Join(tokens[i + 1..], '.') else "";
    assert rest == t + tail by {
      assert tokens[i..][1..] == tokens[i + 1..];
    }
    DigitRunStops(t, tail);
    var key := "." + rest;
    assert key[1..] == rest;
    if LeftOut(tokens, i) {
      assert key[|t| + 2..] == Join(tokens[i + 1..], '.');
    }
  }

  lemma {:induction false} DigitRunStops(t: string, tail: string)
    requires '.' !in t && (tail == "" || tail[0] == '.')
    ensures AllDigits(t) ==> DigitRun(t + tail) == |t|
    ensures !AllDigits(t) ==> DigitRun(t + tail) < |t| && t[DigitRun(t + tail)] != '.'
  {
    if t == "" {
      assert t + tail == tail;
    } else {
      assert (t + tail)[1..] == t[1..] + tail && t == [t[0]] + t[1..];
      assert t[0] in t && forall c :: c in t[1..] ==> c in t;
      if IsDigit(t[0]) {
        DigitRunStops(t[1..], tail);
      }
    }
  }

  // The key survives: some pattern of includes matches, or none compiles to begin with, and no
  // pattern of excludes matches.
  predicate Passes(rules: Rules, key: string) {
    var text := StripIndices(key);
    && ((exists i :: 0 <= i < |rules.includes| && rules.re(Widen(rules.includes[i]), text) == Matched)
        || (forall i :: 0 <= i < |rules.includes| ==> rules.re(Widen(rules.includes[i]), text) == BadPattern))
    && !(exists i :: 0 <= i < |rules.excludes| && rules.re(Widen(rules.excludes[i]), text) == Matched)
  }

  method IsValidKey(rules: Rules, key: string) returns (valid: bool)
    ensures valid == Passes(rules, key)
  {
    valid := true;
    var text := StripIndices(key);
    for i := 0 to |rules.includes|
      invariant forall j :: 0 <= j < i ==> rules.re(Widen(rules.includes[j]), text) != Matched
      invariant valid == forall j :: 0 <= j < i ==> rules.re(Widen(rules.includes[j]), text) == BadPattern
    {
      var verdict := rules.re(Widen(rules.includes[i]), text);
      if verdict == Matched {
        valid := true;
        break;
      } else if verdict == Unmatched {
        valid := false;
      }
    }
    for i := 0 to |rules.excludes|
      invariant forall j :: 0 <= j < i ==> rules.re(Widen(rules.excludes[j]), text) != Matched
    {
      if rules.re(Widen(rules.excludes[i]), text) == Matched {
        valid := false;
        break;
      }
    }
  }

  ghost function Surviving(rules: Rules, flat: map<string, Json>): map<string, Json> {
    map key | key in flat && Passes(rules, key) :: flat[key]
  }

  // What ApplySourceFiltering may return: it flattens in some order and rebuilds in some order.
  ghost predicate Outcome(rules: Rules, source: map<string, Json>, output: Option<Json>) {
    exists flat, order ::
      && Flattened(map[], flat, Emissions(Obj(source), ""))
      && (forall key :: key in order ==> key in Surviving(rules, flat))
      && (output.Some? ==> IsOrdering(order, Surviving(rules, flat).Keys))
      && output == Rebuild(Surviving(rules, flat), order)
  }

  method ApplySourceFiltering(rules: Rules, source: map<string, Json>)
    returns (output: Option<Json>)
    ensures rules.includes == [] && rules.excludes == [] ==> output == Some(Obj(source))
    ensures rules.includes != [] || rules.excludes != [] ==> Outcome(rules, source, output)
  {
    if rules.includes == [] && rules.excludes == [] {
      return Some(Obj(source));
    }
    var target := new DotMap();
    target.DotNotate(Obj(source), "");
    var flat := target.entries;
    var filtered: map<string, Json> := map[];
    var rest := flat.Keys;
    while rest != {}
      invariant rest <= flat.Keys
      invariant filtered == map key | key in flat && key !in rest && Passes(rules, key) :: flat[key]
      decreases rest
    {
      var key :| key in rest;
      var valid := IsValidKey(rules, key);
      if valid {
        filtered := filtered[key := flat[key]];
      }
      rest := rest - {key};
    }
    assert filtered == Surviving(rules, flat);
    ghost var order;
    output, order := DotNotationToMap(filtered);
  }

  // The leaf paths of the source whose key passes.
  ghost function KeptPaths(rules: Rules, source: map<string, Json>): set<Path> {
    set e | e in Emissions(Obj(source), "") && Passes(rules, e.0) :: Split(e.0, '.')
  }

  // On a clean document every iteration order gives the same tree, and Go never panics.
  lemma FilterIsPrune(rules: Rules, source: map<string, Json>, output: Option<Json>)
    requires Sized(Obj(source)) && Clean(Obj(source))
    requires Outcome(rules, source, output)
    ensures output == Some(Prune(Obj(source), KeptPaths(rules, source)).GetOr(Null))
  {
    var t := Obj(source);
    var flat, order :|
      && Flattened(map[], flat, Emissions(t, ""))
      && (forall key :: key in order ==> key in Surviving(rules, flat))
      && (output.Some? ==> IsOrdering(order, Surviving(rules, flat).Keys))
      && output == Rebuild(Surviving(rules, flat), order);
    FlattenedIsFlatOf(t, flat);
    RebuildIsPrune(t, Surviving(rules, flat), order);
    forall p
      ensures p in PathsOf(order) <==> p in KeptPaths(rules, source)
    {
      if p in KeptPaths(rules, source) {
        var e :| e in Emissions(t, "") && Passes(rules, e.0) && p == Split(e.0, '.');
        assert e.0 in Surviving(rules, flat);
        assert e.0 in order;
      }
      if p in PathsOf(order) {
        var key :| key in order && p == Split(key, '.');
        assert (key, flat[key]) in Emissions(t, "");
      }
    }
    assert PathsOf(order) == KeptPaths(rules, source);
  }

  lemma KeptPathsMember(rules: Rules, source: map<string, Json>, p: Path, v: Json)
    requires Sized(Obj(source)) && DotFree(Obj(source)) && LeafAt(Obj(source), p, v)
    ensures p in KeptPaths(rules, source) <==> Passes(rules, Join(p, '.'))
  {
    var t := Obj(source);
    LeafPathDotFree(t, p, v);
    SplitJoin(p, '.');
    PathEmission(t, "", p, v);
    assert "" + Join(p, '.') == Join(p, '.');
    assert (Join(p, '.'), v) in Emissions(t, "");
    if p in KeptPaths(rules, source) {
      var e :| e in Emissions(t, "") && Passes(rules, e.0) && p == Split(e.0, '.');
      JoinSplit(e.0, '.');
    }
  }

  // A pattern with widened stars matches the path without the array positions that are left out.
  predicate Hits(rules: Rules, pattern: string, p: Path)
    requires p != []
  {
    rules.re(Widen(pattern), Join(RestOf(p, 0), '.')) == Matched
  }

  // Some include matches, or none of them compiles, and no exclude matches.
  predicate PathPasses(rules: Rules, p: Path)
    requires p != []
  {
    && ((exists i :: 0 <= i < |rules.includes| && Hits(rules, rules.includes[i], p))
        || (forall i :: 0 <= i < |rules.includes| ==> rules.re(Widen(rules.includes[i]), Join(RestOf(p, 0), '.')) == BadPattern))
    && (forall i :: 0 <= i < |rules.excludes| ==> !Hits(rules, rules.excludes[i], p))
  }

  // The path is an array slot before one on the way to a leaf whose path passes.
  ghost predicate Fills(rules: Rules, source: map<string, Json>, p: Path) {
    p != [] && exists q, w :: q != [] && LeafAt(Obj(source), q, w) && PathPasses(rules, q) && PadsBefore(p, q)
  }

  lemma PassesOnPath(rules: Rules, p: Path)
    requires p != [] && SepFree(p, '.')
    ensures Passes(rules, Join(p, '.')) <==> PathPasses(rules, p)
  {
    StripMeaning(p);
  }

  // Filtering keeps every leaf whose path passes, in place and with its value, and adds nothing but
  // the null padding of arrays.
  lemma FilterKeepsExactly(rules: Rules, source: map<string, Json>, output: Option<Json>)
    requires Sized(Obj(source)) && Clean(Obj(source))
    requires Outcome(rules, source, output)
    ensures output.Some?
    ensures forall p, v :: LeafAt(Obj(source), p, v) && PathPasses(rules, p) ==> LeafAt(output.value, p, v)
    ensures forall p, v :: LeafAt(output.value, p, v) && p != [] ==>
              || (LeafAt(Obj(source), p, v) && PathPasses(rules, p))
              || (v == Null && Fills(rules, source, p))
  {
    var t, keep := Obj(source), KeptPaths(rules, source);
    FilterIsPrune(rules, source, output);
    forall p, v | LeafAt(t, p, v) && PathPasses(rules, p)
      ensures LeafAt(output.value, p, v)
    {
      LeafPathPasses(rules, t, p, v);
      KeptPathsMember(rules, source, p, v);
      PruneKeeps(t, keep, p, v);
    }
    forall p, v | LeafAt(output.value, p, v) && p != []
      ensures (LeafAt(t, p, v) && PathPasses(rules, p)) || (v == Null && Fills(rules, source, p))
    {
      PruneOnly(t, keep, p, v);
      if p in keep && LeafAt(t, p, v) {
        KeptPathsMember(rules, source, p, v);
        LeafPathPasses(rules, t, p, v);
      } else if v == Null && Padding(t, keep, p) {
        PaddingFills(rules, source, p);
      }
    }
  }

  lemma PaddingFills(rules: Rules, source: map<string, Json>, p: Path)
    requires Sized(Obj(source)) && DotFree(Obj(source)) && Padding(Obj(source), KeptPaths(rules, source), p)
    ensures Fills(rules, source, p)
  {
    var q, w :| q in KeptPaths(rules, source) && LeafAt(Obj(source), q, w) && PadsBefore(p, q);
    KeptPathsMember(rules, source, q, w);
    LeafPathPasses(rules, Obj(source), q, w);
  }

  lemma LeafPathPasses(rules: Rules, t: Json, p: Path, v: Json)
    requires t.Obj? && DotFree(t) && LeafAt(t, p, v)
    ensures p != [] && (Passes(rules, Join(p, '.')) <==> PathPasses(rules, p))
  {
    LeafPathDotFree(t, p, v);
    PassesOnPath(rules, p);
  }

  // ---------- The round trip, exactly ----------

  // Flattening t and rebuilding it gives t back, whatever iteration orders Go picks.
  ghost predicate RoundTrips(t: Json) {
    forall flat, order :: Flattened(map[], flat, Emissions(t, "")) && IsOrdering(order, flat.Keys) ==>
      Rebuild(flat, order) == Some(t)
  }

  lemma CleanRoundTrips(t: Json)
    requires t.Obj? && Sized(t) && Clean(t)
    ensures RoundTrips(t)
  {
    forall flat, order | Flattened(map[], flat, Emissions(t, "")) && IsOrdering(order, flat.Keys)
      ensures Rebuild(flat, order) == Some(t)
    {
      FlattenedIsFlatOf(t, flat);
      RebuildIsPrune(t, flat, order);
      forall p, v | LeafAt(t, p, v)
        ensures p in PathsOf(order)
      {
        assert Join(p, '.') in order;
      }
      PruneAll(t, PathsOf(order));
    }
  }

  lemma {:induction false} OrderingFrom(first: string, keys: set<string>) returns (order: seq<string>)
    requires first in keys
    ensures IsOrdering(order, keys) && order[0] == first
    decreases keys
  {
    if keys - {first} == {} {
      order := [first];
    } else {
      var last :| last in keys - {first};
      var init := OrderingFrom(first, keys - {last});
      order := init + [last];
    }
  }

  lemma {:induction false} SomeFlattening(es: set<(string, Json)>) returns (flat: map<string, Json>)
    ensures Flattened(map[], flat, es)
    decreases es
  {
    if es == {} {
      flat := map[];
    } else {
      var e :| e in es;
      var rest := SomeFlattening(es - {e});
      flat := rest[e.0 := e.1];
      FlattenedTrans(map[], rest, flat, es - {e}, {e});
      assert es - {e} + {e} == es;
    }
  }

  // No rebuilt tree has an empty container or a key with a dot.
  lemma {:induction false} InsertTidy(source: Json, p: Path, v: Json)
    requires p != [] && SepFree(p, '.') && v.IsLeaf()
    requires NoEmpty(source) && DotFree(source) && Insert(source, p, v).Some?
    ensures NoEmpty(Insert(source, p, v).value) && DotFree(Insert(source, p, v).value)
    decreases |p|
  {
    var token := p[0];
    if |p| > 1 {
      if source.Obj? && token in source.fields {
        InsertTidy(source.fields[token], p[1..], v);
      } else if source.Arr? && Atoi(token).Some? && 0 <= Atoi(token).value < |source.items| {
        InsertTidy(source.items[Atoi(token).value], p[1..], v);
      } else if !source.Scalar? && !(source.Arr? && (Atoi(token).None? || Atoi(token).value < 0))
                && !(source.Null? && Atoi(token).Some? && Atoi(token).value < 0) {
        InsertTidy(Null, p[1..], v);
      }
    }
  }

  lemma {:induction false} RebuildTidy(flat: map<string, Json>, order: seq<string>)
    requires forall key :: key in order ==> key in flat
    requires forall key :: key in flat ==> flat[key].IsLeaf()
    ensures var r := Rebuild(flat, order);
            r.Some? ==> NoEmpty(r.value) && DotFree(r.value)
  {
    if order != [] {
      var key := order[|order| - 1];
      RebuildTidy(flat, order[..|order| - 1]);
      var before := Rebuild(flat, order[..|order| - 1]);
      if before.Some? && Insert(before.value, Split(key, '.'), flat[key]).Some? {
        InsertTidy(before.value, Split(key, '.'), flat[key]);
      }
    }
  }

  // r has an array somewhere at a place where t has an object.
  ghost predicate Wrong(r: Json, t: Json) {
    || (r.Arr? && t.Obj?)
    || (r.Obj? && t.Obj? && exists k :: k in r.fields && k in t.fields && Wrong(r.fields[k], t.fields[k]))
    || (r.Arr? && t.Arr? && exists i :: 0 <= i < |r.items| && i < |t.items| && Wrong(r.items[i], t.items[i]))
  }

  lemma {:induction false} WrongDiffers(r: Json, t: Json)
    requires Wrong(r, t)
    ensures r != t
    decreases t
  {
    if r == t {
      if t.Obj? {
        var k :| k in t.fields && Wrong(r.fields[k], t.fields[k]);
        WrongDiffers(r.fields[k], t.fields[k]);
      } else {
        var i :| 0 <= i < |t.items| && Wrong(r.items[i], t.items[i]);
        WrongDiffers(r.items[i], t.items[i]);
      }
    }
  }

  lemma {:induction false} WrongStays(r: Json, t: Json, p: Path, v: Json)
    requires Wrong(r, t) && p != [] && LeafAt(t, p, v)
    ensures Insert(r, p, v).None? || Wrong(Insert(r, p, v).value, t)
    decreases |p|
  {
    var after := Insert(r, p, v);
    if after.Some? && r.Obj? {
      var k :| k in r.fields && k in t.fields && Wrong(r.fields[k], t.fields[k]);
      if k == p[0] {
        assert |p| > 1;
        assert InsertChild(r.fields[k], p, v) == Insert(r.fields[k], p[1..], v);
        WrongStays(r.fields[k], t.fields[k], p[1..], v);
      } else {
        assert after.value.fields[k] == r.fields[k];
      }
      assert Wrong(after.value.fields[k], t.fields[k]);
    } else if after.Some? && t.Arr? {
      var i :| 0 <= i < |r.items| && i < |t.items| && Wrong(r.items[i], t.items[i]);
      if Atoi(p[0]).value == i {
        assert |p| > 1;
        assert InsertChild(r.items[i], p, v) == Insert(r.items[i], p[1..], v);
        WrongStays(r.items[i], t.items[i], p[1..], v);
      }
      assert Wrong(after.value.items[i], t.items[i]);
    }
  }

  lemma {:induction false} SomeLeaf(t: Json) returns (p: Path, v: Json)
    requires NoEmpty(t) && Sized(t)
    ensures LeafAt(t, p, v)
    decreases t
  {
    if t.IsLeaf() {
      p, v := [], t;
    } else {
      var token, child := "", t;
      if t.Obj? {
        token :| token in t.fields;
        child := t.fields[token];
      } else {
        token, child := Itoa(0), t.items[0];
        ArrChild(t.items, 0);
      }
      var q, w := SomeLeaf(child);
      p, v := [token] + q, w;
      assert p[1..] == q;
    }
  }

  // A leaf below an integer-like key which, when it is inserted first, makes an array of the object.
  lemma {:induction false} FirstWrong(t: Json) returns (p: Path, v: Json)
    requires NoEmpty(t) && Sized(t) && !NoIntegerKeys(t)
    ensures p != [] && LeafAt(t, p, v)
    ensures Insert(Null, p, v).None? || Wrong(Insert(Null, p, v).value, t)
    decreases t
  {
    if t.Obj? && exists k :: k in t.fields && Atoi(k).Some? {
      var k :| k in t.fields && Atoi(k).Some?;
      var q, w := SomeLeaf(t.fields[k]);
      p, v := [k] + q, w;
      assert p[1..] == q;
    } else if t.Obj? {
      var k :| k in t.fields && !NoIntegerKeys(t.fields[k]);
      var q, w := FirstWrong(t.fields[k]);
      p, v := [k] + q, w;
      assert p[1..] == q;
    } else {
      var i :| 0 <= i < |t.items| && !NoIntegerKeys(t.items[i]);
      var q, w := FirstWrong(t.items[i]);
      ArrChild(t.items, i);
      AtoiItoa(i);
      p, v := [Itoa(i)] + q, w;
      assert p[1..] == q;
    }
  }

  lemma {:induction false} RebuildStaysWrong(t: Json, flat: map<string, Json>, order: seq<string>)
    requires order != [] && FlatOf(t, flat) && forall key :: key in order ==> key in flat
    requires var first := Insert(Null, Split(order[0], '.'), flat[order[0]]);
             first.None? || Wrong(first.value, t)
    ensures Rebuild(flat, order).None? || Wrong(Rebuild(flat, order).value, t)
  {
    var init, key := order[..|order| - 1], order[|order| - 1];
    assert key in order;
    if init == [] {
      assert Rebuild(flat, init) == Some(Null);
    } else {
      assert init[0] == order[0];
      RebuildStaysWrong(t, flat, init);
      if Rebuild(flat, init).Some? {
        WrongStays(Rebuild(flat, init).value, t, Split(key, '.'), flat[key]);
      }
    }
  }

  lemma RoundTripsAreClean(t: Json)
    requires t.Obj? && Sized(t) && RoundTrips(t)
    ensures Clean(t)
  {
    var flat := SomeFlattening(Emissions(t, ""));
    assert flat != map[] by {
      assert flat == map[] ==> Rebuild(flat, []) == Some(t);
    }
    var some :| some in flat;
    var order := OrderingFrom(some, flat.Keys);
    forall key | key in flat
      ensures flat[key].IsLeaf()
    {
      var p := EmissionPath(t, "", (key, flat[key]));
      LeafIsLeaf(t, p, flat[key]);
    }
    RebuildTidy(flat, order);
    assert Rebuild(flat, order) == Some(t);
    if !NoIntegerKeys(t) {
      FlattenedIsFlatOf(t, flat);
      var p, v := FirstWrong(t);
      var order' := OrderingFrom(Join(p, '.'), flat.Keys);
      RebuildStaysWrong(t, flat, order');
      assert Rebuild(flat, order') == Some(t);
      WrongDiffers(t, t);
    }
  }

  lemma {:induction false} LeafIsLeaf(t: Json, p: Path, v: Json)
    requires LeafAt(t, p, v)
    ensures v.IsLeaf()
    decreases |p|
  {
    if p != [] {
      LeafIsLeaf(Child(t, p[0]).value, p[1..], v);
    }
  }

  // The documented inverse, on every document: rebuilding undoes flattening in every order if and
  // only if the document has no empty container, no key with a dot and no integer-like key.
  lemma RoundTripsIffClean(t: Json)
    requires t.Obj? && Sized(t)
    ensures RoundTrips(t) <==> Clean(t)
  {
    if RoundTrips(t) {
      RoundTripsAreClean(t);
    }
    if Clean(t) {
      CleanRoundTrips(t);
    }
  }
}
