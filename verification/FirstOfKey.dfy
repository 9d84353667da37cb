// Keeping the first element of each key, as loops with a map of the keys seen so far do.

module FirstOfKey {
  import opened Wrappers

  function Seen(keys: seq<Option<string>>, n: nat): set<string>
    requires n <= |keys|
  {
    if n == 0 then {} else Seen(keys, n - 1) + (if keys[n - 1].Some? then {keys[n - 1].value} else {})
  }

  // There is a key at i and none before it is equal.
  predicate Survives(keys: seq<Option<string>>, i: nat)
    requires i < |keys|
  {
    keys[i].Some? && keys[i].value !in Seen(keys, i)
  }

  function Survivors(keys: seq<Option<string>>, n: nat): (picks: seq<nat>)
    requires n <= |keys|
    ensures forall a :: 0 <= a < |picks| ==> picks[a] < n
  {
    if n == 0 then [] else Survivors(keys, n - 1) + (if Survives(keys, n - 1) then [n - 1] else [])
  }

  function Picked<T>(xs: seq<T>, picks: seq<nat>): seq<T>
    requires forall a :: 0 <= a < |picks| ==> picks[a] < |xs|
  {
    seq(|picks|, a requires 0 <= a < |picks| => xs[picks[a]])
  }

  lemma PickedAppend<T>(xs: seq<T>, picks: seq<nat>, i: nat)
    requires i < |xs| && forall a :: 0 <= a < |picks| ==> picks[a] < |xs|
    ensures Picked(xs, picks + [i]) == Picked(xs, picks) + [xs[i]]
  {
  }

  lemma {:induction false} SeenMeaning(keys: seq<Option<string>>, n: nat, key: string)
    requires n <= |keys|
    ensures key in Seen(keys, n) <==> exists j :: 0 <= j < n && keys[j] == Some(key)
  {
    if n > 0 {
      SeenMeaning(keys, n - 1, key);
    }
  }

  lemma SurvivesIff(keys: seq<Option<string>>, i: nat)
    requires i < |keys|
    ensures Survives(keys, i) <==> keys[i].Some? && forall j :: 0 <= j < i ==> keys[j] != keys[i]
  {
    if keys[i].Some? {
      SeenMeaning(keys, i, keys[i].value);
    }
  }

  lemma {:induction false} SurvivorsInOrder(keys: seq<Option<string>>, n: nat)
    requires n <= |keys|
    ensures var picks := Survivors(keys, n);
            && (forall a, b :: 0 <= a < b < |picks| ==> picks[a] < picks[b])
            && (forall i :: i in picks <==> 0 <= i < n && Survives(keys, i))
  {
    if n > 0 {
      SurvivorsInOrder(keys, n - 1);
    }
  }

  // The keys of the survivors are pairwise different.
  lemma SurvivorsDistinct(keys: seq<Option<string>>, n: nat, a: nat, b: nat)
    requires n <= |keys| && a < b < |Survivors(keys, n)|
    ensures var picks := Survivors(keys, n); keys[picks[a]].Some? && keys[picks[b]].Some? && keys[picks[a]] != keys[picks[b]]
  {
    SurvivorsInOrder(keys, n);
    var picks := Survivors(keys, n);
    assert picks[a] in picks && picks[b] in picks;
    SurvivesIff(keys, picks[b]);
  }

  // Every key has a survivor, and it is the first one.
  lemma {:induction false} SurvivorOf(keys: seq<Option<string>>, j: nat) returns (i: nat)
    requires j < |keys| && keys[j].Some?
    ensures i <= j && Survives(keys, i) && keys[i] == keys[j]
    decreases j
  {
    if Survives(keys, j) {
      i := j;
    } else {
      SeenMeaning(keys, j, keys[j].value);
      var before :| 0 <= before < j && keys[before] == keys[j];
      i := SurvivorOf(keys, before);
    }
  }
}
