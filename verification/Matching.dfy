// Matching a user query against a field value: scores and matched tokens of a suggestion.

module Matching {
  import opened Strings

  datatype Rank = Rank(target: string, distance: int)

  // The text libraries behind matching, for one configuration: stemming a token, removing
  // stopwords, and the fuzzy ranking of the targets for a token.
  datatype Lang = Lang(
    stem: string -> string,
    removeStopwords: string -> string,
    rank: (string, seq<string>) -> seq<Rank>)

  // The number of bytes of the UTF-8 encoding, which is what len counts.
  function ByteLength(s: string): nat {
    if s == "" then 0
    else
      var c := s[0] as int;
      (if c < 0x80 then 1 else if c < 0x800 then 2 else if c < 0x10000 then 3 else 4) + ByteLength(s[1..])
  }

  function Stemmed(stem: string -> string, tokens: seq<string>): seq<string> {
    seq(|tokens|, i requires 0 <= i < |tokens| => stem(tokens[i]))
  }

  // stemmedTokens
  function StemmedTokens(l: Lang, source: string): (stems: seq<string>)
    ensures |stems| == |Split(source, ' ')|
  {
    Stemmed(l.stem, Split(source, ' '))
  }

  // The scores of the source in tenths.
  datatype RankField = RankField(fieldValue: string, userQuery: string, score: int, matchedTokens: seq<string>)

  // ---------- What a single token contributes ----------

  predicate Perfect(l: Lang, token: string, targets: seq<string>) {
    exists r :: r in l.rank(token, targets) && r.distance == 0
  }

  predicate Near(l: Lang, token: string, targets: seq<string>) {
    exists r :: r in l.rank(token, targets) && r.distance == 1
  }

  predicate Found(l: Lang, token: string, targets: seq<string>) {
    ByteLength(token) > 1 && (Perfect(l, token, targets) || Near(l, token, targets))
  }

  // Tenths for token i: 1 for a perfect match, 1/2 for one edit, 1/10 more after a matched token.
  function Points(l: Lang, tokens: seq<string>, targets: seq<string>, i: nat): int
    requires i < |tokens|
  {
    if !Found(l, tokens[i], targets) then 0
    else
      (if Perfect(l, tokens[i], targets) then 10 else 5)
      + (if i > 0 && Found(l, tokens[i - 1], targets) then 1 else 0)
  }

  function Score(l: Lang, tokens: seq<string>, targets: seq<string>, n: nat): int
    requires n <= |tokens|
  {
    if n == 0 then 0 else Score(l, tokens, targets, n - 1) + Points(l, tokens, targets, n - 1)
  }

  // The last perfect target, else the first target that is one edit away.
  function BestTarget(ranks: seq<Rank>): string {
    if ranks == [] then ""
    else
      var best, last := BestTarget(ranks[..|ranks| - 1]), ranks[|ranks| - 1];
      if last.distance == 0 || (last.distance == 1 && best == "") then last.target else best
  }

  function IndexOf(tokens: seq<string>, token: string): (i: int)
    ensures -1 <= i < |tokens|
    ensures i >= 0 ==> tokens[i] == token
    ensures i == -1 <==> token !in tokens
    ensures forall j :: 0 <= j < i ==> tokens[j] != token
  {
    if tokens == [] then -1
    else if tokens[0] == token then 0
    else
      var i := IndexOf(tokens[1..], token);
      assert forall j :: 0 < j < |tokens| ==> tokens[j] == tokens[1..][j - 1];
      if i == -1 then -1 else i + 1
  }

  // The word of the field that a token is reported to match, if any.
  function MatchedBy(l: Lang, token: string, words: seq<string>, targets: seq<string>): seq<string>
    requires |words| == |targets|
  {
    var i := IndexOf(targets, BestTarget(l.rank(token, targets)));
    if ByteLength(token) > 1 && i != -1 then [words[i]] else []
  }

  function MatchedTokens(l: Lang, tokens: seq<string>, words: seq<string>, targets: seq<string>, n: nat): seq<string>
    requires n <= |tokens| && |words| == |targets|
  {
    if n == 0 then []
    else MatchedTokens(l, tokens, words, targets, n - 1) + MatchedBy(l, tokens[n - 1], words, targets)
  }

  // ---------- FindMatch ----------

  // The loop over the ranked targets of one token.
  method BestMatch(ranks: seq<Rank>) returns (foundMatch: bool, bestDistance: int, bestTarget: string)
    ensures foundMatch <==> exists r :: r in ranks && (r.distance == 0 || r.distance == 1)
    ensures bestDistance == if exists r :: r in ranks && r.distance == 0 then 0 else 1
    ensures bestTarget == BestTarget(ranks)
  {
    foundMatch, bestDistance, bestTarget := false, 1, "";
    for k := 0 to |ranks|
      invariant bestTarget == BestTarget(ranks[..k])
      invariant bestDistance == if exists r :: r in ranks[..k] && r.distance == 0 then 0 else 1
      invariant foundMatch <==> exists r :: r in ranks[..k] && (r.distance == 0 || r.distance == 1)
    {
      assert ranks[..k + 1][..k] == ranks[..k];
      assert ranks[k] in ranks[..k + 1] && forall r :: r in ranks[..k + 1] <==> r in ranks[..k] || r == ranks[k];
      if ranks[k].distance == 0 {
        bestDistance := 0;
        foundMatch := true;
        bestTarget := ranks[k].target;
      } else if ranks[k].distance == 1 {
        foundMatch := true;
        if bestTarget == "" {
          bestTarget := ranks[k].target;
        }
      }
    }
    assert ranks[..|ranks|] == ranks;
  }

  // One token of the query; single-byte tokens are out of consideration.
  method MatchToken(l: Lang, token: string, words: seq<string>, targets: seq<string>)
    returns (foundMatch: bool, points: int, matched: seq<string>)
    requires |words| == |targets|
    ensures foundMatch == Found(l, token, targets)
    ensures foundMatch ==> points == if Perfect(l, token, targets) then 10 else 5
    ensures matched == MatchedBy(l, token, words, targets)
  {
    foundMatch, points, matched := false, 0, [];
    if ByteLength(token) > 1 {
      var bestDistance, bestTarget;
      foundMatch, bestDistance, bestTarget := BestMatch(l.rank(token, targets));
      var matchIndex := IndexOf(targets, bestTarget);
      if matchIndex != -1 {
        matched := [words[matchIndex]];
      }
      points := 10 - 5 * bestDistance;
    }
  }

  method MatchTokens(l: Lang, tokens: seq<string>, words: seq<string>, targets: seq<string>)
    returns (score: int, matchedTokens: seq<string>)
    requires |words| == |targets|
    ensures score == Score(l, tokens, targets, |tokens|)
    ensures matchedTokens == MatchedTokens(l, tokens, words, targets, |tokens|)
  {
    score, matchedTokens := 0, [];
    var foundMatches: seq<bool> := [];
    for i := 0 to |tokens|
      invariant |foundMatches| == i
      invariant i > 0 ==> foundMatches[i - 1] == Found(l, tokens[i - 1], targets)
      invariant score == Score(l, tokens, targets, i)
      invariant matchedTokens == MatchedTokens(l, tokens, words, targets, i)
    {
      var foundMatch, points, matched := MatchToken(l, tokens[i], words, targets);
      matchedTokens := matchedTokens + matched;
      if foundMatch {
        score := score + points;
        if i > 0 && foundMatches[i - 1] {
          score := score + 1;
        }
      }
      foundMatches := foundMatches + [foundMatch];
    }
  }

  method FindMatch(l: Lang, fieldValueRaw: string, userQueryRaw: string) returns (r: RankField)
    ensures r == Match(l, fieldValueRaw, userQueryRaw)
  {
    var fieldValue, userQuery := l.removeStopwords(fieldValueRaw), l.removeStopwords(userQueryRaw);
    var fieldValues := Split(fieldValue, ' ');
    var score, matchedTokens := MatchTokens(l, StemmedTokens(l, userQuery), fieldValues, Stemmed(l.stem, fieldValues));
    r := RankField(fieldValue, userQuery, score, matchedTokens);
  }

  function Match(l: Lang, fieldValueRaw: string, userQueryRaw: string): RankField {
    var fieldValue, userQuery := l.removeStopwords(fieldValueRaw), l.removeStopwords(userQueryRaw);
    var words, tokens := Split(fieldValue, ' '), StemmedTokens(l, userQuery);
    var targets := Stemmed(l.stem, words);
    RankField(fieldValue, userQuery, Score(l, tokens, targets, |tokens|), MatchedTokens(l, tokens, words, targets, |tokens|))
  }

  // ---------- The score as a count ----------

  function PerfectCount(l: Lang, tokens: seq<string>, targets: seq<string>, n: nat): nat
    requires n <= |tokens|
  {
    if n == 0 then 0
    else PerfectCount(l, tokens, targets, n - 1)
         + (if Found(l, tokens[n - 1], targets) && Perfect(l, tokens[n - 1], targets) then 1 else 0)
  }

  function FoundCount(l: Lang, tokens: seq<string>, targets: seq<string>, n: nat): nat
    requires n <= |tokens|
  {
    if n == 0 then 0 else FoundCount(l, tokens, targets, n - 1) + (if Found(l, tokens[n - 1], targets) then 1 else 0)
  }

  function AdjacentCount(l: Lang, tokens: seq<string>, targets: seq<string>, n: nat): nat
    requires n <= |tokens|
  {
    if n < 2 then 0
    else AdjacentCount(l, tokens, targets, n - 1)
         + (if Found(l, tokens[n - 1], targets) && Found(l, tokens[n - 2], targets) then 1 else 0)
  }

  // The score is one for each perfect match, a half for each other match, and a tenth for each
  // adjacent pair of matched tokens. With n tokens it lies between 0 and 1.1 n - 0.1, and it is
  // the greatest exactly when every token matches perfectly.
  lemma {:induction false} ScoreIsCount(l: Lang, tokens: seq<string>, targets: seq<string>, n: nat)
    requires n <= |tokens|
    ensures Score(l, tokens, targets, n)
         == 5 * FoundCount(l, tokens, targets, n) + 5 * PerfectCount(l, tokens, targets, n) + AdjacentCount(l, tokens, targets, n)
    ensures PerfectCount(l, tokens, targets, n) <= FoundCount(l, tokens, targets, n) <= n
    ensures AdjacentCount(l, tokens, targets, n) <= if n == 0 then 0 else n - 1
    ensures PerfectCount(l, tokens, targets, n) == n <==>
            forall i :: 0 <= i < n ==> Found(l, tokens[i], targets) && Perfect(l, tokens[i], targets)
    ensures PerfectCount(l, tokens, targets, n) == n > 0 ==> AdjacentCount(l, tokens, targets, n) == n - 1
  {
    if n > 0 {
      ScoreIsCount(l, tokens, targets, n - 1);
    }
  }

  lemma ScoreBounds(l: Lang, tokens: seq<string>, targets: seq<string>)
    requires tokens != []
    ensures 0 <= Score(l, tokens, targets, |tokens|) <= 11 * |tokens| - 1
    ensures Score(l, tokens, targets, |tokens|) == 11 * |tokens| - 1 <==>
            forall i :: 0 <= i < |tokens| ==> Found(l, tokens[i], targets) && Perfect(l, tokens[i], targets)
  {
    ScoreIsCount(l, tokens, targets, |tokens|);
  }

  // ---------- The matched tokens ----------

  // The ranking reports targets that it was given.
  ghost predicate RanksTargets(l: Lang, targets: seq<string>) {
    forall token, r :: r in l.rank(token, targets) ==> r.target in targets
  }

  // Rank i is the last perfect one.
  predicate LastPerfect(ranks: seq<Rank>, i: int) {
    0 <= i < |ranks| && ranks[i].distance == 0 && forall j :: i < j < |ranks| ==> ranks[j].distance != 0
  }

  // Rank i is the first at one edit.
  predicate FirstNear(ranks: seq<Rank>, i: int) {
    0 <= i < |ranks| && ranks[i].distance == 1 && forall j :: 0 <= j < i ==> ranks[j].distance != 1
  }

  // The best target is that of the last perfect rank if there is any, else that of the first rank at
  // one edit if there is any.
  lemma {:induction false} BestTargetMeaning(ranks: seq<Rank>)
    requires forall r :: r in ranks ==> r.target != ""
    ensures var best := BestTarget(ranks);
            if exists r :: r in ranks && r.distance == 0 then exists i :: LastPerfect(ranks, i) && ranks[i].target == best
            else if exists r :: r in ranks && r.distance == 1 then exists i :: FirstNear(ranks, i) && ranks[i].target == best
            else best == ""
  {
    if ranks != [] {
      var n := |ranks| - 1;
      var init, last := ranks[..n], ranks[n];
      assert last in ranks && forall r :: r in ranks <==> r in init || r == last;
      BestTargetMeaning(init);
      if last.distance == 0 {
        assert LastPerfect(ranks, n);
      } else if exists r :: r in init && r.distance == 0 {
        var i :| LastPerfect(init, i) && init[i].target == BestTarget(init);
        assert LastPerfect(ranks, i);
      } else if exists r :: r in init && r.distance == 1 {
        var i :| FirstNear(init, i) && init[i].target == BestTarget(init);
        assert FirstNear(ranks, i);
      } else if last.distance == 1 {
        assert FirstNear(ranks, n);
      }
    }
  }

  // A token of two or more bytes reports the word of the first stem that is its best target.
  lemma MatchedByMeaning(l: Lang, token: string, words: seq<string>, targets: seq<string>, i: nat)
    requires i < |words| == |targets| && forall j :: 0 <= j < i ==> targets[j] != targets[i]
    ensures targets[i] == BestTarget(l.rank(token, targets)) ==>
              MatchedBy(l, token, words, targets) == if ByteLength(token) < 2 then [] else [words[i]]
    ensures BestTarget(l.rank(token, targets)) !in targets ==> MatchedBy(l, token, words, targets) == []
  {
  }

  // Every matched token of the query reports exactly one word of the field, and no other token
  // reports any, unless the field has an empty stem.
  lemma {:induction false} OneWordPerMatch(l: Lang, tokens: seq<string>, words: seq<string>, targets: seq<string>, n: nat)
    requires n <= |tokens| && |words| == |targets|
    requires RanksTargets(l, targets) && "" !in targets
    ensures |MatchedTokens(l, tokens, words, targets, n)| == FoundCount(l, tokens, targets, n)
    ensures forall w :: w in MatchedTokens(l, tokens, words, targets, n) ==> w in words
  {
    if n > 0 {
      OneWordPerMatch(l, tokens, words, targets, n - 1);
      var ranks := l.rank(tokens[n - 1], targets);
      BestTargetMeaning(ranks);
      assert forall r :: r in ranks ==> r.target in targets;
    }
  }

  // An empty stem in the field is reported for every token of more than one byte that matches
  // nothing.
  lemma EmptyStemReported(l: Lang, token: string, words: seq<string>, targets: seq<string>)
    requires |words| == |targets| && "" in targets && ByteLength(token) > 1
    requires forall r :: r in l.rank(token, targets) ==> r.target != ""
    requires !Found(l, token, targets)
    ensures exists i :: 0 <= i < |targets| && targets[i] == "" && MatchedBy(l, token, words, targets) == [words[i]]
  {
    BestTargetMeaning(l.rank(token, targets));
    var i := IndexOf(targets, "");
    assert targets[i] == "" && MatchedBy(l, token, words, targets) == [words[i]];
  }

  // ---------- Lengths and perfect scores ----------

  // Characters below 128 count one byte, and lengths add up.
  lemma {:induction false} ByteLengthMeaning(a: string, b: string)
    ensures ByteLength(a + b) == ByteLength(a) + ByteLength(b)
    ensures (forall c :: c in a ==> c as int < 128) ==> ByteLength(a) == |a|
    ensures ByteLength(a) >= |a|
  {
    if a == "" {
      assert a + b == b;
    } else {
      assert (a + b)[1..] == a[1..] + b;
      ByteLengthMeaning(a[1..], b);
      assert a[0] in a && forall c :: c in a[1..] ==> c in a;
    }
  }

  // A field that has all the words of the query, each of two or more characters, scores the most
  // that the query can, when its own stem ranks perfect for each.
  lemma AllWordsScoreMost(l: Lang, fieldValue: string, userQuery: string)
    requires var targets := Stemmed(l.stem, Split(l.removeStopwords(fieldValue), ' '));
             forall token :: token in StemmedTokens(l, l.removeStopwords(userQuery)) ==>
               |token| >= 2 && token in targets && Rank(token, 0) in l.rank(token, targets)
    ensures Match(l, fieldValue, userQuery).score == 11 * |StemmedTokens(l, l.removeStopwords(userQuery))| - 1
  {
    var tokens := StemmedTokens(l, l.removeStopwords(userQuery));
    var targets := Stemmed(l.stem, Split(l.removeStopwords(fieldValue), ' '));
    forall i | 0 <= i < |tokens|
      ensures Found(l, tokens[i], targets) && Perfect(l, tokens[i], targets)
    {
      assert tokens[i] in tokens;
      ByteLengthMeaning(tokens[i], "");
    }
    ScoreBounds(l, tokens, targets);
  }

  // A query of one word scores nothing if the word has one byte or no target within one edit, half a
  // point if the best target is one edit away, and a point for a perfect one.
  lemma OneWordScores(l: Lang, token: string, targets: seq<string>)
    ensures Score(l, [token], targets, 1) ==
              if ByteLength(token) < 2 then 0
              else if exists r :: r in l.rank(token, targets) && r.distance == 0 then 10
              else if exists r :: r in l.rank(token, targets) && r.distance == 1 then 5
              else 0
  {
    assert Score(l, [token], targets, 0) == 0;
  }
}
