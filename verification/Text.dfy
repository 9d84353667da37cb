// Cleaning a text for matching: splitting at white space, dropping special characters that stand
// alone, and lower-casing.

module Text {
  import opened Strings

  // unicode.IsSpace
  predicate IsSpace(c: char) {
    || '\t' <= c <= '\r' || c == ' ' || c == '\U{85}' || c == '\U{a0}' || c == '\U{1680}'
    || '\U{2000}' <= c <= '\U{200a}' || c == '\U{2028}' || c == '\U{2029}' || c == '\U{202f}'
    || c == '\U{205f}' || c == '\U{3000}'
  }

  // White space of Latin-1: the six of ASCII, next line and the no-break space.
  lemma SpaceMeaning(c: char)
    requires c as int < 256
    ensures IsSpace(c) <==> c as int in {9, 10, 11, 12, 13, 32, 0x85, 0xA0}
  {
  }

  predicate NoSpace(s: string) {
    forall c :: c in s ==> !IsSpace(c)
  }

  function TrimLeft(s: string): string {
    if s != "" && IsSpace(s[0]) then TrimLeft(s[1..]) else s
  }

  function TrimRight(s: string): string {
    if s != "" && IsSpace(s[|s| - 1]) then TrimRight(s[..|s| - 1]) else s
  }

  function TrimSpace(s: string): string {
    TrimRight(TrimLeft(s))
  }

  // strings.Fields: the maximal runs without white space; run is the one being read.
  function FieldsFrom(run: string, s: string): seq<string>
    decreases |s|
  {
    if s == "" then (if run == "" then [] else [run])
    else if IsSpace(s[0]) then (if run == "" then [] else [run]) + FieldsFrom("", s[1..])
    else FieldsFrom(run + [s[0]], s[1..])
  }

  function Fields(s: string): seq<string> {
    FieldsFrom("", s)
  }

  const SPECIAL_CHARS: seq<string> := ["'", "/", "{", "(", "[", "-", "+", ".", "^", ":", ",", "]", ")", "}"]

  predicate Special(token: string) {
    token in SPECIAL_CHARS
  }

  // removeSpaces
  function RemoveSpaces(s: string): string {
    Join(Fields(s), ' ')
  }

  function Blank(token: string): string {
    if Special(token) then " " else token
  }

  function Blanked(tokens: seq<string>): seq<string> {
    seq(|tokens|, i requires 0 <= i < |tokens| => Blank(tokens[i]))
  }

  // sanitizeString
  function Sanitize(s: string): string {
    RemoveSpaces(Join(Blanked(Split(s, ' ')), ' '))
  }

  function Lower(lower: char -> char, s: string): string {
    if s == "" then "" else [lower(s[0])] + Lower(lower, s[1..])
  }

  function Kept(lower: char -> char, tokens: seq<string>): seq<string> {
    if tokens == [] then []
    else (if Sanitize(tokens[0]) == "" then [] else [Lower(lower, Sanitize(tokens[0]))]) + Kept(lower, tokens[1..])
  }

  // normalizeValue
  function Normalize(lower: char -> char, value: string): string {
    TrimSpace(Join(Kept(lower, Split(TrimSpace(value), ' ')), ' '))
  }

  // Trimming takes white space off both ends, and all of it.
  lemma TrimMeaning(s: string)
    ensures exists a, b :: s == a + TrimSpace(s) + b && AllSpace(a) && AllSpace(b)
    ensures var t := TrimSpace(s); t != "" ==> !IsSpace(t[0]) && !IsSpace(t[|t| - 1])
  {
    var a := TrimLeftMeaning(s);
    var b := TrimRightMeaning(TrimLeft(s));
    assert s == a + TrimSpace(s) + b;
  }

  predicate AllSpace(s: string) {
    forall c :: c in s ==> IsSpace(c)
  }

  lemma {:induction false} TrimLeftMeaning(s: string) returns (a: string)
    ensures s == a + TrimLeft(s) && AllSpace(a) && (TrimLeft(s) != "" ==> !IsSpace(TrimLeft(s)[0]))
  {
    if s != "" && IsSpace(s[0]) {
      var rest := TrimLeftMeaning(s[1..]);
      a := [s[0]] + rest;
    } else {
      a := "";
    }
  }

  lemma {:induction false} TrimRightMeaning(s: string) returns (b: string)
    ensures s == TrimRight(s) + b && AllSpace(b)
    ensures TrimRight(s) != "" ==> !IsSpace(TrimRight(s)[|TrimRight(s)| - 1]) && TrimRight(s)[0] == s[0]
  {
    if s != "" && IsSpace(s[|s| - 1]) {
      var rest := TrimRightMeaning(s[..|s| - 1]);
      b := rest + [s[|s| - 1]];
    } else {
      b := "";
    }
  }

  // White space separates fields.
  lemma {:induction false} FieldsApart(run: string, a: string, c: char, b: string)
    requires IsSpace(c)
    ensures FieldsFrom(run, a + [c] + b) == FieldsFrom(run, a) + Fields(b)
    decreases |a|
  {
    var s := a + [c] + b;
    if a == "" {
      assert s[1..] == b;
    } else {
      assert s[1..] == a[1..] + [c] + b;
      FieldsApart(if IsSpace(a[0]) then "" else run + [a[0]], a[1..], c, b);
    }
  }

  // The special characters, alone.
  lemma SpecialMeaning(token: string)
    ensures Special(token) <==> |token| == 1 && token[0] in "'/{([-+.^:,])}"
  {
    if |token| == 1 {
      assert token == [token[0]];
    }
  }

  lemma {:induction false} LowerAt(lower: char -> char, s: string)
    ensures |Lower(lower, s)| == |s| && forall i :: 0 <= i < |s| ==> Lower(lower, s)[i] == lower(s[i])
  {
    if s != "" {
      LowerAt(lower, s[1..]);
    }
  }

  // ---------- The words of a text ----------

  // Lower-casing is idempotent and keeps white space and special characters apart from the rest.
  ghost predicate Sane(lower: char -> char) {
    forall c :: lower(lower(c)) == lower(c) && (IsSpace(lower(c)) <==> IsSpace(c))
             && (IsSpace(c) ==> lower(c) == c)
             && (Special([lower(c)]) <==> Special([c]))
  }

  function LowerAll(lower: char -> char, words: seq<string>): seq<string> {
    if words == [] then [] else [Lower(lower, words[0])] + LowerAll(lower, words[1..])
  }

  function WordsOf(lower: char -> char, tokens: seq<string>): seq<string> {
    if tokens == [] then []
    else (if Special(tokens[0]) then [] else LowerAll(lower, Fields(tokens[0]))) + WordsOf(lower, tokens[1..])
  }

  // The fields of each token between blanks, except for the special tokens, in lower case.
  function Words(lower: char -> char, value: string): seq<string> {
    WordsOf(lower, Split(TrimSpace(value), ' '))
  }

  predicate AnySpecial(words: seq<string>) {
    exists w :: w in words && Special(w)
  }

  predicate Clean(words: seq<string>) {
    forall w :: w in words ==> w != "" && NoSpace(w)
  }

  lemma {:induction false} FieldsClean(run: string, s: string)
    requires NoSpace(run)
    ensures Clean(FieldsFrom(run, s))
    decreases |s|
  {
    if s != "" {
      if IsSpace(s[0]) {
        FieldsClean("", s[1..]);
      } else {
        FieldsClean(run + [s[0]], s[1..]);
      }
    }
  }

  lemma {:induction false} FieldsSingle(run: string, s: string)
    requires NoSpace(s) && run + s != ""
    ensures FieldsFrom(run, s) == [run + s]
    decreases |s|
  {
    if s == "" {
      assert run + s == run;
    } else {
      assert s[0] in s;
      FieldsSingle(run + [s[0]], s[1..]);
      assert run + [s[0]] + s[1..] == run + s;
    }
  }

  lemma {:induction false} LowerKeeps(lower: char -> char, s: string)
    requires Sane(lower)
    ensures |Lower(lower, s)| == |s|
    ensures Lower(lower, Lower(lower, s)) == Lower(lower, s)
    ensures NoSpace(s) ==> NoSpace(Lower(lower, s))
  {
    if s != "" {
      LowerKeeps(lower, s[1..]);
      var t := Lower(lower, s);
      assert t[1..] == Lower(lower, s[1..]);
      assert s[0] in s && lower(s[0]) == t[0];
    }
  }

  lemma LowerSpecial(lower: char -> char, s: string)
    requires Sane(lower)
    ensures Special(Lower(lower, s)) <==> Special(s)
  {
    LowerKeeps(lower, s);
    if |s| == 1 {
      assert s == [s[0]] && Lower(lower, s) == [lower(s[0])];
    }
  }

  lemma {:induction false} LowerAppend(lower: char -> char, a: string, b: string)
    ensures Lower(lower, a + b) == Lower(lower, a) + Lower(lower, b)
  {
    if a == "" {
      assert a + b == b;
    } else {
      assert (a + b)[1..] == a[1..] + b;
      LowerAppend(lower, a[1..], b);
    }
  }

  lemma {:induction false} LowerJoin(lower: char -> char, words: seq<string>)
    requires Sane(lower)
    ensures Lower(lower, Join(words, ' ')) == Join(LowerAll(lower, words), ' ')
  {
    if |words| == 1 {
      assert LowerAll(lower, words) == [Lower(lower, words[0])];
    } else if |words| > 1 {
      var rest := Join(words[1..], ' ');
      LowerJoin(lower, words[1..]);
      LowerAppend(lower, words[0] + " ", rest);
      LowerAppend(lower, words[0], " ");
      assert IsSpace(' ');
      assert Lower(lower, " ") == " ";
      var all := LowerAll(lower, words);
      assert all[1..] == LowerAll(lower, words[1..]) && |all[1..]| > 0;
    }
  }

  lemma {:induction false} LowerAllKeeps(lower: char -> char, words: seq<string>)
    requires Sane(lower) && Clean(words)
    ensures var low := LowerAll(lower, words);
            && |low| == |words|
            && Clean(low)
            && (forall i :: 0 <= i < |words| ==> low[i] == Lower(lower, words[i]))
            && LowerAll(lower, low) == low
  {
    if words != [] {
      var w, low := words[0], LowerAll(lower, words);
      LowerKeeps(lower, w);
      assert w in words;
      LowerAllKeeps(lower, words[1..]);
      assert low[1..] == LowerAll(lower, words[1..]);
      assert low[0] == Lower(lower, w);
    }
  }

  lemma LowerAllSpecial(lower: char -> char, words: seq<string>)
    requires Sane(lower) && Clean(words)
    ensures AnySpecial(LowerAll(lower, words)) <==> AnySpecial(words)
  {
    var low := LowerAll(lower, words);
    LowerAllKeeps(lower, words);
    forall i | 0 <= i < |words|
      ensures Special(low[i]) <==> Special(words[i])
    {
      LowerSpecial(lower, words[i]);
    }
    if AnySpecial(words) {
      var i :| 0 <= i < |words| && Special(words[i]);
      assert low[i] in low;
    }
  }

  // A token between blanks, sanitized.
  lemma SanitizeToken(token: string)
    requires ' ' !in token
    ensures Sanitize(token) == if Special(token) then "" else RemoveSpaces(token)
  {
    SplitSingle(token, ' ');
    assert Blanked([token]) == [if Special(token) then " " else token];
    assert FieldsFrom("", " ") == [] by { assert " "[1..] == ""; }
  }

  // Words without white space stay as they are between the blanks that join them.
  lemma {:induction false} JoinEnds(words: seq<string>)
    requires Clean(words) && words != []
    ensures var s := Join(words, ' ');
            s != "" && !IsSpace(s[0]) && !IsSpace(s[|s| - 1])
  {
    assert words[0] in words && words[0][0] in words[0] && words[0][|words[0]| - 1] in words[0];
    if |words| > 1 {
      JoinEnds(words[1..]);
    }
  }

  lemma TrimJoin(words: seq<string>)
    requires Clean(words)
    ensures TrimSpace(Join(words, ' ')) == Join(words, ' ')
  {
    if words != [] {
      JoinEnds(words);
    }
  }

  lemma {:induction false} JoinFlat(a: seq<string>, b: seq<string>)
    requires a != []
    ensures Join([Join(a, ' ')] + b, ' ') == Join(a + b, ' ')
  {
    if b == [] {
      assert a + b == a && [Join(a, ' ')] + b == [Join(a, ' ')];
    } else {
      JoinAppend([Join(a, ' ')], b, ' ');
      JoinAppend(a, b, ' ');
    }
  }

  lemma {:induction false} KeptWords(lower: char -> char, tokens: seq<string>)
    requires Sane(lower) && SepFree(tokens, ' ')
    ensures Join(Kept(lower, tokens), ' ') == Join(WordsOf(lower, tokens), ' ')
    ensures Kept(lower, tokens) == [] <==> WordsOf(lower, tokens) == []
    ensures Clean(WordsOf(lower, tokens))
  {
    if tokens != [] {
      var token := tokens[0];
      assert token in tokens;
      KeptWords(lower, tokens[1..]);
      SanitizeToken(token);
      var fields := Fields(token);
      FieldsClean("", token);
      LowerAllKeeps(lower, fields);
      var low, kept, words := LowerAll(lower, fields), Kept(lower, tokens[1..]), WordsOf(lower, tokens[1..]);
      if !Special(token) && fields != [] {
        JoinEnds(fields);
        LowerJoin(lower, fields);
        JoinFlat(low, kept);
        JoinBoth(low, kept, words);
      } else {
        assert WordsOf(lower, tokens) == words && Kept(lower, tokens) == kept;
      }
    }
  }

  lemma JoinBoth(a: seq<string>, b: seq<string>, c: seq<string>)
    requires a != [] && Join(b, ' ') == Join(c, ' ') && (b == [] <==> c == [])
    ensures Join(a + b, ' ') == Join(a + c, ' ')
  {
    if b == [] {
      assert a + b == a && a + c == a;
    } else {
      JoinAppend(a, b, ' ');
      JoinAppend(a, c, ' ');
    }
  }

  // Normalizing joins the words of the value with single blanks.
  lemma NormalizeIsWords(lower: char -> char, value: string)
    requires Sane(lower)
    ensures Normalize(lower, value) == Join(Words(lower, value), ' ')
    ensures Clean(Words(lower, value))
  {
    var tokens := Split(TrimSpace(value), ' ');
    KeptWords(lower, tokens);
    TrimJoin(Words(lower, value));
  }

  // ---------- Normalizing twice ----------

  function WithoutSpecial(words: seq<string>): seq<string> {
    if words == [] then []
    else (if Special(words[0]) then [] else [words[0]]) + WithoutSpecial(words[1..])
  }

  lemma {:induction false} WithoutSpecialSame(words: seq<string>)
    ensures |WithoutSpecial(words)| <= |words|
    ensures |WithoutSpecial(words)| == |words| <==> !AnySpecial(words)
    ensures !AnySpecial(words) ==> WithoutSpecial(words) == words
  {
    if words != [] {
      WithoutSpecialSame(words[1..]);
      assert words[0] in words;
      assert forall w :: w in words[1..] ==> w in words;
      assert forall w :: w in words ==> w == words[0] || w in words[1..];
    }
  }

  lemma {:induction false} WordsAgain(lower: char -> char, words: seq<string>)
    requires Sane(lower) && Clean(words) && LowerAll(lower, words) == words
    ensures WordsOf(lower, words) == WithoutSpecial(words)
  {
    if words != [] {
      var w := words[0];
      assert w in words;
      var low := LowerAll(lower, words);
      assert low[0] == Lower(lower, w) && low[1..] == LowerAll(lower, words[1..]);
      assert Fields(w) == [w] by {
        FieldsSingle("", w);
        assert "" + w == w;
      }
      assert LowerAll(lower, [w]) == [w] by {
        assert [w][1..] == [] && LowerAll(lower, []) == [];
      }
      WordsAgain(lower, words[1..]);
    }
  }

  lemma {:induction false} WordsLowered(lower: char -> char, tokens: seq<string>)
    requires Sane(lower)
    ensures Clean(WordsOf(lower, tokens))
    ensures LowerAll(lower, WordsOf(lower, tokens)) == WordsOf(lower, tokens)
    ensures AnySpecial(WordsOf(lower, tokens)) <==>
            exists t :: t in tokens && !Special(t) && AnySpecial(Fields(t))
  {
    if tokens != [] {
      var token, rest := tokens[0], WordsOf(lower, tokens[1..]);
      WordsLowered(lower, tokens[1..]);
      FieldsClean("", token);
      LowerAllKeeps(lower, Fields(token));
      LowerAllSpecial(lower, Fields(token));
      var here := if Special(token) then [] else LowerAll(lower, Fields(token));
      LowerAllAppend(lower, here, rest);
      assert forall w :: w in here + rest <==> w in here || w in rest;
      assert token in tokens;
      assert forall t :: t in tokens <==> t == token || t in tokens[1..];
    }
  }

  lemma {:induction false} LowerAllAppend(lower: char -> char, a: seq<string>, b: seq<string>)
    ensures LowerAll(lower, a + b) == LowerAll(lower, a) + LowerAll(lower, b)
  {
    if a == [] {
      assert a + b == b;
    } else {
      assert (a + b)[1..] == a[1..] + b;
      LowerAllAppend(lower, a[1..], b);
    }
  }

  lemma JoinInjective(a: seq<string>, b: seq<string>)
    requires Clean(a) && Clean(b) && Join(a, ' ') == Join(b, ' ')
    ensures a == b
  {
    assert IsSpace(' ');
    if a != [] && b != [] {
      SplitJoin(a, ' ');
      SplitJoin(b, ' ');
    } else if a != [] {
      JoinEnds(a);
    } else if b != [] {
      JoinEnds(b);
    }
  }

  // Normalizing once more changes nothing exactly when no token between blanks hides a lone
  // special character behind some other white space, such as a tab.
  lemma NormalizeTwiceIff(lower: char -> char, value: string)
    requires Sane(lower)
    ensures Normalize(lower, Normalize(lower, value)) == Normalize(lower, value) <==>
            forall t :: t in Split(TrimSpace(value), ' ') ==> Special(t) || !AnySpecial(Fields(t))
  {
    var words, once := Words(lower, value), Normalize(lower, value);
    NormalizeIsWords(lower, value);
    NormalizeIsWords(lower, once);
    WordsLowered(lower, Split(TrimSpace(value), ' '));
    WithoutSpecialSame(words);
    TrimJoin(words);
    if words == [] {
      assert once == "" && Split("", ' ') == [""];
      assert Normalize(lower, "") == "" by {
        assert WordsOf(lower, [""]) == [];
        assert TrimSpace("") == "";
      }
    } else {
      assert IsSpace(' ');
      SplitJoin(words, ' ');
      WordsAgain(lower, words);
      assert Words(lower, once) == WithoutSpecial(words);
      if Normalize(lower, once) == once {
        JoinInjective(WithoutSpecial(words), words);
      }
    }
  }

  // A third time never changes anything.
  lemma NormalizeThrice(lower: char -> char, value: string)
    requires Sane(lower)
    ensures Normalize(lower, Normalize(lower, Normalize(lower, value))) == Normalize(lower, Normalize(lower, value))
  {
    var once := Normalize(lower, value);
    NormalizeIsWords(lower, value);
    var words := Words(lower, value);
    TrimJoin(words);
    assert IsSpace(' ');
    if words != [] {
      SplitJoin(words, ' ');
      forall t | t in words
        ensures Special(t) || !AnySpecial(Fields(t))
      {
        FieldsSingle("", t);
        assert "" + t == t;
      }
    }
    NormalizeTwiceIff(lower, once);
  }

  // ---------- The loops ----------

  method SanitizeString(s: string) returns (r: string)
    ensures r == Sanitize(s)
  {
    var tokens := BlankTokens(Split(s, ' '));
    r := RemoveSpaces(Join(tokens, ' '));
  }

  method BlankTokens(all: seq<string>) returns (tokens: seq<string>)
    ensures tokens == Blanked(all)
  {
    tokens := all;
    for i := 0 to |tokens|
      invariant |tokens| == |all|
      invariant forall k :: 0 <= k < i ==> tokens[k] == Blank(all[k])
      invariant forall k :: i <= k < |all| ==> tokens[k] == all[k]
    {
      if Special(tokens[i]) {
        tokens := tokens[i := " "];
      }
    }
  }

  lemma {:induction false} KeptAppend(lower: char -> char, tokens: seq<string>, t: string)
    ensures Kept(lower, tokens + [t])
         == Kept(lower, tokens) + (if Sanitize(t) == "" then [] else [Lower(lower, Sanitize(t))])
  {
    if tokens != [] {
      assert (tokens + [t])[1..] == tokens[1..] + [t];
      KeptAppend(lower, tokens[1..], t);
    } else {
      assert tokens + [t] == [t];
    }
  }

  method NormalizeValue(lower: char -> char, value: string) returns (r: string)
    ensures r == Normalize(lower, value)
  {
    var finalValue := KeepTokens(lower, Split(TrimSpace(value), ' '));
    r := TrimSpace(Join(finalValue, ' '));
  }

  method KeepTokens(lower: char -> char, tokens: seq<string>) returns (finalValue: seq<string>)
    ensures finalValue == Kept(lower, tokens)
  {
    finalValue := [];
    for i := 0 to |tokens|
      invariant finalValue == Kept(lower, tokens[..i])
    {
      assert tokens[..i + 1] == tokens[..i] + [tokens[i]];
      KeptAppend(lower, tokens[..i], tokens[i]);
      var sT := SanitizeString(tokens[i]);
      if sT != "" {
        finalValue := finalValue + [Lower(lower, sT)];
      }
    }
    assert tokens[..|tokens|] == tokens;
  }
}
