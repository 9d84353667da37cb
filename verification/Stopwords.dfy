// Removing stopwords from a text: the library's cleaning, then the stopwords of the user, then
// normalizing.

module Stopwords {
  import opened Strings
  import opened Text

  // ---------- Words in texts ----------

  // No word has white space in it; the empty word may occur.
  predicate BlankFree(words: seq<string>) {
    forall w :: w in words ==> NoSpace(w)
  }

  predicate WordsIn(phrase: string, words: seq<string>) {
    forall w :: w in Split(phrase, ' ') ==> w == "" || w in words
  }

  // Blanks are the only white space.
  predicate OnlyBlanks(s: string) {
    forall c :: c in s && IsSpace(c) ==> c == ' '
  }

  lemma {:induction false} TokenOf(s: string, i: nat) returns (t: string)
    requires i < |s| && s[i] != ' '
    ensures t in Split(s, ' ') && s[i] in t
  {
    var rest := Split(s[1..], ' ');
    if i == 0 {
      t := Split(s, ' ')[0];
    } else {
      t := TokenOf(s[1..], i - 1);
      if s[0] != ' ' && t == rest[0] {
        t := Split(s, ' ')[0];
      } else {
        assert s[0] != ' ' ==> t in rest[1..];
      }
    }
  }

  lemma BlankFreeSplit(s: string)
    requires BlankFree(Split(s, ' '))
    ensures OnlyBlanks(s)
  {
    forall c | c in s && c != ' '
      ensures !IsSpace(c)
    {
      var i :| 0 <= i < |s| && s[i] == c;
      var t := TokenOf(s, i);
    }
  }

  lemma {:induction false} TrimLeftWordsIn(s: string)
    requires OnlyBlanks(s)
    ensures OnlyBlanks(TrimLeft(s))
    ensures forall w :: w in Split(TrimLeft(s), ' ') ==> w in Split(s, ' ')
  {
    if s != "" && IsSpace(s[0]) {
      assert s[0] in s;
      assert Split(s, ' ') == [""] + Split(s[1..], ' ');
      TrimLeftWordsIn(s[1..]);
    }
  }

  lemma {:induction false} TrimRightWordsIn(s: string)
    requires OnlyBlanks(s)
    ensures forall w :: w in Split(TrimRight(s), ' ') ==> w in Split(s, ' ')
  {
    if s != "" && IsSpace(s[|s| - 1]) {
      var n := |s| - 1;
      var init := s[..n];
      assert s[n] in s;
      assert init + [' '] + "" == s;
      SplitConcat(init, "", ' ');
      TrimRightWordsIn(init);
    }
  }

  lemma SliceBlankFree(words: seq<string>, i: nat)
    requires BlankFree(words) && i <= |words|
    ensures BlankFree(words[..i]) && BlankFree(words[i..])
  {
    assert words[..i] + words[i..] == words;
    assert forall w :: w in words[..i] || w in words[i..] ==> w in words[..i] + words[i..];
  }

  // ---------- removeStopwords ----------

  function Unstopped(tokens: seq<string>, stopwords: seq<string>): seq<string> {
    seq(|tokens|, i requires 0 <= i < |tokens| => if tokens[i] in stopwords then " " else tokens[i])
  }

  // cleanString is the stopwords library for the language of the request.
  function WithoutStopwords(lower: char -> char, cleanString: string -> string, stopwords: seq<string>, value: string): string {
    Normalize(lower, Join(Unstopped(Split(cleanString(value), ' '), stopwords), ' '))
  }

  method RemoveStopwords(lower: char -> char, cleanString: string -> string, stopwords: seq<string>, value: string)
    returns (r: string)
    ensures r == WithoutStopwords(lower, cleanString, stopwords, value)
  {
    var cleanContent := BlankStopwords(Split(cleanString(value), ' '), stopwords);
    r := NormalizeValue(lower, Join(cleanContent, ' '));
  }

  method BlankStopwords(tokens: seq<string>, stopwords: seq<string>) returns (cleanContent: seq<string>)
    ensures cleanContent == Unstopped(tokens, stopwords)
  {
    cleanContent := tokens;
    for i := 0 to |tokens|
      invariant |cleanContent| == |tokens|
      invariant forall k :: 0 <= k < i ==> cleanContent[k] == if tokens[k] in stopwords then " " else tokens[k]
      invariant forall k :: i <= k < |tokens| ==> cleanContent[k] == tokens[k]
    {
      if cleanContent[i] in stopwords {
        cleanContent := cleanContent[i := " "];
      }
    }
  }

  // ---------- Removal only drops words ----------

  predicate Lowered(lower: char -> char, words: seq<string>) {
    forall w :: w in words ==> Lower(lower, w) == w
  }

  lemma LoweredWords(lower: char -> char, words: seq<string>)
    requires Sane(lower) && Clean(words) && LowerAll(lower, words) == words
    ensures Lowered(lower, words)
  {
    LowerAllKeeps(lower, words);
    forall w | w in words
      ensures Lower(lower, w) == w
    {
      var i :| 0 <= i < |words| && words[i] == w;
    }
  }

  // The tokens of joined texts are tokens of the texts.
  lemma {:induction false} SplitOfJoin(texts: seq<string>, t: string)
    requires t in Split(Join(texts, ' '), ' ')
    ensures t == "" || exists u :: u in texts && t in Split(u, ' ')
  {
    if |texts| == 1 {
      assert texts[0] in texts;
    } else if |texts| > 1 {
      SplitConcat(texts[0], Join(texts[1..], ' '), ' ');
      if t in Split(texts[0], ' ') {
        assert texts[0] in texts;
      } else {
        SplitOfJoin(texts[1..], t);
      }
    }
  }

  // The words of tokens that are themselves clean are among the tokens.
  lemma {:induction false} WordsOfAmong(lower: char -> char, tokens: seq<string>)
    requires BlankFree(tokens) && Lowered(lower, tokens)
    ensures forall w :: w in WordsOf(lower, tokens) ==> w in tokens
  {
    if tokens != [] {
      var t := tokens[0];
      assert t in tokens;
      WordsOfAmong(lower, tokens[1..]);
      if t != "" {
        FieldsSingle("", t);
        assert "" + t == t;
        assert LowerAll(lower, [t]) == [Lower(lower, t)] by {
          assert [t][1..] == [] && LowerAll(lower, []) == [];
        }
      }
    }
  }

  // Normalizing a text whose tokens are among some clean words leaves words among them.
  lemma NormalizeAmong(lower: char -> char, text: string, words: seq<string>)
    requires Sane(lower) && BlankFree(words) && Lowered(lower, words) && WordsIn(text, words)
    ensures WordsIn(Normalize(lower, text), words)
  {
    var tokens := Split(TrimSpace(text), ' ');
    assert BlankFree(Split(text, ' '));
    BlankFreeSplit(text);
    TrimLeftWordsIn(text);
    TrimRightWordsIn(TrimLeft(text));
    assert forall t :: t in tokens ==> t == "" || t in words;
    WordsOfAmong(lower, tokens);
    NormalizeIsWords(lower, text);
    var left := Words(lower, text);
    assert IsSpace(' ');
    if left != [] {
      SplitJoin(left, ' ');
    }
  }

  // As long as the library only drops words of a clean text, so does removing stopwords, whatever
  // the stopwords of the user are.
  lemma RemovalOnlyDrops(lower: char -> char, cleanString: string -> string, stopwords: seq<string>, words: seq<string>)
    requires Sane(lower) && BlankFree(words) && Lowered(lower, words)
    requires WordsIn(cleanString(Join(words, ' ')), words)
    ensures WordsIn(WithoutStopwords(lower, cleanString, stopwords, Join(words, ' ')), words)
  {
    var tokens := Split(cleanString(Join(words, ' ')), ' ');
    var kept := Unstopped(tokens, stopwords);
    var text := Join(kept, ' ');
    forall t | t in Split(text, ' ')
      ensures t == "" || t in words
    {
      SplitOfJoin(kept, t);
      if t != "" {
        var u :| u in kept && t in Split(u, ' ');
        KeptToken(tokens, stopwords, u, t);
      }
    }
    NormalizeAmong(lower, text, words);
  }

  lemma KeptToken(tokens: seq<string>, stopwords: seq<string>, u: string, t: string)
    requires SepFree(tokens, ' ') && u in Unstopped(tokens, stopwords) && t in Split(u, ' ') && t != ""
    ensures t in tokens
  {
    var i :| 0 <= i < |tokens| && Unstopped(tokens, stopwords)[i] == u;
    assert Split(" ", ' ') == ["", ""] by {
      SplitConcat("", "", ' ');
      assert "" + [' '] + "" == " ";
    }
    assert u == tokens[i] && tokens[i] in tokens;
    SplitSingle(u, ' ');
  }

  // ---------- Which words are left ----------

  function NotIn(words: seq<string>, stopwords: seq<string>): seq<string> {
    if words == [] then []
    else (if words[0] in stopwords then [] else [words[0]]) + NotIn(words[1..], stopwords)
  }

  // If the library leaves clean words in lower case, none of them a special character, those that the
  // user has not listed as stopwords are left, in order.
  lemma RemovalExactly(lower: char -> char, cleanString: string -> string, stopwords: seq<string>, text: string, words: seq<string>)
    requires Sane(lower) && Clean(words) && Lowered(lower, words) && !AnySpecial(words)
    requires cleanString(text) == Join(words, ' ') && words != []
    ensures WithoutStopwords(lower, cleanString, stopwords, text) == Join(NotIn(words, stopwords), ' ')
  {
    assert IsSpace(' ');
    SplitJoin(words, ' ');
    var joined := Join(Unstopped(words, stopwords), ' ');
    LeftWords(lower, words, stopwords);
    NormalizeIsWords(lower, joined);
    TrimKeepsWords(lower, joined);
  }

  lemma {:induction false} WordsOfAppend(lower: char -> char, a: seq<string>, b: seq<string>)
    ensures WordsOf(lower, a + b) == WordsOf(lower, a) + WordsOf(lower, b)
  {
    if a == [] {
      assert a + b == b;
    } else {
      assert (a + b)[1..] == a[1..] + b;
      WordsOfAppend(lower, a[1..], b);
    }
  }

  lemma WordsOfEmpty(lower: char -> char)
    ensures WordsOf(lower, [""]) == []
  {
    assert Fields("") == [] && WordsOf(lower, []) == [];
  }

  // Blanks at the ends make no words.
  lemma TrimKeepsWords(lower: char -> char, s: string)
    requires OnlyBlanks(s)
    ensures WordsOf(lower, Split(TrimSpace(s), ' ')) == WordsOf(lower, Split(s, ' '))
  {
    TrimLeftKeepsWords(lower, s);
    TrimLeftWordsIn(s);
    TrimRightKeepsWords(lower, TrimLeft(s));
  }

  lemma {:induction false} TrimLeftKeepsWords(lower: char -> char, s: string)
    requires OnlyBlanks(s)
    ensures WordsOf(lower, Split(TrimLeft(s), ' ')) == WordsOf(lower, Split(s, ' '))
  {
    if s != "" && IsSpace(s[0]) {
      assert s[0] in s;
      TrimLeftKeepsWords(lower, s[1..]);
      WordsOfAppend(lower, [""], Split(s[1..], ' '));
      WordsOfEmpty(lower);
    }
  }

  lemma {:induction false} TrimRightKeepsWords(lower: char -> char, s: string)
    requires OnlyBlanks(s)
    ensures WordsOf(lower, Split(TrimRight(s), ' ')) == WordsOf(lower, Split(s, ' '))
  {
    if s != "" && IsSpace(s[|s| - 1]) {
      var init := s[..|s| - 1];
      assert s[|s| - 1] in s && init + [' '] + "" == s;
      TrimRightKeepsWords(lower, init);
      SplitConcat(init, "", ' ');
      WordsOfAppend(lower, Split(init, ' '), [""]);
      WordsOfEmpty(lower);
    }
  }

  lemma {:induction false} LeftWords(lower: char -> char, words: seq<string>, stopwords: seq<string>)
    requires words != [] && forall w :: w in words ==> PlainWord(lower, w)
    ensures var joined := Join(Unstopped(words, stopwords), ' ');
            WordsOf(lower, Split(joined, ' ')) == NotIn(words, stopwords) && OnlyBlanks(joined)
  {
    var w, us := words[0], Unstopped(words, stopwords);
    assert w in words && us[0] == if w in stopwords then " " else w;
    OneLeft(lower, w, stopwords);
    if |words| > 1 {
      var rest := Join(Unstopped(words[1..], stopwords), ' ');
      assert us[1..] == Unstopped(words[1..], stopwords);
      LeftWords(lower, words[1..], stopwords);
      LeftBefore(lower, us[0], rest);
    } else {
      assert us == [us[0]] && NotIn(words[1..], stopwords) == [];
    }
  }

  predicate PlainWord(lower: char -> char, w: string) {
    w != "" && NoSpace(w) && Lower(lower, w) == w && !Special(w)
  }

  lemma LeftBefore(lower: char -> char, u: string, rest: string)
    requires OnlyBlanks(u) && OnlyBlanks(rest)
    ensures WordsOf(lower, Split(u + [' '] + rest, ' ')) == WordsOf(lower, Split(u, ' ')) + WordsOf(lower, Split(rest, ' '))
    ensures OnlyBlanks(u + [' '] + rest)
  {
    SplitConcat(u, rest, ' ');
    WordsOfAppend(lower, Split(u, ' '), Split(rest, ' '));
  }

  lemma OneLeft(lower: char -> char, w: string, stopwords: seq<string>)
    requires PlainWord(lower, w)
    ensures var u := if w in stopwords then " " else w;
            WordsOf(lower, Split(u, ' ')) == (if w in stopwords then [] else [w]) && OnlyBlanks(u)
  {
    assert IsSpace(' ');
    if w in stopwords {
      SplitConcat("", "", ' ');
      assert "" + [' '] + "" == " ";
      WordsOfAppend(lower, [""], [""]);
      WordsOfEmpty(lower);
    } else {
      SplitSingle(w, ' ');
      FieldsSingle("", w);
      assert "" + w == w;
      assert LowerAll(lower, [w]) == [w] && WordsOf(lower, []) == [] by {
        assert [w][1..] == [] && LowerAll(lower, []) == [];
      }
      assert [w][1..] == [];
    }
  }
}
