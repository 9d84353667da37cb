// String primitives of the Go standard library on which several components rely:
// strings.Split and strings.Join with a one-character separator, strconv.Itoa and strconv.Atoi.

module Wrappers {
  datatype Option<+T> = None | Some(value: T)
  {
    function GetOr(default: T): T {
      if Some? then value else default
    }
  }
}

module Strings {
  import opened Wrappers

  const MAX_INT: int := 0x7FFF_FFFF_FFFF_FFFF
  const MIN_INT: int := -0x8000_0000_0000_0000

  // ---------- Split and Join ----------

  function Split(s: string, sep: char): (tokens: seq<string>)
    ensures |tokens| >= 1
    ensures forall t :: t in tokens ==> sep !in t
  {
    if s == "" then [""]
    else
      var rest := Split(s[1..], sep);
      if s[0] == sep then [""] + rest else [[s[0]] + rest[0]] + rest[1..]
  }

  function Join(tokens: seq<string>, sep: char): string {
    if tokens == [] then ""
    else if |tokens| == 1 then tokens[0]
    else tokens[0] + [sep] + Join(tokens[1..], sep)
  }

  predicate SepFree(tokens: seq<string>, sep: char) {
    forall t :: t in tokens ==> sep !in t
  }

  lemma {:induction false} JoinSplit(s: string, sep: char)
    ensures Join(Split(s, sep), sep) == s
  {
    if s != "" {
      JoinSplit(s[1..], sep);
      var rest := Split(s[1..], sep);
      var tokens := Split(s, sep);
      if s[0] == sep {
        assert tokens[1..] == rest;
      } else {
        assert tokens[1..] == rest[1..];
      }
    }
  }

  lemma {:induction false} SplitSingle(s: string, sep: char)
    requires sep !in s
    ensures Split(s, sep) == [s]
  {
    if s != "" {
      SplitSingle(s[1..], sep);
      assert s[0] in s && [s[0]] + s[1..] == s;
    }
  }

  lemma {:induction false} SplitConcat(a: string, b: string, sep: char)
    ensures Split(a + [sep] + b, sep) == Split(a, sep) + Split(b, sep)
  {
    var s := a + [sep] + b;
    if a == "" {
      assert s[1..] == b;
    } else {
      assert s[1..] == a[1..] + [sep] + b;
      SplitConcat(a[1..], b, sep);
      HeadAdded(a[0], Split(a[1..], sep), Split(b, sep), sep);
    }
  }

  // Putting a character in front of split text only looks at the first token.
  lemma HeadAdded(c: char, rest: seq<string>, tail: seq<string>, sep: char)
    requires rest != []
    ensures var all := rest + tail;
            (if c == sep then [""] + all else [[c] + all[0]] + all[1..])
            == (if c == sep then [""] + rest else [[c] + rest[0]] + rest[1..]) + tail
  {
  }

  lemma {:induction false} SplitJoin(tokens: seq<string>, sep: char)
    requires tokens != [] && SepFree(tokens, sep)
    ensures Split(Join(tokens, sep), sep) == tokens
  {
    SplitSingle(tokens[0], sep);
    if |tokens| > 1 {
      SplitConcat(tokens[0], Join(tokens[1..], sep), sep);
      SplitJoin(tokens[1..], sep);
    }
  }

  lemma {:induction false} JoinAppend(a: seq<string>, b: seq<string>, sep: char)
    requires a != [] && b != []
    ensures Join(a + b, sep) == Join(a, sep) + [sep] + Join(b, sep)
  {
    if |a| == 1 {
      assert (a + b)[1..] == b;
    } else {
      assert (a + b)[1..] == a[1..] + b;
      JoinAppend(a[1..], b, sep);
    }
  }

  // Text without a separator only lengthens the last token.
  lemma SplitAppend(a: string, b: string, sep: char)
    requires sep !in b
    ensures var tokens := Split(a, sep);
            Split(a + b, sep) == tokens[..|tokens| - 1] + [tokens[|tokens| - 1] + b]
  {
    var tokens := Split(a, sep);
    var init, last := tokens[..|tokens| - 1], tokens[|tokens| - 1];
    assert init + [last] == tokens && last in tokens;
    JoinSplit(a, sep);
    assert SepFree(init + [last + b], sep);
    assert Join(init + [last + b], sep) == a + b by {
      JoinLast(init, last, b, sep);
    }
    SplitJoin(init + [last + b], sep);
  }

  lemma JoinLast(init: seq<string>, last: string, b: string, sep: char)
    ensures Join(init + [last + b], sep) == Join(init + [last], sep) + b
  {
    if init != [] {
      JoinAppend(init, [last], sep);
      JoinAppend(init, [last + b], sep);
      assert Join(init, sep) + [sep] + (last + b) == Join(init, sep) + [sep] + last + b;
    }
  }

  // The part of s after its first separator, as strings.SplitN(s, sep, 2)[1] returns it.
  lemma {:induction false} SplitTail(s: string, sep: char)
    requires |Split(s, sep)| > 1
    ensures |Split(s, sep)[0]| < |s|
    ensures Split(s[|Split(s, sep)[0]| + 1..], sep) == Split(s, sep)[1..]
  {
    if s[0] != sep {
      SplitTail(s[1..], sep);
      var n := |Split(s[1..], sep)[0]|;
      assert s[1..][n + 1..] == s[n + 2..];
    }
  }

  // ---------- Itoa and Atoi ----------

  predicate IsDigit(c: char) { '0' <= c <= '9' }

  predicate AllDigits(s: string) { forall c :: c in s ==> IsDigit(c) }

  function Digit(d: nat): char
    requires d < 10
  {
    '0' + d as char
  }

  function Itoa(n: nat): (s: string)
    ensures s != "" && AllDigits(s)
  {
    if n < 10 then [Digit(n)] else Itoa(n / 10) + [Digit(n % 10)]
  }

  function DigitsValue(s: string): nat
    requires AllDigits(s)
  {
    if s == "" then 0
    else
      assert s[|s| - 1] in s;
      10 * DigitsValue(s[..|s| - 1]) + (s[|s| - 1] as int - '0' as int)
  }

  // strconv.Atoi: an optional sign, at least one digit, and a value that fits a 64-bit int.
  function Atoi(s: string): Option<int> {
    var signed := s != "" && (s[0] == '-' || s[0] == '+');
    var digits := if signed then s[1..] else s;
    if digits == "" || !AllDigits(digits) then None
    else
      var v: int := DigitsValue(digits);
      var n := if signed && s[0] == '-' then -v else v;
      if MIN_INT <= n <= MAX_INT then Some(n) else None
  }

  lemma {:induction false} DigitsValueItoa(n: nat)
    ensures DigitsValue(Itoa(n)) == n
  {
    if n >= 10 {
      DigitsValueItoa(n / 10);
      var s := Itoa(n);
      assert s[..|s| - 1] == Itoa(n / 10);
    }
  }

  lemma {:induction false} AtoiItoa(n: nat)
    requires n <= MAX_INT
    ensures Atoi(Itoa(n)) == Some(n)
  {
    DigitsValueItoa(n);
    assert Itoa(n)[0] in Itoa(n);
  }

  lemma {:induction false} ItoaInjective(m: nat, n: nat)
    requires Itoa(m) == Itoa(n)
    ensures m == n
  {
    DigitsValueItoa(m);
    DigitsValueItoa(n);
  }

  lemma {:induction false} ItoaLacks(n: nat, c: char)
    requires !IsDigit(c)
    ensures c !in Itoa(n)
  {
    assert AllDigits(Itoa(n));
  }

  // ---------- What Atoi reads ----------

  // The value of a run of digits, and of one more digit behind it.
  lemma DigitsValueMeaning(s: string, d: nat)
    requires AllDigits(s) && d < 10
    ensures DigitsValue("") == 0 && DigitsValue(s + [Digit(d)]) == 10 * DigitsValue(s) + d
  {
    var t := s + [Digit(d)];
    assert t[..|t| - 1] == s;
  }

  // An optional sign and at least one digit, within the range of a 64-bit int.
  lemma AtoiMeaning(s: string)
    requires s != "" && AllDigits(s)
    ensures var v: int := DigitsValue(s);
            && Atoi(s) == (if v <= 0x7FFF_FFFF_FFFF_FFFF then Some(v) else None)
            && Atoi("+" + s) == (if v <= 0x7FFF_FFFF_FFFF_FFFF then Some(v) else None)
            && Atoi("-" + s) == (if v <= 0x8000_0000_0000_0000 then Some(-v) else None)
  {
    assert s[0] in s && s[0] != '-' && s[0] != '+';
    assert ("+" + s)[1..] == s && ("-" + s)[1..] == s;
  }

  // Nothing else is read.
  lemma AtoiReads(s: string)
    requires Atoi(s).Some?
    ensures exists digits :: digits != "" && AllDigits(digits) && s in [digits, "+" + digits, "-" + digits]
  {
    var digits := if s[0] == '-' || s[0] == '+' then s[1..] else s;
    assert s == [s[0]] + s[1..];
    assert digits != "" && AllDigits(digits) && s in [digits, "+" + digits, "-" + digits];
  }

  // No number but zero starts with a zero.
  lemma {:induction false} ItoaCanonical(n: nat)
    ensures Itoa(n)[0] == '0' ==> Itoa(n) == "0" && n == 0
  {
    if n >= 10 {
      ItoaCanonical(n / 10);
      assert Itoa(n)[0] == Itoa(n / 10)[0];
    }
  }
}
