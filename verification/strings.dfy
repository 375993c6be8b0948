/** String helpers the event registry relies on: ASCII case mapping (PHP's
    strtolower/strtoupper in the C locale), prefix test, a plain split on a
    separator character and the framework's camel-casing of underscored words. */
module Strings {

  predicate IsUpper(c: char) {
    'A' <= c <= 'Z'
  }

  predicate IsLower(c: char) {
    'a' <= c <= 'z'
  }

  function ToLower(c: char): (r: char)
    ensures IsUpper(c) ==> IsLower(r) && r as int == c as int + 32
    ensures !IsUpper(c) ==> r == c
  {
    if IsUpper(c) then (c as int + 32) as char else c
  }

  function ToUpper(c: char): (r: char)
    ensures IsLower(c) ==> IsUpper(r) && r as int == c as int - 32
    ensures !IsLower(c) ==> r == c
  {
    if IsLower(c) then (c as int - 32) as char else c
  }

  /** The string with its first character lower-cased (the empty string stays empty). */
  function LowerFirst(s: string): (r: string)
    ensures |r| == |s|
    ensures 0 < |s| ==> r[0] == ToLower(s[0]) && r[1..] == s[1..]
  {
    if s == [] then [] else [ToLower(s[0])] + s[1..]
  }

  predicate HasPrefix(s: string, prefix: string) {
    |prefix| <= |s| && s[..|prefix|] == prefix
  }

  /** Joins non-empty list of tokens with the separator between neighbours. */
  function Join(tokens: seq<string>, sep: char): string
    requires |tokens| >= 1
  {
    if |tokens| == 1 then tokens[0] else tokens[0] + [sep] + Join(tokens[1..], sep)
  }

  /** Splits at every occurrence of the separator, keeping empty tokens, so
      that there is always at least one token. */
  function Split(s: string, sep: char): (r: seq<string>)
    ensures |r| >= 1
    ensures forall i :: 0 <= i < |r| ==> sep !in r[i]
    ensures sep !in s ==> r == [s]
  {
    if s == [] then [""]
    else
      var rest := Split(s[1..], sep);
      assert s == [s[0]] + s[1..];
      if s[0] == sep then [""] + rest
      else [[s[0]] + rest[0]] + rest[1..]
  }

  /** Splitting a concatenation whose first part holds no separator glues that
      part onto the first token of the remainder. */
  lemma {:induction false} SplitPrefix(a: string, t: string, sep: char)
    requires sep !in a
    ensures Split(a + t, sep) == [a + Split(t, sep)[0]] + Split(t, sep)[1..]
  {
    var ts := Split(t, sep);
    if a == [] {
      assert a + t == t;
      assert a + ts[0] == ts[0];
      assert [ts[0]] + ts[1..] == ts;
    } else {
      var s := a + t;
      assert s[0] == a[0] && s[0] != sep;
      assert s[1..] == a[1..] + t;
      SplitPrefix(a[1..], t, sep);
      var rest := Split(s[1..], sep);
      assert rest == [a[1..] + ts[0]] + ts[1..];
      assert Split(s, sep) == [[s[0]] + rest[0]] + rest[1..];
      assert rest[0] == a[1..] + ts[0];
      assert rest[1..] == ts[1..];
      assert [a[0]] + (a[1..] + ts[0]) == a + ts[0];
    }
  }

  lemma SplitAtSeparator(a: string, u: string, sep: char)
    requires sep !in a
    ensures Split(a + [sep] + u, sep) == [a] + Split(u, sep)
  {
    var t := [sep] + u;
    SplitPrefix(a, t, sep);
    assert a + [sep] + u == a + t;
    assert t[0] == sep && t[1..] == u;
    assert Split(t, sep) == [""] + Split(u, sep);
    assert a + "" == a;
  }

  /** Joining a list led by the empty token puts a separator in front. */
  lemma JoinLeadingEmpty(ts: seq<string>, sep: char)
    requires |ts| >= 1
    ensures Join([""] + ts, sep) == [sep] + Join(ts, sep)
  {
    assert ([""] + ts)[1..] == ts;
  }

  /** Joining a list whose first token gained a leading character puts that
      character in front. */
  lemma JoinLeadingChar(c: char, ts: seq<string>, sep: char)
    requires |ts| >= 1
    ensures Join([[c] + ts[0]] + ts[1..], sep) == [c] + Join(ts, sep)
  {
    var us := [[c] + ts[0]] + ts[1..];
    assert us[0] == [c] + ts[0];
    if |ts| > 1 {
      assert us[1..] == ts[1..];
      assert [c] + ts[0] + [sep] + Join(ts[1..], sep) == [c] + (ts[0] + [sep] + Join(ts[1..], sep));
    }
  }

  /** Joining the tokens gives back the split string. */
  lemma {:induction false} JoinSplit(s: string, sep: char)
    ensures Join(Split(s, sep), sep) == s
  {
    if s != [] {
      var rest := Split(s[1..], sep);
      JoinSplit(s[1..], sep);
      if s[0] == sep {
        assert Split(s, sep) == [""] + rest;
        JoinLeadingEmpty(rest, sep);
      } else {
        assert Split(s, sep) == [[s[0]] + rest[0]] + rest[1..];
        JoinLeadingChar(s[0], rest, sep);
      }
      assert s == [s[0]] + s[1..];
    }
  }

  /** Splitting inverts joining when no token holds the separator. */
  lemma {:induction false} SplitJoin(tokens: seq<string>, sep: char)
    requires |tokens| >= 1
    requires forall i :: 0 <= i < |tokens| ==> sep !in tokens[i]
    ensures Split(Join(tokens, sep), sep) == tokens
  {
    if |tokens| > 1 {
      SplitJoin(tokens[1..], sep);
      SplitAtSeparator(tokens[0], Join(tokens[1..], sep), sep);
      assert [tokens[0]] + tokens[1..] == tokens;
    }
  }

  predicate IsWordBreak(c: char) {
    c == '_' || c == ' '
  }

  /** The camel-casing loop: word breaks are dropped and the character after
      one is upper-cased, as is the first when capital holds. */
  function CamelizeFrom(s: string, capital: bool): (r: string)
    ensures |r| <= |s|
    ensures forall i :: 0 <= i < |r| ==> !IsWordBreak(r[i])
  {
    if s == [] then []
    else if IsWordBreak(s[0]) then CamelizeFrom(s[1..], true)
    else [if capital then ToUpper(s[0]) else s[0]] + CamelizeFrom(s[1..], false)
  }

  /** The framework's camelize: underscores become word breaks, every word is
      given an upper-case initial and the breaks are removed. */
  function Camelize(s: string): string {
    CamelizeFrom(s, true)
  }

  /** Camel-casing distributes over an underscore: the part after it starts a
      new word whatever came before. */
  lemma {:induction false} CamelizeAppend(p: string, t: string, capital: bool)
    ensures CamelizeFrom(p + "_" + t, capital) == CamelizeFrom(p, capital) + CamelizeFrom(t, true)
  {
    if p == [] {
      assert p + "_" + t == "_" + t;
      assert ("_" + t)[1..] == t;
    } else {
      assert (p + "_" + t)[1..] == p[1..] + "_" + t;
      assert (p + "_" + t)[0] == p[0];
      if IsWordBreak(p[0]) {
        CamelizeAppend(p[1..], t, true);
      } else {
        CamelizeAppend(p[1..], t, false);
      }
    }
  }

  /** A break-free word with its first character lower-cased camel-cases
      back to the word with an upper-cased initial. */
  lemma CamelizeLowerFirst(word: string)
    requires |word| > 0
    requires forall i :: 0 <= i < |word| ==> !IsWordBreak(word[i])
    ensures Camelize(LowerFirst(word)) == [ToUpper(word[0])] + word[1..]
  {
    var k := LowerFirst(word);
    assert k == [ToLower(word[0])] + word[1..];
    assert !IsWordBreak(k[0]);
    assert k[1..] == word[1..];
    assert forall i :: 0 <= i < |word[1..]| ==> word[1..][i] == word[i + 1];
    CamelizePlain(word[1..]);
    assert ToUpper(ToLower(word[0])) == ToUpper(word[0]);
  }

  /** Without word breaks and without a pending capital, camel-casing is the identity. */
  lemma {:induction false} CamelizePlain(s: string)
    requires forall i :: 0 <= i < |s| ==> !IsWordBreak(s[i])
    ensures CamelizeFrom(s, false) == s
  {
    if s != [] {
      CamelizePlain(s[1..]);
    }
  }

}
