/** The string primitives the parsers rely on: splitting on a separator,
    joining back, ASCII lower-casing and substring containment. */
module Text {

  /** Tokens of `s` separated by `sep`, empty tokens included, as a split on
      one separator character does: "" gives [""], "a..b" gives ["a", "", "b"]. */
  function Split(s: string, sep: char): (r: seq<string>)
    ensures |r| >= 1
    ensures forall k :: 0 <= k < |r| ==> sep !in r[k]
    ensures Join(r, sep) == s
  {
    if |s| == 0 then [""]
    else
      var rest := Split(s[1..], sep);
      if s[0] == sep then
        assert s == [sep] + s[1..];
        [""] + rest
      else
        var r := [[s[0]] + rest[0]] + rest[1..];
        assert r[1..] == rest[1..];
        assert |rest| > 1 ==> Join(rest, sep) == rest[0] + [sep] + Join(rest[1..], sep);
        assert s == [s[0]] + s[1..];
        r
  }

  /** The tokens glued together with `sep` between neighbours. */
  function Join(tokens: seq<string>, sep: char): string
    requires |tokens| >= 1
    decreases |tokens|
  {
    if |tokens| == 1 then tokens[0]
    else tokens[0] + [sep] + Join(tokens[1..], sep)
  }

  /** Splitting a token that holds no separator, followed by anything, glues
      that token onto the first token of what follows. */
  lemma {:induction false} SplitPrefix(w: string, tail: string, sep: char)
    requires sep !in w
    ensures Split(w + tail, sep) == [w + Split(tail, sep)[0]] + Split(tail, sep)[1..]
    decreases |w|
  {
    var t := Split(tail, sep);
    if w == [] {
      assert w + tail == tail;
      assert w + t[0] == t[0];
      assert t == [t[0]] + t[1..];
    } else {
      var s := w + tail;
      assert s[0] == w[0] && s[1..] == w[1..] + tail;
      SplitPrefix(w[1..], tail, sep);
      var rest := Split(s[1..], sep);
      assert rest == [w[1..] + t[0]] + t[1..];
      assert rest[0] == w[1..] + t[0] && rest[1..] == t[1..];
      assert Split(s, sep) == [[s[0]] + rest[0]] + rest[1..];
      assert [w[0]] + (w[1..] + t[0]) == w + t[0];
    }
  }

  /** Split undoes Join for tokens that hold no separator. */
  lemma {:induction false} SplitJoin(tokens: seq<string>, sep: char)
    requires |tokens| >= 1
    requires forall k :: 0 <= k < |tokens| ==> sep !in tokens[k]
    ensures Split(Join(tokens, sep), sep) == tokens
    decreases |tokens|
  {
    if |tokens| == 1 {
      SplitPrefix(tokens[0], "", sep);
      assert tokens[0] + "" == tokens[0];
    } else {
      var rest := Join(tokens[1..], sep);
      SplitJoin(tokens[1..], sep);
      var glued := [sep] + rest;
      assert glued[0] == sep && glued[1..] == rest;
      assert Split(glued, sep) == [""] + tokens[1..];
      assert tokens[0] + [sep] + rest == tokens[0] + glued;
      SplitPrefix(tokens[0], glued, sep);
      assert tokens[0] + "" == tokens[0];
      assert tokens == [tokens[0]] + tokens[1..];
    }
  }

  function LowerChar(c: char): char
  {
    if 'A' <= c <= 'Z' then (c as int - 'A' as int + 'a' as int) as char else c
  }

  /** ASCII lower-casing, one character at a time. */
  function Lower(s: string): (r: string)
    ensures |r| == |s|
    ensures forall i :: 0 <= i < |s| ==> r[i] == LowerChar(s[i])
  {
    if s == [] then [] else [LowerChar(s[0])] + Lower(s[1..])
  }

  /** Lower-casing twice is lower-casing once. */
  lemma LowerIdempotent(s: string)
    ensures Lower(Lower(s)) == Lower(s)
  {
  }

  /** `pattern` occurs in `text` starting at index `i`. */
  ghost predicate OccursAt(text: string, pattern: string, i: int)
  {
    0 <= i && i + |pattern| <= |text| && text[i..i + |pattern|] == pattern
  }

  /** Substring containment, searched from the left. */
  function Contains(text: string, pattern: string): bool
    decreases |text|
  {
    if pattern <= text then true
    else if |text| <= |pattern| then false
    else Contains(text[1..], pattern)
  }

  lemma OccursAtStart(text: string, pattern: string)
    ensures OccursAt(text, pattern, 0) <==> pattern <= text
  {
  }

  lemma OccursAtShift(text: string, pattern: string, i: int)
    requires |text| > 0 && i >= 1
    ensures OccursAt(text, pattern, i) <==> OccursAt(text[1..], pattern, i - 1)
  {
    if i + |pattern| <= |text| {
      assert text[1..][i - 1..i - 1 + |pattern|] == text[i..i + |pattern|];
    }
  }

  /** Contains answers exactly whether the pattern occurs somewhere. */
  lemma {:induction false} ContainsIff(text: string, pattern: string)
    ensures Contains(text, pattern) <==> exists i :: OccursAt(text, pattern, i)
    decreases |text|
  {
    OccursAtStart(text, pattern);
    if pattern <= text {
    } else if |text| <= |pattern| {
      forall i | i != 0
        ensures !OccursAt(text, pattern, i)
      {
      }
    } else {
      ContainsIff(text[1..], pattern);
      forall i | i >= 1
        ensures OccursAt(text, pattern, i) <==> OccursAt(text[1..], pattern, i - 1)
      {
        OccursAtShift(text, pattern, i);
      }
      if Contains(text[1..], pattern) {
        var j :| OccursAt(text[1..], pattern, j);
        assert OccursAt(text, pattern, j + 1);
      } else {
        forall i | i >= 1
          ensures !OccursAt(text, pattern, i)
        {
          assert !OccursAt(text[1..], pattern, i - 1);
        }
      }
    }
  }
}
