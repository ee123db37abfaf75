/**
 * String rewrites used by the vCard QR generator component:
 * splitting and joining on a delimiter, the address flattening
 * `address.replace(/\n/g, ", ")`, and the whitespace-run rewrite
 * `name.replace(/\s+/g, "_")` that produces download filenames.
 */
module Text {

  /** Number of occurrences of `c` in `s`. */
  function Count(s: string, c: char): (n: nat)
    ensures n <= |s|
    ensures n == 0 <==> c !in s
  {
    if s == [] then 0 else (if s[0] == c then 1 else 0) + Count(s[1..], c)
  }

  predicate HasPrefix(s: string, p: string) {
    |p| <= |s| && s[..|p|] == p
  }

  predicate HasSuffix(s: string, p: string) {
    |p| <= |s| && s[|s| - |p|..] == p
  }

  lemma PrefixOfAppend(a: string, b: string)
    ensures HasPrefix(a + b, a)
  {
    assert (a + b)[..|a|] == a;
  }

  lemma SuffixOfAppend(a: string, b: string)
    ensures HasSuffix(a + b, b)
  {
    assert (a + b)[|a|..] == b;
  }

  // ---------------------------------------------------------------
  // Splitting and joining (String.prototype.split / Array.prototype.join)
  // ---------------------------------------------------------------

  /** The pieces of `s` between occurrences of `d`, as `s.split(d)` gives them. */
  function Split(s: string, d: char): (parts: seq<string>)
    ensures |parts| == Count(s, d) + 1
    ensures forall i :: 0 <= i < |parts| ==> d !in parts[i]
  {
    if s == [] then [[]]
    else
      var rest := Split(s[1..], d);
      if s[0] == d then [[]] + rest
      else [[s[0]] + rest[0]] + rest[1..]
  }

  /** `parts.join(sep)`. */
  function Join(parts: seq<string>, sep: string): string {
    if |parts| == 0 then []
    else if |parts| == 1 then parts[0]
    else parts[0] + sep + Join(parts[1..], sep)
  }

  lemma {:induction false} JoinSnoc(parts: seq<string>, x: string, sep: string)
    requires |parts| >= 1
    ensures Join(parts + [x], sep) == Join(parts, sep) + sep + x
  {
    if |parts| == 1 {
      assert parts + [x] == [parts[0], x];
      assert ([parts[0], x])[1..] == [x];
    } else {
      assert (parts + [x])[1..] == parts[1..] + [x];
      JoinSnoc(parts[1..], x, sep);
    }
  }

  lemma {:induction false} JoinAppend(a: seq<string>, b: seq<string>, sep: string)
    requires |a| >= 1 && |b| >= 1
    ensures Join(a + b, sep) == Join(a, sep) + sep + Join(b, sep)
  {
    if |a| == 1 {
      assert (a + b)[0] == a[0];
      assert (a + b)[1..] == b;
    } else {
      assert (a + b)[1..] == a[1..] + b;
      JoinAppend(a[1..], b, sep);
    }
  }

  /** Splitting text that starts with a delimiter-free piece and a delimiter. */
  lemma {:induction false} SplitCons(p: string, d: char, rest: string)
    requires d !in p
    ensures Split(p + [d] + rest, d) == [p] + Split(rest, d)
  {
    if p == [] {
      assert p + [d] + rest == [d] + rest;
      assert ([d] + rest)[1..] == rest;
    } else {
      var tail := p[1..] + [d] + rest;
      assert p + [d] + rest == [p[0]] + tail;
      SplitConsOther(p[0], tail, d);
      SplitCons(p[1..], d, rest);
      var r := Split(tail, d);
      assert r == [p[1..]] + Split(rest, d);
      assert r[0] == p[1..] && r[1..] == Split(rest, d);
      assert [p[0]] + p[1..] == p;
    }
  }

  lemma {:induction false} SplitNoDelimiter(s: string, d: char)
    requires d !in s
    ensures Split(s, d) == [s]
  {
    if s != [] {
      SplitNoDelimiter(s[1..], d);
      assert [s[0]] + s[1..] == s;
    }
  }

  /** Splitting text that starts with a character other than the delimiter. */
  lemma SplitConsOther(x: char, rest: string, d: char)
    requires x != d
    ensures Split([x] + rest, d) == [[x] + Split(rest, d)[0]] + Split(rest, d)[1..]
  {
    assert ([x] + rest)[1..] == rest;
  }

  /** Extending the first piece extends the joined text. */
  lemma JoinExtendFirst(x: char, parts: seq<string>, sep: string)
    requires |parts| >= 1
    ensures Join([[x] + parts[0]] + parts[1..], sep) == [x] + Join(parts, sep)
  {
    var q := [[x] + parts[0]] + parts[1..];
    if |parts| > 1 {
      assert q[1..] == parts[1..];
    }
  }

  /** Joining the pieces back with the delimiter gives the original text. */
  lemma {:induction false} JoinSplit(s: string, d: char)
    ensures Join(Split(s, d), [d]) == s
  {
    if s != [] {
      var rest := Split(s[1..], d);
      assert s == [s[0]] + s[1..];
      JoinSplit(s[1..], d);
      if s[0] == d {
        assert Split(s, d) == [[]] + rest;
        assert ([[]] + rest)[1..] == rest;
      } else {
        SplitConsOther(s[0], s[1..], d);
        JoinExtendFirst(s[0], rest, [d]);
      }
    }
  }

  /** Splitting a join of delimiter-free lines gives the lines back. */
  lemma {:induction false} SplitJoin(parts: seq<string>, d: char)
    requires |parts| >= 1
    requires forall i :: 0 <= i < |parts| ==> d !in parts[i]
    ensures Split(Join(parts, [d]), d) == parts
  {
    if |parts| == 1 {
      SplitNoDelimiter(parts[0], d);
    } else {
      SplitJoin(parts[1..], d);
      SplitCons(parts[0], d, Join(parts[1..], [d]));
      assert parts == [parts[0]] + parts[1..];
    }
  }

  // ---------------------------------------------------------------
  // Address flattening: address.replace(/\n/g, ", ")
  // ---------------------------------------------------------------

  /** Every line feed replaced by a comma and a space. */
  function FlattenNewlines(s: string): (r: string)
    ensures '\n' !in r
    ensures |r| == |s| + Count(s, '\n')
  {
    if s == [] then []
    else (if s[0] == '\n' then ", " else [s[0]]) + FlattenNewlines(s[1..])
  }

  /** Text with no line feed is left as it is. */
  lemma {:induction false} FlattenNoNewline(s: string)
    requires '\n' !in s
    ensures FlattenNewlines(s) == s
  {
    if s != [] {
      FlattenNoNewline(s[1..]);
      assert [s[0]] + s[1..] == s;
    }
  }

  /**
   * Flattening keeps the characters between line feeds, in order, and puts
   * ", " exactly where each line feed was: it is split-on-"\n", join-with-", ".
   */
  lemma {:induction false} FlattenIsSplitJoin(s: string)
    ensures FlattenNewlines(s) == Join(Split(s, '\n'), ", ")
  {
    if s != [] {
      var rest := Split(s[1..], '\n');
      assert s == [s[0]] + s[1..];
      FlattenIsSplitJoin(s[1..]);
      if s[0] == '\n' {
        assert Split(s, '\n') == [[]] + rest;
        assert ([[]] + rest)[1..] == rest;
      } else {
        SplitConsOther(s[0], s[1..], '\n');
        JoinExtendFirst(s[0], rest, ", ");
      }
    }
  }
  /**
   * Cutting the text at its line feeds gives pieces free of them; the
   * original is those pieces joined by line feeds, the flattened text the
   * same pieces, in the same order, joined by ", ".
   */
  lemma FlattenRecovers(s: string)
    ensures var pieces := Split(s, '\n');
      (forall i :: 0 <= i < |pieces| ==> '\n' !in pieces[i])
      && Join(pieces, "\n") == s && FlattenNewlines(s) == Join(pieces, ", ")
  {
    assert "\n" == ['\n'];
    JoinSplit(s, '\n');
    FlattenIsSplitJoin(s);
  }


  // ---------------------------------------------------------------
  // Whitespace runs: s.replace(/\s+/g, "_")
  // ---------------------------------------------------------------

  /**
   * The characters matched by the regular-expression class `\s`: the
   * ECMAScript WhiteSpace and LineTerminator code points.
   */
  predicate IsWhitespace(ch: char) {
    var n := ch as int;
    n == 0x09 || n == 0x0A || n == 0x0B || n == 0x0C || n == 0x0D || n == 0x20
    || n == 0xA0 || n == 0x1680 || (0x2000 <= n <= 0x200A)
    || n == 0x2028 || n == 0x2029 || n == 0x202F || n == 0x205F
    || n == 0x3000 || n == 0xFEFF
  }

  /**
   * Within ASCII the class is exactly tab, line feed, vertical tab, form
   * feed, carriage return and space; underscore is not whitespace.
   */
  lemma AsciiWhitespace(ch: char)
    requires ch as int < 0x80
    ensures IsWhitespace(ch) <==> (0x09 <= ch as int <= 0x0D) || ch == ' '
    ensures !IsWhitespace('_')
  {
  }

  predicate NoWhitespace(s: string) {
    forall i :: 0 <= i < |s| ==> !IsWhitespace(s[i])
  }

  /** `s` without its leading run of whitespace. */
  function SkipWhitespace(s: string): (r: string)
    ensures |r| <= |s|
    ensures r == [] || !IsWhitespace(r[0])
  {
    if s != [] && IsWhitespace(s[0]) then SkipWhitespace(s[1..]) else s
  }

  /** What is skipped is a prefix made only of whitespace; the rest is kept as it is. */
  lemma {:induction false} SkipWhitespaceDrops(s: string)
    ensures var r := SkipWhitespace(s);
      r == s[|s| - |r|..] && forall i :: 0 <= i < |s| - |r| ==> IsWhitespace(s[i])
  {
    if s != [] && IsWhitespace(s[0]) {
      SkipWhitespaceDrops(s[1..]);
      var r := SkipWhitespace(s[1..]);
      assert s[1..][|s[1..]| - |r|..] == s[|s| - |r|..];
      forall i | 0 <= i < |s| - |r|
        ensures IsWhitespace(s[i])
      {
        if i > 0 {
          assert s[i] == s[1..][i - 1];
        }
      }
    } else {
      assert s[0..] == s;
    }
  }

  /** Each maximal run of whitespace replaced by one underscore. */
  function CollapseWhitespace(s: string): (r: string)
    ensures |r| <= |s|
    decreases |s|
  {
    if s == [] then []
    else if IsWhitespace(s[0]) then "_" + CollapseWhitespace(SkipWhitespace(s[1..]))
    else [s[0]] + CollapseWhitespace(s[1..])
  }

  /** No whitespace survives the rewrite. */
  lemma {:induction false} CollapseRemovesWhitespace(s: string)
    ensures NoWhitespace(CollapseWhitespace(s))
    decreases |s|
  {
    if s != [] {
      if IsWhitespace(s[0]) {
        CollapseRemovesWhitespace(SkipWhitespace(s[1..]));
      } else {
        CollapseRemovesWhitespace(s[1..]);
      }
    }
  }

  /** Text without whitespace is left as it is. */
  lemma {:induction false} CollapseNoWhitespace(s: string)
    requires NoWhitespace(s)
    ensures CollapseWhitespace(s) == s
  {
    if s != [] {
      CollapseNoWhitespace(s[1..]);
      assert [s[0]] + s[1..] == s;
    }
  }

  /** Applying the rewrite a second time changes nothing. */
  lemma CollapseIdempotent(s: string)
    ensures CollapseWhitespace(CollapseWhitespace(s)) == CollapseWhitespace(s)
  {
    CollapseRemovesWhitespace(s);
    CollapseNoWhitespace(CollapseWhitespace(s));
  }

  lemma {:induction false} SkipWhitespaceAppend(a: string, b: string)
    requires b == [] || !IsWhitespace(b[0])
    ensures SkipWhitespace(a + b) == SkipWhitespace(a) + b
  {
    if a == [] {
      assert a + b == b;
    } else if IsWhitespace(a[0]) {
      assert (a + b)[1..] == a[1..] + b;
      SkipWhitespaceAppend(a[1..], b);
    }
  }

  lemma CollapseConsWhitespace(x: char, s: string)
    requires IsWhitespace(x)
    ensures CollapseWhitespace([x] + s) == "_" + CollapseWhitespace(SkipWhitespace(s))
  {
    assert ([x] + s)[1..] == s;
  }

  lemma CollapseConsOther(x: char, s: string)
    requires !IsWhitespace(x)
    ensures CollapseWhitespace([x] + s) == [x] + CollapseWhitespace(s)
  {
    assert ([x] + s)[1..] == s;
  }

  lemma SuffixHead(s: string, r: string)
    requires |r| <= |s| && r == s[|s| - |r|..]
    ensures r == [] || r[0] == s[|s| - |r|]
  {
  }

  /** Text made only of whitespace is skipped entirely. */
  lemma SkipAllWhitespace(w: string)
    requires forall i :: 0 <= i < |w| ==> IsWhitespace(w[i])
    ensures SkipWhitespace(w) == []
  {
    SkipWhitespaceDrops(w);
    SuffixHead(w, SkipWhitespace(w));
  }

  /** A run that stops inside `s` is not affected by what follows `s`. */
  lemma {:induction false} SkipWhitespaceBefore(s: string, t: string)
    requires s != [] && !IsWhitespace(s[|s| - 1])
    ensures SkipWhitespace(s + t) == SkipWhitespace(s) + t
    ensures SkipWhitespace(s) != [] && !IsWhitespace(SkipWhitespace(s)[|SkipWhitespace(s)| - 1])
  {
    if IsWhitespace(s[0]) {
      assert |s| > 1;
      assert (s + t)[1..] == s[1..] + t;
      assert s[1..][|s[1..]| - 1] == s[|s| - 1];
      SkipWhitespaceBefore(s[1..], t);
    } else {
      assert (s + t)[0] == s[0];
    }
  }

  /** After text that does not end in whitespace, the rewrite works on each part separately. */
  lemma {:induction false} CollapseAfter(a: string, t: string)
    requires a == [] || !IsWhitespace(a[|a| - 1])
    ensures CollapseWhitespace(a + t) == CollapseWhitespace(a) + CollapseWhitespace(t)
    decreases |a|
  {
    if a == [] {
      assert a + t == t;
    } else {
      var x, rest := a[0], a[1..];
      assert a == [x] + rest;
      assert a + t == [x] + (rest + t);
      if IsWhitespace(x) {
        assert |rest| > 0 && rest[|rest| - 1] == a[|a| - 1];
        var u := SkipWhitespace(rest);
        SkipWhitespaceBefore(rest, t);
        calc {
          CollapseWhitespace([x] + (rest + t));
        == { CollapseConsWhitespace(x, rest + t); }
          "_" + CollapseWhitespace(u + t);
        == { CollapseAfter(u, t); }
          "_" + (CollapseWhitespace(u) + CollapseWhitespace(t));
        ==
          ("_" + CollapseWhitespace(u)) + CollapseWhitespace(t);
        == { CollapseConsWhitespace(x, rest); }
          CollapseWhitespace(a) + CollapseWhitespace(t);
        }
      } else {
        assert rest == [] || rest[|rest| - 1] == a[|a| - 1];
        calc {
          CollapseWhitespace([x] + (rest + t));
        == { CollapseConsOther(x, rest + t); }
          [x] + CollapseWhitespace(rest + t);
        == { CollapseAfter(rest, t); }
          [x] + (CollapseWhitespace(rest) + CollapseWhitespace(t));
        ==
          ([x] + CollapseWhitespace(rest)) + CollapseWhitespace(t);
        == { CollapseConsOther(x, rest); }
          CollapseWhitespace(a) + CollapseWhitespace(t);
        }
      }
    }
  }

  /** After the first character of a whitespace run, skipping reaches the text behind the run. */
  lemma SkipRestOfRun(w: string, b: string)
    requires w != [] && forall i :: 0 <= i < |w| ==> IsWhitespace(w[i])
    requires b == [] || !IsWhitespace(b[0])
    ensures SkipWhitespace(w[1..] + b) == b
  {
    var rest := w[1..];
    assert forall i :: 0 <= i < |rest| ==> IsWhitespace(rest[i]) by {
      forall i | 0 <= i < |rest|
        ensures IsWhitespace(rest[i])
      {
        assert rest[i] == w[i + 1];
      }
    }
    SkipWhitespaceAppend(rest, b);
    SkipAllWhitespace(rest);
    assert SkipWhitespace(rest) + b == b;
  }

  /** Splitting off the first character of a concatenation. */
  lemma ConsOfAppend(w: string, b: string)
    requires w != []
    ensures w + b == [w[0]] + (w[1..] + b)
  {
  }

  /** A leading run of whitespace becomes one underscore. */
  lemma CollapseLeadingRun(w: string, b: string)
    requires w != [] && forall i :: 0 <= i < |w| ==> IsWhitespace(w[i])
    requires b == [] || !IsWhitespace(b[0])
    ensures CollapseWhitespace(w + b) == "_" + CollapseWhitespace(b)
  {
    ConsOfAppend(w, b);
    CollapseConsWhitespace(w[0], w[1..] + b);
    SkipRestOfRun(w, b);
  }

  /** Regrouping the three parts of `CollapseRun`. */
  lemma CollapseRegroup(a: string, w: string, b: string, x: string, y: string)
    requires CollapseWhitespace(a + (w + b)) == x + ("_" + y)
    ensures CollapseWhitespace(a + w + b) == x + "_" + y
  {
    assert a + w + b == a + (w + b);
    assert x + ("_" + y) == x + "_" + y;
  }

  /**
   * The defining rule: a maximal run of whitespace, whatever its length,
   * becomes exactly one underscore, and the text on either side is
   * rewritten on its own.
   */
  lemma CollapseRun(a: string, w: string, b: string)
    requires a == [] || !IsWhitespace(a[|a| - 1])
    requires w != [] && forall i :: 0 <= i < |w| ==> IsWhitespace(w[i])
    requires b == [] || !IsWhitespace(b[0])
    ensures CollapseWhitespace(a + w + b) == CollapseWhitespace(a) + "_" + CollapseWhitespace(b)
  {
    CollapseAfter(a, w + b);
    CollapseLeadingRun(w, b);
    CollapseRegroup(a, w, b, CollapseWhitespace(a), CollapseWhitespace(b));
  }

  /** A run of whitespace cannot continue across a non-whitespace boundary. */
  lemma {:induction false} CollapseAppend(a: string, b: string)
    requires b == [] || !IsWhitespace(b[0])
    ensures CollapseWhitespace(a + b) == CollapseWhitespace(a) + CollapseWhitespace(b)
    decreases |a|, 1
  {
    if a == [] {
      assert a + b == b;
    } else {
      assert a == [a[0]] + a[1..];
      assert a + b == [a[0]] + (a[1..] + b);
      if IsWhitespace(a[0]) {
        CollapseAppendRun(a[0], a[1..], b);
      } else {
        CollapseAppendOther(a[0], a[1..], b);
      }
    }
  }

  lemma {:induction false} CollapseAppendRun(x: char, rest: string, b: string)
    requires IsWhitespace(x)
    requires b == [] || !IsWhitespace(b[0])
    ensures CollapseWhitespace([x] + rest + b) == CollapseWhitespace([x] + rest) + CollapseWhitespace(b)
    decreases |rest| + 1, 0
  {
    var t := SkipWhitespace(rest);
    assert [x] + rest + b == [x] + (rest + b);
    calc {
      CollapseWhitespace([x] + (rest + b));
    == { CollapseConsWhitespace(x, rest + b); }
      "_" + CollapseWhitespace(SkipWhitespace(rest + b));
    == { SkipWhitespaceAppend(rest, b); }
      "_" + CollapseWhitespace(t + b);
    == { CollapseAppend(t, b); }
      "_" + (CollapseWhitespace(t) + CollapseWhitespace(b));
    ==
      ("_" + CollapseWhitespace(t)) + CollapseWhitespace(b);
    == { CollapseConsWhitespace(x, rest); }
      CollapseWhitespace([x] + rest) + CollapseWhitespace(b);
    }
  }

  lemma {:induction false} CollapseAppendOther(x: char, rest: string, b: string)
    requires !IsWhitespace(x)
    requires b == [] || !IsWhitespace(b[0])
    ensures CollapseWhitespace([x] + rest + b) == CollapseWhitespace([x] + rest) + CollapseWhitespace(b)
    decreases |rest| + 1, 0
  {
    assert [x] + rest + b == [x] + (rest + b);
    calc {
      CollapseWhitespace([x] + (rest + b));
    == { CollapseConsOther(x, rest + b); }
      [x] + CollapseWhitespace(rest + b);
    == { CollapseAppend(rest, b); }
      [x] + (CollapseWhitespace(rest) + CollapseWhitespace(b));
    ==
      ([x] + CollapseWhitespace(rest)) + CollapseWhitespace(b);
    == { CollapseConsOther(x, rest); }
      CollapseWhitespace([x] + rest) + CollapseWhitespace(b);
    }
  }

  /** The characters that are neither whitespace nor an underscore, in order. */
  function Visible(s: string): string {
    if s == [] then []
    else (if IsWhitespace(s[0]) || s[0] == '_' then [] else [s[0]]) + Visible(s[1..])
  }

  lemma {:induction false} VisibleSkip(s: string)
    ensures Visible(SkipWhitespace(s)) == Visible(s)
  {
    if s != [] && IsWhitespace(s[0]) {
      VisibleSkip(s[1..]);
    }
  }

  /** The rewrite removes and inserts only whitespace and underscores. */
  lemma {:induction false} CollapseKeepsVisible(s: string)
    ensures Visible(CollapseWhitespace(s)) == Visible(s)
    decreases |s|
  {
    if s != [] {
      var r := CollapseWhitespace(s);
      if IsWhitespace(s[0]) {
        var t := SkipWhitespace(s[1..]);
        assert r[1..] == CollapseWhitespace(t);
        CollapseKeepsVisible(t);
        VisibleSkip(s[1..]);
      } else {
        assert r[1..] == CollapseWhitespace(s[1..]);
        CollapseKeepsVisible(s[1..]);
      }
    }
  }
}
