/** Splitting is a retraction: what it returns are statements without comments or stray
    semicolons, and any list of such statements, joined by semicolons, splits into itself. */
module SqlSplitterTheorems {
  import opened SqlSplitter

  // Text without comments and without a semicolon outside quotes, ending in plain text.

  predicate Clean(k: CharClasses, t: string)
    decreases |t|
  {
    if t == "" then true
    else if OpensComment(t) || t[0] == ';' then false
    else if IsQuote(t[0]) then CleanQuoted(k, t[0], t[1..])
    else if OpensDollar(k, t) then CleanDollar(k, DollarQuote(t), t[|DollarQuote(t)|..])
    else Clean(k, t[1..])
  }

  predicate CleanQuoted(k: CharClasses, quote: char, t: string)
    decreases |t|
  {
    if t == "" then false
    else if t[0] != quote then CleanQuoted(k, quote, t[1..])
    else if At(t, quote, quote) then CleanQuoted(k, quote, t[2..])
    else Clean(k, t[1..])
  }

  predicate CleanDollar(k: CharClasses, tag: string, t: string)
    requires tag != ""
    decreases |t|
  {
    if t == "" then false
    else if Starts(t, tag) then Clean(k, t[|tag|..])
    else CleanDollar(k, tag, t[1..])
  }

  ghost predicate AllClean(k: CharClasses, pieces: seq<string>) {
    forall i :: 0 <= i < |pieces| ==> Clean(k, pieces[i])
  }

  // Every piece the lexer emits is clean.

  /** After glued text, the next emitted character is the next source character, unless a
      comment comes first, which leaves a space. */
  lemma FirstEmitted(k: CharClasses, s: string)
    ensures var o := Plain(k, s, true);
      o.Good? && o.pieces[0] != "" ==> o.pieces[0][0] == ' ' || (s != "" && o.pieces[0][0] == s[0])
  {
  }

  /** A dollar sign that does not open a quote in the source does not open one in the output. */
  lemma TagCharIsKept(k: CharClasses, s: string)
    requires Sane(k) && s != "" && TagChar(k, s[0])
    ensures Plain(k, s, true) == Prefix([s[0]], Plain(k, s[1..], true))
  {
    assert !OpensComment(s) && !IsQuote(s[0]) && s[0] != '$' && s[0] != ';' && !k.isSpace(s[0]);
  }

  /** What reading `s` as plain text puts out before the first semicolon. */
  function Emitted(k: CharClasses, s: string): string {
    var o := Plain(k, s, true);
    if o.Good? then o.pieces[0] else ""
  }

  lemma FirstIsKept(k: CharClasses, s: string)
    requires Sane(k) && Emitted(k, s) != "" && (Emitted(k, s)[0] == '$' || TagChar(k, Emitted(k, s)[0]))
    ensures s != "" && s[0] == Emitted(k, s)[0]
  {
    FirstEmitted(k, s);
  }

  lemma RestIsKept(k: CharClasses, s: string)
    requires Sane(k) && s != "" && TagChar(k, s[0]) && Emitted(k, s) != ""
    ensures Emitted(k, s) == [s[0]] + Emitted(k, s[1..])
  {
    TagCharIsKept(k, s);
  }

  lemma SamePrefixCons(s: string, q: string, n: nat)
    requires 0 < n <= |q| && n < |s| && s[1..][..n] == q[..n]
    ensures s[..n + 1] == ([s[0]] + q)[..n + 1]
  {
    assert s[..n + 1] == [s[0]] + s[1..][..n];
  }

  /** Tag characters up to a dollar sign at place `n`. */
  predicate TagThenDollar(k: CharClasses, p: string, n: nat) {
    n < |p| && p[n] == '$' && forall i :: 0 <= i < n ==> TagChar(k, p[i])
  }

  lemma TagThenDollarRest(k: CharClasses, c: char, q: string, n: nat)
    requires TagThenDollar(k, [c] + q, n)
    ensures if n == 0 then c == '$' else TagChar(k, c) && TagThenDollar(k, q, n - 1)
  {
    var p := [c] + q;
    assert p[0] == c;
    assert forall i :: 0 <= i < |q| ==> q[i] == p[i + 1];
  }

  lemma {:induction false} DollarNotMade(k: CharClasses, s: string, n: nat)
    requires Sane(k) && TagThenDollar(k, Emitted(k, s), n)
    ensures n < |s| && s[..n + 1] == Emitted(k, s)[..n + 1]
    decreases n
  {
    var p := Emitted(k, s);
    assert p == [p[0]] + p[1..];
    TagThenDollarRest(k, p[0], p[1..], n);
    FirstIsKept(k, s);
    if n > 0 {
      RestIsKept(k, s);
      assert p[1..] == Emitted(k, s[1..]);
      DollarNotMade(k, s[1..], n - 1);
      SamePrefixCons(s, p[1..], n);
    }
  }

  lemma PlainCharIsClean(k: CharClasses, s: string)
    requires Sane(k) && s != "" && !OpensComment(s) && !IsQuote(s[0]) && s[0] != ';' && !OpensDollar(k, s)
    requires var rest := Plain(k, s[1..], !k.isSpace(s[0])); rest.Good? && Clean(k, rest.pieces[0])
    ensures Clean(k, [s[0]] + Plain(k, s[1..], !k.isSpace(s[0])).pieces[0])
  {
    var p := Plain(k, s[1..], !k.isSpace(s[0])).pieces[0];
    var t := [s[0]] + p;
    assert t[1..] == p && t[0] == s[0];
    if s[0] in PUNCTUATION { FirstEmitted(k, s[1..]); }
    assert !OpensComment(t);
    if s[0] == '$' && OpensDollar(k, t) { OpensInSourceToo(k, s); }
  }

  lemma OpensInSourceToo(k: CharClasses, s: string)
    requires Sane(k) && s != "" && s[0] == '$' && Plain(k, s[1..], true).Good?
    requires OpensDollar(k, ['$'] + Plain(k, s[1..], true).pieces[0])
    ensures OpensDollar(k, s)
  {
    var p := Plain(k, s[1..], true).pieces[0];
    TagInside(k, p);
    DollarNotMade(k, s[1..], NextDollar(p));
    SameTagOpens(k, p, s);
  }

  lemma TagInside(k: CharClasses, p: string)
    requires OpensDollar(k, ['$'] + p)
    ensures NextDollar(p) < |p| && forall i :: 0 <= i < NextDollar(p) ==> TagChar(k, p[i])
  {
    var t := ['$'] + p;
    assert t[1..] == p;
    assert TagOk(k, t, NextDollar(p));
    assert forall i :: 0 <= i < |p| ==> p[i] == t[i + 1];
  }

  lemma HeadAndPrefix(s: string, n: nat)
    requires n < |s|
    ensures s[..n + 1] == [s[0]] + s[1..][..n]
  {
  }

  lemma SameTagOpens(k: CharClasses, p: string, s: string)
    requires OpensDollar(k, ['$'] + p) && NextDollar(p) < |p|
    requires s != "" && s[0] == '$' && NextDollar(p) < |s| - 1 && s[1..][..NextDollar(p) + 1] == p[..NextDollar(p) + 1]
    ensures OpensDollar(k, s)
  {
    var t := ['$'] + p;
    assert t[1..] == p;
    HeadAndPrefix(t, NextDollar(p) + 1);
    HeadAndPrefix(s, NextDollar(p) + 1);
    SameOpening(k, t, s);
  }

  lemma SameDollar(s: string, p: string, n: nat)
    requires n == NextDollar(p) < |p| && n < |s| && s[..n + 1] == p[..n + 1]
    ensures NextDollar(s) == n
  {
    assert s[n] == s[..n + 1][n] == p[n] == '$';
    assert forall i :: 0 <= i < n ==> s[i] == s[..n + 1][i] == p[i];
  }

  /** Inside a dollar quote the output repeats the source at least up to the length of the tag. */
  lemma {:induction false} DollarIsVerbatim(k: CharClasses, tag: string, s: string)
    requires tag != "" && Dollar(k, tag, s).Good?
    ensures var p := Dollar(k, tag, s).pieces[0]; |tag| <= |s| && |tag| <= |p| && p[..|tag|] == s[..|tag|]
    decreases |s|
  {
    if !Starts(s, tag) {
      DollarIsVerbatim(k, tag, s[1..]);
      var p1 := Dollar(k, tag, s[1..]).pieces[0];
      assert ([s[0]] + p1)[..|tag|] == [s[0]] + p1[..|tag|][..|tag| - 1];
      assert s[..|tag|] == [s[0]] + s[1..][..|tag|][..|tag| - 1];
    }
  }

  lemma {:induction false} PlainEmitsClean(k: CharClasses, s: string, glue: bool)
    requires Sane(k)
    ensures Plain(k, s, glue).Good? ==> AllClean(k, Plain(k, s, glue).pieces)
    decreases |s|, 1
  {
    if s == "" || Plain(k, s, glue).Bad? {
    } else if At(s, '-', '-') {
      LineEmitsClean(k, s[2..]);
      SpaceIsClean(k, Line(k, s[2..]).pieces[0]);
    } else if At(s, '/', '*') {
      BlockEmitsClean(k, s[2..], 1);
      SpaceIsClean(k, Block(k, s[2..], 1).pieces[0]);
    } else if IsQuote(s[0]) {
      QuotedEmitsClean(k, s[0], s[1..]);
      var p := Quoted(k, s[0], s[1..]).pieces[0];
      assert ([s[0]] + p)[1..] == p;
    } else if OpensDollar(k, s) {
      OpeningDollarEmitsClean(k, s);
    } else if s[0] == ';' {
      PlainEmitsClean(k, s[1..], false);
    } else {
      PlainEmitsClean(k, s[1..], !k.isSpace(s[0]));
      PlainCharIsClean(k, s);
    }
  }

  lemma SpaceIsClean(k: CharClasses, p: string)
    requires Clean(k, p)
    ensures Clean(k, " " + p) && Clean(k, "" + p) && Clean(k, "\n" + p)
  {
    assert (" " + p)[1..] == p && "" + p == p && ("\n" + p)[1..] == p;
  }

  lemma {:induction false} LineEmitsClean(k: CharClasses, s: string)
    requires Sane(k)
    ensures Line(k, s).Good? ==> AllClean(k, Line(k, s).pieces)
    decreases |s|, 0
  {
    if s == "" || Line(k, s).Bad? {
    } else if s[0] == '\n' {
      PlainEmitsClean(k, s[1..], false);
      SpaceIsClean(k, Plain(k, s[1..], false).pieces[0]);
    } else {
      LineEmitsClean(k, s[1..]);
    }
  }

  lemma {:induction false} BlockEmitsClean(k: CharClasses, s: string, depth: nat)
    requires Sane(k)
    ensures Block(k, s, depth).Good? ==> AllClean(k, Block(k, s, depth).pieces)
    decreases |s|, 2
  {
    if depth == 0 {
      PlainEmitsClean(k, s, false);
    } else if s == "" {
    } else if At(s, '/', '*') {
      BlockEmitsClean(k, s[2..], depth + 1);
    } else if At(s, '*', '/') {
      BlockEmitsClean(k, s[2..], depth - 1);
    } else {
      BlockEmitsClean(k, s[1..], depth);
    }
  }

  lemma {:induction false} QuotedEmitsClean(k: CharClasses, quote: char, s: string)
    requires Sane(k) && IsQuote(quote)
    ensures var o := Quoted(k, quote, s); o.Good? ==> CleanQuoted(k, quote, o.pieces[0]) && AllClean(k, o.pieces[1..])
    decreases |s|, 0
  {
    if s == "" || Quoted(k, quote, s).Bad? {
    } else if s[0] != quote {
      QuotedEmitsClean(k, quote, s[1..]);
      var p := Quoted(k, quote, s[1..]).pieces[0];
      assert ([s[0]] + p)[1..] == p;
    } else if At(s, quote, quote) {
      QuotedEmitsClean(k, quote, s[2..]);
      var p := Quoted(k, quote, s[2..]).pieces[0];
      assert ([quote, quote] + p)[2..] == p;
    } else {
      PlainEmitsClean(k, s[1..], true);
      FirstEmitted(k, s[1..]);
      var p := Plain(k, s[1..], true).pieces[0];
      assert ([quote] + p)[1..] == p;
      assert !At([quote] + p, quote, quote);
    }
  }

  lemma OpeningDollarEmitsClean(k: CharClasses, s: string)
    requires Sane(k) && !OpensComment(s) && OpensDollar(k, s) && Plain(k, s, true).Good?
    ensures AllClean(k, Prefix(DollarQuote(s), Dollar(k, DollarQuote(s), s[|DollarQuote(s)|..])).pieces)
    decreases |s|, 0
  {
    var tag := DollarQuote(s);
    var rest := Dollar(k, tag, s[|tag|..]);
    DollarEmitsClean(k, tag, s[|tag|..]);
    var t := tag + rest.pieces[0];
    SameOpening(k, s, t);
    assert t[|tag|..] == rest.pieces[0];
  }

  /** Whether text opens a dollar quote, and which, depends only on the quote itself. */
  lemma SameOpening(k: CharClasses, s: string, t: string)
    requires OpensDollar(k, s) && Starts(t, DollarQuote(s))
    ensures OpensDollar(k, t) && DollarQuote(t) == DollarQuote(s)
  {
    var tag := DollarQuote(s);
    var n := NextDollar(s[1..]);
    assert |tag| == n + 2;
    assert forall i :: 0 <= i < |tag| ==> t[i] == tag[i] == s[i];
    assert t[1..][..n + 1] == tag[1..] == s[1..][..n + 1];
    SameDollar(t[1..], s[1..], n);
  }

  lemma {:induction false} DollarEmitsClean(k: CharClasses, tag: string, s: string)
    requires Sane(k) && tag != ""
    ensures var o := Dollar(k, tag, s); o.Good? ==> CleanDollar(k, tag, o.pieces[0]) && AllClean(k, o.pieces[1..])
    decreases |s|, 0
  {
    if s == "" || Dollar(k, tag, s).Bad? {
    } else if Starts(s, tag) {
      PlainEmitsClean(k, s[|tag|..], true);
      var p := Plain(k, s[|tag|..], true).pieces[0];
      assert (tag + p)[|tag|..] == p;
    } else {
      DollarEmitsClean(k, tag, s[1..]);
      DollarIsVerbatim(k, tag, s);
      var p := Dollar(k, tag, s[1..]).pieces[0];
      assert ([s[0]] + p)[1..] == p;
    }
  }

  // Clean text passes through unchanged.

  /** A character that ends every token before it. */
  predicate Breaks(k: CharClasses, c: char) { c !in {'-', '*', '\'', '\"', '$'} && !TagChar(k, c) }

  predicate EndsToken(k: CharClasses, x: string) { x == "" || Breaks(k, x[0]) }

  function GlueAfter(k: CharClasses, t: string, glue: bool): bool { if t == "" then glue else !k.isSpace(t[|t| - 1]) }

  lemma PrefixTwice(a: string, b: string, rest: Pieces)
    ensures Prefix(a, Prefix(b, rest)) == Prefix(a + b, rest)
  {
    if rest.Good? { assert a + (b + rest.pieces[0]) == a + b + rest.pieces[0]; }
  }

  lemma TagStaysBefore(k: CharClasses, t: string, x: string)
    requires Sane(k) && t != "" && EndsToken(k, x) && OpensDollar(k, t + x)
    ensures |DollarQuote(t + x)| <= |t|
  {
    var n := NextDollar((t + x)[1..]);
    assert (t + x)[n + 1] == '$';
    assert x != "" ==> (t + x)[|t|] == x[0];
  }

  lemma SameOpeningBefore(k: CharClasses, t: string, x: string)
    requires Sane(k) && t != "" && EndsToken(k, x)
    ensures OpensDollar(k, t + x) <==> OpensDollar(k, t)
    ensures OpensDollar(k, t) ==> DollarQuote(t + x) == DollarQuote(t)
  {
    if OpensDollar(k, t) { SameOpening(k, t, t + x); }
    if OpensDollar(k, t + x) {
      TagStaysBefore(k, t, x);
      var tag := DollarQuote(t + x);
      assert tag == (t + x)[..|tag|] == t[..|tag|];
      SameOpening(k, t + x, t);
    }
  }

  lemma {:induction false} CleanPasses(k: CharClasses, t: string, x: string, glue: bool)
    requires Sane(k) && Clean(k, t) && EndsToken(k, x)
    ensures Plain(k, t + x, glue) == Prefix(t, Plain(k, x, GlueAfter(k, t, glue)))
    decreases |t|, 2
  {
    var after := Plain(k, x, GlueAfter(k, t, glue));
    if t == "" {
      assert t + x == x;
      if after.Good? {
        assert [after.pieces[0]] + after.pieces[1..] == after.pieces && "" + after.pieces[0] == after.pieces[0];
      }
    } else {
      var s := t + x;
      assert s[1..] == t[1..] + x && s[0] == t[0] && t == [t[0]] + t[1..];
      SameOpeningBefore(k, t, x);
      if IsQuote(t[0]) {
        QuotedPasses(k, t[0], t[1..], x);
        PrefixTwice([t[0]], t[1..], after);
      } else if OpensDollar(k, t) {
        OpeningDollarPasses(k, t, x, glue);
      } else {
        CleanPasses(k, t[1..], x, !k.isSpace(t[0]));
        PrefixTwice([t[0]], t[1..], after);
      }
    }
  }

  lemma OpeningDollarPasses(k: CharClasses, t: string, x: string, glue: bool)
    requires Sane(k) && Clean(k, t) && OpensDollar(k, t) && EndsToken(k, x)
    ensures Plain(k, t + x, glue) == Prefix(t, Plain(k, x, GlueAfter(k, t, true)))
    decreases |t|, 1
  {
    var tag := DollarQuote(t);
    var u := t[|tag|..];
    DollarPassesAfter(k, tag, t, u, x);
    SameOpeningBefore(k, t, x);
    PlainOpens(k, t + x, glue);
  }

  lemma DollarPassesAfter(k: CharClasses, tag: string, t: string, u: string, x: string)
    requires Sane(k) && tag != "" && tag[|tag| - 1] == '$' && CleanDollar(k, tag, u) && EndsToken(k, x)
    requires t == tag + u
    ensures Prefix(tag, Dollar(k, tag, (t + x)[|tag|..])) == Prefix(t, Plain(k, x, GlueAfter(k, t, true)))
    decreases |t|, 0
  {
    assert (t + x)[|tag|..] == u + x;
    CleanDollarHasRoom(k, tag, u);
    DollarPasses(k, tag, u, x);
    assert t[|t| - 1] == u[|u| - 1];
    PrefixTwice(tag, u, Plain(k, x, GlueAfter(k, t, true)));
  }

  lemma {:induction false} QuotedPasses(k: CharClasses, quote: char, t: string, x: string)
    requires Sane(k) && IsQuote(quote) && CleanQuoted(k, quote, t) && EndsToken(k, x)
    ensures Quoted(k, quote, t + x) == Prefix(t, Plain(k, x, GlueAfter(k, t, true)))
    decreases |t|, 0
  {
    var after := Plain(k, x, GlueAfter(k, t, true));
    assert t == [t[0]] + t[1..];
    if t[0] != quote {
      QuotedPasses(k, quote, t[1..], x);
      QuotedGoesOn(k, quote, t, x);
      PrefixTwice([t[0]], t[1..], after);
    } else if At(t, quote, quote) {
      QuotedPasses(k, quote, t[2..], x);
      QuotedDoubles(k, quote, t, x);
      PrefixTwice([quote, quote], t[2..], after);
      assert t == [quote, quote] + t[2..];
    } else {
      CleanPasses(k, t[1..], x, true);
      QuotedCloses(k, quote, t, x);
      PrefixTwice([quote], t[1..], after);
    }
  }

  lemma QuotedGoesOn(k: CharClasses, quote: char, t: string, x: string)
    requires t != "" && t[0] != quote
    ensures Quoted(k, quote, t + x) == Prefix([t[0]], Quoted(k, quote, t[1..] + x))
  {
    assert (t + x)[1..] == t[1..] + x;
  }

  lemma QuotedDoubles(k: CharClasses, quote: char, t: string, x: string)
    requires At(t, quote, quote)
    ensures Quoted(k, quote, t + x) == Prefix([quote, quote], Quoted(k, quote, t[2..] + x))
  {
    assert (t + x)[2..] == t[2..] + x;
  }

  lemma QuotedCloses(k: CharClasses, quote: char, t: string, x: string)
    requires Sane(k) && IsQuote(quote) && t != "" && t[0] == quote && !At(t, quote, quote) && EndsToken(k, x)
    ensures Quoted(k, quote, t + x) == Prefix([quote], Plain(k, t[1..] + x, true))
  {
    var s := t + x;
    assert s[1..] == t[1..] + x;
    assert |t| == 1 && x != "" ==> s[1] == x[0] && x[0] != quote;
    assert |t| > 1 ==> s[1] == t[1];
  }

  lemma {:induction false} DollarPasses(k: CharClasses, tag: string, t: string, x: string)
    requires Sane(k) && tag != "" && tag[|tag| - 1] == '$' && CleanDollar(k, tag, t) && EndsToken(k, x)
    ensures Dollar(k, tag, t + x) == Prefix(t, Plain(k, x, GlueAfter(k, t, true)))
    decreases |t|, 1
  {
    if Starts(t, tag) {
      DollarCloses(k, tag, t, x);
    } else {
      CleanDollarHasRoom(k, tag, t);
      DollarPasses(k, tag, t[1..], x);
      DollarGoesOn(k, tag, t, x);
      PrefixTwice([t[0]], t[1..], Plain(k, x, GlueAfter(k, t, true)));
      assert t == [t[0]] + t[1..];
    }
  }

  lemma DollarGoesOn(k: CharClasses, tag: string, t: string, x: string)
    requires tag != "" && |tag| <= |t| && !Starts(t, tag)
    ensures Dollar(k, tag, t + x) == Prefix([t[0]], Dollar(k, tag, t[1..] + x))
  {
    var s := t + x;
    assert s[1..] == t[1..] + x && s[..|tag|] == t[..|tag|];
  }

  lemma DollarEnds(k: CharClasses, tag: string, rest: string)
    requires tag != ""
    ensures Dollar(k, tag, tag + rest) == Prefix(tag, Plain(k, rest, true))
  {
    var s := tag + rest;
    assert s[..|tag|] == tag && s[|tag|..] == rest;
  }

  lemma GlueBehindTag(k: CharClasses, tag: string, u: string)
    requires Sane(k) && tag != "" && tag[|tag| - 1] == '$'
    ensures GlueAfter(k, tag + u, true) == GlueAfter(k, u, true)
  {
    assert u == "" ==> tag + u == tag;
  }

  lemma {:induction false} DollarCloses(k: CharClasses, tag: string, t: string, x: string)
    requires Sane(k) && tag != "" && tag[|tag| - 1] == '$' && Starts(t, tag) && Clean(k, t[|tag|..]) && EndsToken(k, x)
    ensures Dollar(k, tag, t + x) == Prefix(t, Plain(k, x, GlueAfter(k, t, true)))
    decreases |t|, 0
  {
    var u := t[|tag|..];
    assert t == tag + u && t + x == tag + (u + x);
    DollarEnds(k, tag, u + x);
    CleanPasses(k, u, x, true);
    GlueBehindTag(k, tag, u);
    PrefixTwice(tag, u, Plain(k, x, GlueAfter(k, t, true)));
  }

  lemma {:induction false} CleanDollarHasRoom(k: CharClasses, tag: string, t: string)
    requires tag != "" && CleanDollar(k, tag, t)
    ensures |tag| <= |t|
    decreases |t|
  {
    if !Starts(t, tag) { CleanDollarHasRoom(k, tag, t[1..]); }
  }

  // Stripping keeps text clean.

  lemma {:induction false} DropSpace(k: CharClasses, t: string, c: char)
    requires Sane(k) && k.isSpace(c) && Clean(k, t + [c])
    ensures Clean(k, t)
    decreases |t|, 1
  {
    if t != "" {
      var s := t + [c];
      assert s[1..] == t[1..] + [c] && s[0] == t[0];
      SameOpeningBefore(k, t, [c]);
      if IsQuote(t[0]) {
        DropSpaceQuoted(k, t[0], t[1..], c);
      } else if OpensDollar(k, t) {
        var tag := DollarQuote(t);
        assert s[|tag|..] == t[|tag|..] + [c];
        DropSpaceDollar(k, tag, t[|tag|..], c);
      } else {
        DropSpace(k, t[1..], c);
      }
    }
  }

  lemma {:induction false} DropSpaceQuoted(k: CharClasses, quote: char, t: string, c: char)
    requires Sane(k) && k.isSpace(c) && IsQuote(quote) && CleanQuoted(k, quote, t + [c])
    ensures CleanQuoted(k, quote, t)
    decreases |t|, 0
  {
    var s := t + [c];
    if t == "" {
      assert s[1..] == "" && quote in PUNCTUATION;
    } else {
      assert s[1..] == t[1..] + [c] && s[0] == t[0] && quote in PUNCTUATION;
      if t[0] != quote {
        DropSpaceQuoted(k, quote, t[1..], c);
      } else if At(t, quote, quote) {
        assert s[2..] == t[2..] + [c];
        DropSpaceQuoted(k, quote, t[2..], c);
      } else {
        DropSpace(k, t[1..], c);
      }
    }
  }

  lemma {:induction false} DropSpaceDollar(k: CharClasses, tag: string, t: string, c: char)
    requires Sane(k) && k.isSpace(c) && tag != "" && tag[|tag| - 1] == '$' && CleanDollar(k, tag, t + [c])
    ensures CleanDollar(k, tag, t)
    decreases |t|, 0
  {
    var s := t + [c];
    assert |tag| <= |t| ==> s[..|tag|] == t[..|tag|];
    CleanDollarHasRoom(k, tag, s);
    if |t| < |tag| {
      assert s[1..] == t[1..] + [c] || t == "";
      CleanDollarNeedsRoom(k, tag, s);
    } else {
      assert s[1..] == t[1..] + [c] && s[0] == t[0];
      if Starts(t, tag) {
        assert s[|tag|..] == t[|tag|..] + [c];
        DropSpace(k, t[|tag|..], c);
      } else {
        DropSpaceDollar(k, tag, t[1..], c);
      }
    }
  }

  /** Text no longer than the tag is closed only by being the tag. */
  lemma {:induction false} CleanDollarNeedsRoom(k: CharClasses, tag: string, s: string)
    requires tag != "" && CleanDollar(k, tag, s) && |s| <= |tag|
    ensures s == tag
  {
    if !Starts(s, tag) { CleanDollarHasRoom(k, tag, s[1..]); }
  }

  lemma {:induction false} LeftStripClean(k: CharClasses, t: string)
    requires Sane(k) && Clean(k, t)
    ensures Clean(k, LeftStrip(k, t))
    decreases |t|
  {
    if t != "" && k.isSpace(t[0]) { LeftStripClean(k, t[1..]); }
  }

  lemma {:induction false} RightStripClean(k: CharClasses, t: string)
    requires Sane(k) && Clean(k, t)
    ensures Clean(k, RightStrip(k, t))
    decreases |t|
  {
    if t != "" && k.isSpace(t[|t| - 1]) {
      assert t == t[..|t| - 1] + [t[|t| - 1]];
      DropSpace(k, t[..|t| - 1], t[|t| - 1]);
      RightStripClean(k, t[..|t| - 1]);
    }
  }

  lemma {:induction false} LeftStripTrims(k: CharClasses, t: string)
    ensures var u := LeftStrip(k, t); u == "" || !k.isSpace(u[0])
    decreases |t|
  {
    if t != "" && k.isSpace(t[0]) { LeftStripTrims(k, t[1..]); }
  }

  lemma {:induction false} RightStripTrims(k: CharClasses, t: string)
    ensures var u := RightStrip(k, t); u <= t && (u == "" || !k.isSpace(u[|u| - 1]))
    decreases |t|
  {
    if t != "" && k.isSpace(t[|t| - 1]) { RightStripTrims(k, t[..|t| - 1]); }
  }

  /** A statement as the splitter returns it. */
  ghost predicate Proper(k: CharClasses, t: string) {
    t != "" && Clean(k, t) && !k.isSpace(t[0]) && !k.isSpace(t[|t| - 1])
  }

  lemma StripIsProper(k: CharClasses, t: string)
    requires Sane(k) && Clean(k, t) && Strip(k, t) != ""
    ensures Proper(k, Strip(k, t))
  {
    var u := LeftStrip(k, t);
    LeftStripClean(k, t);
    LeftStripTrims(k, t);
    RightStripClean(k, u);
    RightStripTrims(k, u);
  }

  lemma {:induction false} StatementsAreProper(k: CharClasses, pieces: seq<string>)
    requires Sane(k) && AllClean(k, pieces)
    ensures forall i :: 0 <= i < |Statements(k, pieces)| ==> Proper(k, Statements(k, pieces)[i])
    decreases |pieces|
  {
    if pieces != [] {
      assert AllClean(k, pieces[1..]) by {
        forall i | 0 <= i < |pieces[1..]| ensures Clean(k, pieces[1..][i]) { assert pieces[1..][i] == pieces[i + 1]; }
      }
      StatementsAreProper(k, pieces[1..]);
      if Strip(k, pieces[0]) != "" { StripIsProper(k, pieces[0]); }
    }
  }

  // The theorems.

  function Join(statements: seq<string>): string {
    if statements == [] then ""
    else if |statements| == 1 then statements[0]
    else statements[0] + (";" + Join(statements[1..]))
  }

  /** Every returned statement is free of comments and of semicolons outside quotes, has no
      unterminated quote, is not empty and has no space at either end. */
  lemma SplitReturnsProper(k: CharClasses, sql: string)
    requires Sane(k)
    ensures Split(k, sql).Ok? ==> forall i :: 0 <= i < |Split(k, sql).statements| ==>
      Proper(k, Split(k, sql).statements[i])
  {
    var o := Plain(k, sql, false);
    if o.Good? {
      PlainEmitsClean(k, sql, false);
      assert "" + o.pieces[0] == o.pieces[0] && [o.pieces[0]] + o.pieces[1..] == o.pieces;
      StatementsAreProper(k, o.pieces);
      FinishFromStart(k, o.pieces);
    }
  }

  /** With nothing read before, the result is the stripped pieces. */
  lemma FinishFromStart(k: CharClasses, pieces: seq<string>)
    requires pieces != []
    ensures Finish(k, [], "", Good(pieces)) == Ok(Statements(k, pieces))
  {
    assert "" + pieces[0] == pieces[0] && [pieces[0]] + pieces[1..] == pieces;
    assert [] + Statements(k, pieces) == Statements(k, pieces);
  }

  /** Any list of proper statements, joined by semicolons, splits into exactly that list. */
  lemma {:induction false} JoinThenSplit(k: CharClasses, statements: seq<string>)
    requires Sane(k) && forall i :: 0 <= i < |statements| ==> Proper(k, statements[i])
    ensures Split(k, Join(statements)) == Ok(statements)
  {
    if statements == [] {
      FinishFromStart(k, [""]);
      assert Statements(k, [""]) == Statements(k, [""][1..]) == [];
    } else {
      assert Plain(k, Join(statements), false) == Good(statements) by { JoinLexes(k, statements); }
      assert Statements(k, statements) == statements by { ProperSurvive(k, statements); }
      assert Finish(k, [], "", Good(statements)) == Ok(statements) by { FinishFromStart(k, statements); }
    }
  }

  lemma SemicolonCuts(k: CharClasses, rest: string, glue: bool)
    ensures Plain(k, ";" + rest, glue) == Cut(Plain(k, rest, false))
  {
    assert (";" + rest)[1..] == rest;
  }

  lemma JoinsLexed(k: CharClasses, first: string, joined: string, rest: seq<string>)
    requires Sane(k) && Clean(k, first) && rest != [] && Plain(k, joined, false) == Good(rest)
    ensures Plain(k, first + (";" + joined), false) == Good([first] + rest)
  {
    SemicolonCuts(k, joined, GlueAfter(k, first, false));
    CleanPasses(k, first, ";" + joined, false);
    assert first + "" == first && ([""] + rest)[1..] == rest;
  }

  lemma {:induction false} JoinLexes(k: CharClasses, statements: seq<string>)
    requires Sane(k) && statements != [] && forall i :: 0 <= i < |statements| ==> Proper(k, statements[i])
    ensures Plain(k, Join(statements), false) == Good(statements)
    decreases |statements|
  {
    var first := statements[0];
    if |statements| == 1 {
      CleanPasses(k, first, "", false);
      assert first + "" == first;
    } else {
      JoinLexes(k, statements[1..]);
      JoinsLexed(k, first, Join(statements[1..]), statements[1..]);
      assert statements == [first] + statements[1..];
    }
  }

  lemma {:induction false} ProperSurvive(k: CharClasses, statements: seq<string>)
    requires forall i :: 0 <= i < |statements| ==> Proper(k, statements[i])
    ensures Statements(k, statements) == statements
    decreases |statements|
  {
    if statements != [] {
      ProperSurvive(k, statements[1..]);
      assert Strip(k, statements[0]) == statements[0];
    }
  }

  /** The fixpoint: each returned statement splits into itself, and so does the whole list
      joined by semicolons. */
  lemma SplitIsAFixpoint(k: CharClasses, sql: string)
    requires Sane(k) && Split(k, sql).Ok?
    ensures var statements := Split(k, sql).statements;
      && (forall i :: 0 <= i < |statements| ==> Split(k, statements[i]) == Ok([statements[i]]))
      && Split(k, Join(statements)) == Ok(statements)
  {
    var statements := Split(k, sql).statements;
    SplitReturnsProper(k, sql);
    JoinThenSplit(k, statements);
    forall i | 0 <= i < |statements| ensures Split(k, statements[i]) == Ok([statements[i]]) {
      JoinThenSplit(k, [statements[i]]);
    }
  }

  // Block comments, nested to any depth.

  datatype End = Never | After(count: nat)

  function Delayed(n: nat, end: End): End { if end.Never? then Never else After(n + end.count) }

  /** How much of the text belongs to `depth` open comments. */
  function CommentEnd(s: string, depth: nat): End
    decreases |s|
  {
    if depth == 0 then After(0)
    else if s == "" then Never
    else if At(s, '/', '*') then Delayed(2, CommentEnd(s[2..], depth + 1))
    else if At(s, '*', '/') then Delayed(2, CommentEnd(s[2..], depth - 1))
    else Delayed(1, CommentEnd(s[1..], depth))
  }

  lemma {:induction false} CommentEndInside(s: string, depth: nat)
    ensures CommentEnd(s, depth).After? ==> CommentEnd(s, depth).count <= |s|
    decreases |s|
  {
    if depth > 0 && s != "" {
      if At(s, '/', '*') {
        CommentEndInside(s[2..], depth + 1);
      } else if At(s, '*', '/') {
        CommentEndInside(s[2..], depth - 1);
      } else {
        CommentEndInside(s[1..], depth);
      }
    }
  }

  /** Closing `inner + outer` comments is closing the inner ones and then the outer ones. */
  predicate Nested(s: string, inner: nat, outer: nat) {
    var first, both := CommentEnd(s, inner), CommentEnd(s, inner + outer);
    if first.Never? then both.Never?
    else first.count <= |s| && both == Delayed(first.count, CommentEnd(s[first.count..], outer))
  }

  lemma NestedLater(s: string, n: nat, depth: nat, inner: nat, outer: nat)
    requires n <= |s| && Nested(s[n..], depth, outer)
    requires CommentEnd(s, inner) == Delayed(n, CommentEnd(s[n..], depth))
    requires CommentEnd(s, inner + outer) == Delayed(n, CommentEnd(s[n..], depth + outer))
    ensures Nested(s, inner, outer)
  {
    DropAfter(s, n, CommentEnd(s[n..], depth));
  }

  /** How many characters one step inside a comment reads, and the depth behind them. */
  function CommentStep(s: string): nat { if At(s, '/', '*') || At(s, '*', '/') then 2 else 1 }

  function DepthAfter(s: string, depth: nat): nat
    requires depth > 0
  {
    if At(s, '/', '*') then depth + 1 else if At(s, '*', '/') then depth - 1 else depth
  }

  lemma CommentEndLater(s: string, depth: nat)
    requires depth > 0 && s != ""
    ensures CommentStep(s) <= |s|
    ensures CommentEnd(s, depth) == Delayed(CommentStep(s), CommentEnd(s[CommentStep(s)..], DepthAfter(s, depth)))
  {
  }

  lemma NothingInside(s: string, outer: nat)
    ensures Nested(s, 0, outer)
  {
    var end := CommentEnd(s, outer);
    assert s[0..] == s && end == Delayed(0, end);
  }

  lemma NothingLeft(inner: nat, outer: nat)
    requires inner > 0
    ensures Nested("", inner, outer)
  {
  }

  lemma {:induction false} CommentsNest(s: string, inner: nat, outer: nat)
    ensures Nested(s, inner, outer)
    decreases |s|
  {
    if inner == 0 {
      NothingInside(s, outer);
    } else if s == "" {
      NothingLeft(inner, outer);
    } else {
      var n, depth := CommentStep(s), DepthAfter(s, inner);
      CommentsNest(s[n..], depth, outer);
      CommentEndLater(s, inner);
      CommentEndLater(s, inner + outer);
      NestedLater(s, n, depth, inner, outer);
    }
  }

  lemma DropAfter(s: string, n: nat, end: End)
    requires n <= |s|
    ensures end.After? && n + end.count <= |s| ==> s[n..][end.count..] == s[n + end.count..]
  {
  }

  /** Reading resumes right behind the comment, or fails if it never ends. */
  lemma {:induction false} BlockEnds(k: CharClasses, s: string, depth: nat)
    ensures CommentEnd(s, depth).Never? ==> Block(k, s, depth) == Bad
    ensures CommentEnd(s, depth).After? ==>
      CommentEnd(s, depth).count <= |s| && Block(k, s, depth) == Plain(k, s[CommentEnd(s, depth).count..], false)
    decreases |s|
  {
    CommentEndInside(s, depth);
    if depth == 0 {
      assert s[0..] == s;
    } else if s != "" {
      if At(s, '/', '*') {
        BlockEnds(k, s[2..], depth + 1);
        DropAfter(s, 2, CommentEnd(s[2..], depth + 1));
      } else if At(s, '*', '/') {
        BlockEnds(k, s[2..], depth - 1);
        DropAfter(s, 2, CommentEnd(s[2..], depth - 1));
      } else {
        BlockEnds(k, s[1..], depth);
        DropAfter(s, 1, CommentEnd(s[1..], depth));
      }
    }
  }

  /** After clean text a block comment, nested however deep, leaves a space, or nothing where
      there is one already, and the text behind it is read as if it came next; a comment that
      never ends is an error. */
  lemma BlockCommentIsASpace(k: CharClasses, t: string, inner: string)
    requires Sane(k) && Clean(k, t)
    ensures CommentEnd(inner, 1).Never? ==> Plain(k, t + ("/*" + inner), false) == Bad
    ensures CommentEnd(inner, 1).After? ==>
      && CommentEnd(inner, 1).count <= |inner|
      && Plain(k, t + ("/*" + inner), false) ==
        Prefix(Spaced(k, t), Plain(k, inner[CommentEnd(inner, 1).count..], false))
  {
    var x := "/*" + inner;
    assert x[2..] == inner && At(x, '/', '*');
    CommentEndInside(inner, 1);
    BlockEnds(k, inner, 1);
    CleanPasses(k, t, x, false);
    PrefixTwice(t, if GlueAfter(k, t, false) then " " else "", Block(k, inner, 1));
    assert t + "" == t;
  }
}
