/** `split_sql_statements`: a lexer with five modes (plain text, line comment, nested block
    comment, quoted text, dollar-quoted text) that removes comments and cuts at semicolons. */
module SqlSplitter {

  datatype Result = Ok(statements: seq<string>) | Unterminated

  /** Python's `str.isspace`, `str.isalnum` and `str.isdigit` on one character. */
  datatype CharClasses = CharClasses(isSpace: char -> bool, isAlnum: char -> bool, isDigit: char -> bool)

  const PUNCTUATION: set<char> := {'-', '/', '*', '\'', '\"', '$', ';'}

  /** The facts about Python's character classes that the lexer depends on. */
  ghost predicate Sane(k: CharClasses) {
    && k.isSpace(' ') && k.isSpace('\n') && !k.isSpace('_')
    && (forall c :: c in PUNCTUATION ==> !k.isSpace(c) && !k.isAlnum(c))
    && (forall c :: k.isAlnum(c) ==> !k.isSpace(c))
  }

  // The meaning of the lexer, as functions of the remaining text.

  /** What is left to emit: the rest of the current statement, then the following ones. */
  datatype Outcome = Bad | Good(pieces: seq<string>)

  type Pieces = o: Outcome | o.Good? ==> o.pieces != [] witness Bad

  predicate TagChar(k: CharClasses, c: char) { k.isAlnum(c) || c == '_' }

  /** The `n` characters after the first one form a tag. */
  predicate TagOk(k: CharClasses, s: string, n: nat)
    requires n < |s|
  {
    n == 0 || ((forall i :: 1 <= i <= n ==> TagChar(k, s[i])) && !k.isDigit(s[1]))
  }

  /** The index of the first dollar sign, or the length of the text. */
  function NextDollar(s: string): (n: nat)
    ensures n <= |s|
    ensures forall i :: 0 <= i < n ==> s[i] != '$'
    ensures n < |s| ==> s[n] == '$'
  {
    if s == "" || s[0] == '$' then 0 else 1 + NextDollar(s[1..])
  }

  /** Text that starts with an opening dollar quote such as `$$` or `$body$`. */
  predicate OpensDollar(k: CharClasses, s: string) {
    s != "" && s[0] == '$' && NextDollar(s[1..]) < |s| - 1 && TagOk(k, s, NextDollar(s[1..]))
  }

  /** The opening quote, which is also the closing one. */
  function DollarQuote(s: string): (tag: string)
    requires s != "" && s[0] == '$' && NextDollar(s[1..]) < |s| - 1
    ensures 2 <= |tag| <= |s| && tag == s[..|tag|] && tag[|tag| - 1] == '$'
  {
    s[..NextDollar(s[1..]) + 2]
  }

  predicate At(s: string, first: char, second: char) { |s| >= 2 && s[0] == first && s[1] == second }

  predicate Starts(s: string, tag: string) { |tag| <= |s| && s[..|tag|] == tag }

  predicate OpensComment(s: string) { At(s, '-', '-') || At(s, '/', '*') }

  predicate IsQuote(c: char) { c == '\'' || c == '\"' }

  function Prefix(text: string, rest: Pieces): Pieces {
    if rest.Bad? then Bad else Good([text + rest.pieces[0]] + rest.pieces[1..])
  }

  /** `glue` says that the current statement has text and does not end in a space: a comment
      that follows then leaves a space behind. */
  function Plain(k: CharClasses, s: string, glue: bool): Pieces
    decreases |s|, 0
  {
    if s == "" then Good([""])
    else if At(s, '-', '-') then Prefix(if glue then " " else "", Line(k, s[2..]))
    else if At(s, '/', '*') then Prefix(if glue then " " else "", Block(k, s[2..], 1))
    else if IsQuote(s[0]) then Prefix([s[0]], Quoted(k, s[0], s[1..]))
    else if OpensDollar(k, s) then Prefix(DollarQuote(s), Dollar(k, DollarQuote(s), s[|DollarQuote(s)|..]))
    else if s[0] == ';' then Cut(Plain(k, s[1..], false))
    else Prefix([s[0]], Plain(k, s[1..], !k.isSpace(s[0])))
  }

  function Cut(rest: Pieces): Pieces {
    if rest.Bad? then Bad else Good([""] + rest.pieces)
  }

  function Line(k: CharClasses, s: string): Pieces
    decreases |s|, 0
  {
    if s == "" then Good([""])
    else if s[0] == '\n' then Prefix("\n", Plain(k, s[1..], false))
    else Line(k, s[1..])
  }

  function Block(k: CharClasses, s: string, depth: nat): Pieces
    decreases |s|, 1
  {
    if depth == 0 then Plain(k, s, false)
    else if s == "" then Bad
    else if At(s, '/', '*') then Block(k, s[2..], depth + 1)
    else if At(s, '*', '/') then Block(k, s[2..], depth - 1)
    else Block(k, s[1..], depth)
  }

  function Quoted(k: CharClasses, quote: char, s: string): Pieces
    decreases |s|, 0
  {
    if s == "" then Bad
    else if s[0] != quote then Prefix([s[0]], Quoted(k, quote, s[1..]))
    else if At(s, quote, quote) then Prefix([quote, quote], Quoted(k, quote, s[2..]))
    else Prefix([quote], Plain(k, s[1..], true))
  }

  function Dollar(k: CharClasses, tag: string, s: string): Pieces
    requires tag != ""
    decreases |s|, 0
  {
    if s == "" then Bad
    else if Starts(s, tag) then Prefix(tag, Plain(k, s[|tag|..], true))
    else Prefix([s[0]], Dollar(k, tag, s[1..]))
  }

  function LeftStrip(k: CharClasses, s: string): string {
    if s != "" && k.isSpace(s[0]) then LeftStrip(k, s[1..]) else s
  }

  function RightStrip(k: CharClasses, s: string): string {
    if s != "" && k.isSpace(s[|s| - 1]) then RightStrip(k, s[..|s| - 1]) else s
  }

  function Strip(k: CharClasses, s: string): string { RightStrip(k, LeftStrip(k, s)) }

  function Statements(k: CharClasses, pieces: seq<string>): seq<string> {
    if pieces == [] then []
    else (if Strip(k, pieces[0]) == "" then [] else [Strip(k, pieces[0])]) + Statements(k, pieces[1..])
  }

  /** What is returned when `done` statements are out, `buffer` holds the current one and
      `rest` is still to come. */
  function Finish(k: CharClasses, done: seq<string>, buffer: string, rest: Pieces): Result {
    match Prefix(buffer, rest)
    case Bad => Unterminated
    case Good(pieces) => Ok(done + Statements(k, pieces))
  }

  function Split(k: CharClasses, sql: string): Result { Finish(k, [], "", Plain(k, sql, false)) }

  // The loop.

  /** The loop's variables; `quote` and `dollarTag` are empty where the source has `None`. */
  datatype Lexer = Lexer(
    index: nat, statements: seq<string>, buffer: string,
    quote: string, dollarTag: string, depth: nat, lineComment: bool)

  predicate Glued(k: CharClasses, buffer: string) { buffer != "" && !k.isSpace(buffer[|buffer| - 1]) }

  /** At most one of the four modes besides plain text is on. */
  ghost predicate Valid(k: CharClasses, sql: string, l: Lexer) {
    && l.index <= |sql|
    && |l.quote| <= 1 && (l.quote != "" ==> IsQuote(l.quote[0]))
    && (l.dollarTag != "" ==> l.quote == "" && l.dollarTag[|l.dollarTag| - 1] == '$')
    && (l.lineComment || l.depth != 0 ==> l.dollarTag == "" && l.quote == "" && !Glued(k, l.buffer))
    && (l.lineComment ==> l.depth == 0)
  }

  /** The rest of the text, read in the mode the variables describe. */
  ghost function Rest(k: CharClasses, sql: string, l: Lexer): Pieces
    requires Valid(k, sql, l)
  {
    var s := sql[l.index..];
    if l.lineComment then Line(k, s)
    else if l.depth != 0 then Block(k, s, l.depth)
    else if l.dollarTag != "" then Dollar(k, l.dollarTag, s)
    else if l.quote != "" then Quoted(k, l.quote[0], s)
    else Plain(k, s, Glued(k, l.buffer))
  }

  /** What the loop will return from here. */
  ghost function Meaning(k: CharClasses, sql: string, l: Lexer): Result
    requires Valid(k, sql, l)
  {
    Finish(k, l.statements, l.buffer, Rest(k, sql, l))
  }

  lemma FinishPrefix(k: CharClasses, done: seq<string>, buffer: string, text: string, rest: Pieces)
    ensures Finish(k, done, buffer, Prefix(text, rest)) == Finish(k, done, buffer + text, rest)
  {
    if rest.Good? {
      assert buffer + (text + rest.pieces[0]) == buffer + text + rest.pieces[0];
    }
  }

  lemma FinishCut(k: CharClasses, done: seq<string>, buffer: string, rest: Pieces)
    ensures Finish(k, done, buffer, Cut(rest)) ==
      Finish(k, done + (if Strip(k, buffer) == "" then [] else [Strip(k, buffer)]), "", rest)
  {
    if rest.Good? {
      var first := if Strip(k, buffer) == "" then [] else [Strip(k, buffer)];
      assert buffer + "" == buffer && "" + rest.pieces[0] == rest.pieces[0];
      assert [rest.pieces[0]] + rest.pieces[1..] == rest.pieces;
      assert ([buffer] + rest.pieces)[1..] == rest.pieces;
      assert done + (first + Statements(k, rest.pieces)) == done + first + Statements(k, rest.pieces);
    }
  }

  predicate Following(sql: string, index: nat, c: char) { index + 1 < |sql| && sql[index + 1] == c }

  method StepInComment(k: CharClasses, sql: string, l: Lexer) returns (l': Lexer)
    requires Sane(k) && Valid(k, sql, l) && l.index < |sql| && (l.lineComment || l.depth != 0)
    ensures Valid(k, sql, l') && l'.index > l.index && Meaning(k, sql, l') == Meaning(k, sql, l)
  {
    ghost var s := sql[l.index..];
    assert s[1..] == sql[l.index + 1..] && s[0] == sql[l.index];
    if l.lineComment {
      if sql[l.index] == '\n' {
        FinishPrefix(k, l.statements, l.buffer, "\n", Plain(k, s[1..], false));
        l' := l.(index := l.index + 1, buffer := l.buffer + "\n", lineComment := false);
      } else {
        l' := l.(index := l.index + 1);
      }
    } else if sql[l.index] == '/' && Following(sql, l.index, '*') {
      assert s[1] == '*' && s[2..] == sql[l.index + 2..];
      l' := l.(index := l.index + 2, depth := l.depth + 1);
    } else if sql[l.index] == '*' && Following(sql, l.index, '/') {
      assert s[1] == '/' && s[2..] == sql[l.index + 2..];
      assert Block(k, s[2..], 0) == Plain(k, s[2..], false);
      l' := l.(index := l.index + 2, depth := l.depth - 1);
    } else {
      assert |s| >= 2 ==> s[1] == sql[l.index + 1];
      l' := l.(index := l.index + 1);
    }
  }

  method StepInDollar(k: CharClasses, sql: string, l: Lexer) returns (l': Lexer)
    requires Sane(k) && Valid(k, sql, l) && l.index < |sql| && l.dollarTag != ""
    ensures Valid(k, sql, l') && l'.index > l.index && Meaning(k, sql, l') == Meaning(k, sql, l)
  {
    ghost var s := sql[l.index..];
    if Starts(sql[l.index..], l.dollarTag) {
      FinishPrefix(k, l.statements, l.buffer, l.dollarTag, Plain(k, s[|l.dollarTag|..], true));
      assert s[|l.dollarTag|..] == sql[l.index + |l.dollarTag|..];
      l' := l.(index := l.index + |l.dollarTag|, buffer := l.buffer + l.dollarTag, dollarTag := "");
    } else {
      var c := sql[l.index];
      assert s[1..] == sql[l.index + 1..] && s[0] == c;
      FinishPrefix(k, l.statements, l.buffer, [c], Dollar(k, l.dollarTag, s[1..]));
      l' := l.(index := l.index + 1, buffer := l.buffer + [c]);
    }
  }

  method StepInQuote(k: CharClasses, sql: string, l: Lexer) returns (l': Lexer)
    requires Sane(k) && Valid(k, sql, l) && l.index < |sql| && l.dollarTag == "" && l.quote != ""
    ensures Valid(k, sql, l') && l'.index > l.index && Meaning(k, sql, l') == Meaning(k, sql, l)
  {
    ghost var s := sql[l.index..];
    var c := sql[l.index];
    assert s[1..] == sql[l.index + 1..] && s[0] == c;
    if [c] == l.quote && Following(sql, l.index, c) {
      assert s[1] == c && s[2..] == sql[l.index + 2..] && At(s, c, c);
      FinishPrefix(k, l.statements, l.buffer, [c, c], Quoted(k, c, s[2..]));
      l' := l.(index := l.index + 2, buffer := l.buffer + [c, c]);
    } else if [c] == l.quote {
      assert !At(s, c, c) by { assert |s| >= 2 ==> s[1] == sql[l.index + 1]; }
      FinishPrefix(k, l.statements, l.buffer, [c], Plain(k, s[1..], true));
      l' := l.(index := l.index + 1, buffer := l.buffer + [c], quote := "");
    } else {
      FinishPrefix(k, l.statements, l.buffer, [c], Quoted(k, l.quote[0], s[1..]));
      l' := l.(index := l.index + 1, buffer := l.buffer + [c]);
    }
  }

  /** A comment leaves a space behind unless the statement is empty or already ends in one. */
  function Spaced(k: CharClasses, buffer: string): string { if Glued(k, buffer) then buffer + " " else buffer }

  method StepPlain(k: CharClasses, sql: string, l: Lexer) returns (l': Lexer)
    requires Sane(k) && Valid(k, sql, l) && l.index < |sql|
    requires !l.lineComment && l.depth == 0 && l.dollarTag == "" && l.quote == ""
    ensures Valid(k, sql, l') && l'.index > l.index && Meaning(k, sql, l') == Meaning(k, sql, l)
  {
    ghost var s := sql[l.index..];
    ghost var space := if Glued(k, l.buffer) then " " else "";
    var c := sql[l.index];
    assert s[1..] == sql[l.index + 1..] && s[0] == c;
    assert |s| >= 2 ==> s[1] == sql[l.index + 1] && s[2..] == sql[l.index + 2..];
    assert l.buffer + space == Spaced(k, l.buffer);
    if c == '-' && Following(sql, l.index, '-') {
      assert At(s, '-', '-');
      FinishPrefix(k, l.statements, l.buffer, space, Line(k, s[2..]));
      l' := l.(index := l.index + 2, buffer := Spaced(k, l.buffer), lineComment := true);
    } else if c == '/' && Following(sql, l.index, '*') {
      assert At(s, '/', '*') && !At(s, '-', '-');
      FinishPrefix(k, l.statements, l.buffer, space, Block(k, s[2..], 1));
      l' := l.(index := l.index + 2, buffer := Spaced(k, l.buffer), depth := 1);
    } else {
      assert !OpensComment(s);
      l' := StepText(k, sql, l);
    }
  }

  method StepText(k: CharClasses, sql: string, l: Lexer) returns (l': Lexer)
    requires Sane(k) && Valid(k, sql, l) && l.index < |sql| && !OpensComment(sql[l.index..])
    requires !l.lineComment && l.depth == 0 && l.dollarTag == "" && l.quote == ""
    ensures Valid(k, sql, l') && l'.index > l.index && Meaning(k, sql, l') == Meaning(k, sql, l)
  {
    ghost var s := sql[l.index..];
    var c := sql[l.index];
    assert s[1..] == sql[l.index + 1..] && s[0] == c;
    if IsQuote(c) {
      FinishPrefix(k, l.statements, l.buffer, [c], Quoted(k, c, s[1..]));
      l' := l.(index := l.index + 1, buffer := l.buffer + [c], quote := [c]);
    } else if OpensDollar(k, sql[l.index..]) {
      l' := StepOpeningDollar(k, sql, l);
    } else if c == ';' {
      l' := StepSemicolon(k, sql, l);
    } else {
      FinishPrefix(k, l.statements, l.buffer, [c], Plain(k, s[1..], !k.isSpace(c)));
      l' := l.(index := l.index + 1, buffer := l.buffer + [c]);
    }
  }

  lemma PlainOpens(k: CharClasses, s: string, glue: bool)
    requires OpensDollar(k, s)
    ensures Plain(k, s, glue) == Prefix(DollarQuote(s), Dollar(k, DollarQuote(s), s[|DollarQuote(s)|..]))
  {
  }

  lemma RestAfterOpening(k: CharClasses, sql: string, l: Lexer, l': Lexer, tag: string)
    requires Valid(k, sql, l) && l.index < |sql| && OpensDollar(k, sql[l.index..]) && tag == DollarQuote(sql[l.index..])
    requires !l.lineComment && l.depth == 0 && l.dollarTag == "" && l.quote == ""
    requires l' == l.(index := l.index + |tag|, buffer := l.buffer + tag, dollarTag := tag)
    ensures Valid(k, sql, l') && Rest(k, sql, l) == Prefix(tag, Rest(k, sql, l'))
  {
    var s := sql[l.index..];
    PlainOpens(k, s, Glued(k, l.buffer));
    assert s[|tag|..] == sql[l'.index..];
  }

  method StepOpeningDollar(k: CharClasses, sql: string, l: Lexer) returns (l': Lexer)
    requires Valid(k, sql, l) && l.index < |sql| && OpensDollar(k, sql[l.index..])
    requires !l.lineComment && l.depth == 0 && l.dollarTag == "" && l.quote == ""
    ensures Valid(k, sql, l') && l'.index > l.index && Meaning(k, sql, l') == Meaning(k, sql, l)
  {
    var s := sql[l.index..];
    var candidate := DollarQuote(s);
    l' := l.(index := l.index + |candidate|, buffer := l.buffer + candidate, dollarTag := candidate);
    RestAfterOpening(k, sql, l, l', candidate);
    FinishPrefix(k, l.statements, l.buffer, candidate, Rest(k, sql, l'));
  }

  method StepSemicolon(k: CharClasses, sql: string, l: Lexer) returns (l': Lexer)
    requires Valid(k, sql, l) && l.index < |sql| && sql[l.index] == ';'
    requires !l.lineComment && l.depth == 0 && l.dollarTag == "" && l.quote == ""
    ensures Valid(k, sql, l') && l'.index > l.index && Meaning(k, sql, l') == Meaning(k, sql, l)
  {
    ghost var s := sql[l.index..];
    assert s[0] == ';' && s[1..] == sql[l.index + 1..];
    assert Plain(k, s, Glued(k, l.buffer)) == Cut(Plain(k, s[1..], false));
    FinishCut(k, l.statements, l.buffer, Plain(k, s[1..], false));
    var statement := Strip(k, l.buffer);
    if statement != "" {
      l' := l.(index := l.index + 1, buffer := "", statements := l.statements + [statement]);
    } else {
      assert l.statements + [] == l.statements;
      l' := l.(index := l.index + 1, buffer := "");
    }
  }

  method SplitSqlStatements(k: CharClasses, sql: string) returns (r: Result)
    requires Sane(k)
    ensures r == Split(k, sql)
  {
    var l := Lexer(0, [], "", "", "", 0, false);
    assert sql[0..] == sql;
    while l.index < |sql|
      invariant Valid(k, sql, l) && Meaning(k, sql, l) == Split(k, sql)
      decreases |sql| - l.index
    {
      if l.lineComment || l.depth != 0 {
        l := StepInComment(k, sql, l);
      } else if l.dollarTag != "" {
        l := StepInDollar(k, sql, l);
      } else if l.quote != "" {
        l := StepInQuote(k, sql, l);
      } else {
        l := StepPlain(k, sql, l);
      }
    }
    r := AtEnd(k, sql, l);
  }

  method AtEnd(k: CharClasses, sql: string, l: Lexer) returns (r: Result)
    requires Valid(k, sql, l) && l.index == |sql|
    ensures r == Meaning(k, sql, l)
  {
    if l.quote != "" || l.dollarTag != "" || l.depth != 0 {
      return Unterminated;
    }
    assert l.buffer + "" == l.buffer;
    var statement := Strip(k, l.buffer);
    assert Statements(k, [l.buffer]) == (if statement == "" then [] else [statement]) + Statements(k, []);
    r := Ok(if statement != "" then l.statements + [statement] else l.statements);
  }
}
