/**
 Path templates (`render_path_template` in brain/platform/mapping_expressions.py).

 A template is a plain path unless it contains an opening brace. Then `{path}` is replaced by what
 the path resolves to, doubled braces stand for single ones, and any other brace is an error.
 */
module PathTemplate {

  /** What a path resolves to. `Missing` is the caller's own sentinel; `Other` is a value that is not a string. */
  datatype Value = Missing | Null | Str(text: string) | Other(text: string)

  datatype Problem = UnmatchedBrace | EmptyPath

  /** `Plain` hands back the value of a template without an opening brace unchanged. */
  datatype Outcome =
    | Plain(value: Value)
    | Rendered(text: string)
    | IsMissing
    | Failed(problem: Problem)

  datatype Token = Char(c: char) | Open | Close | Hole(path: string)

  datatype Scanned = Tokens(tokens: seq<Token>) | Malformed(problem: Problem)

  /** The caller: what paths mean, and which characters are white space. */
  datatype World = World(resolve: string -> Value, space: char -> bool)

  predicate Brace(c: char) {
    c == '{' || c == '}'
  }

  predicate BraceFree(path: string) {
    forall i :: 0 <= i < |path| ==> !Brace(path[i])
  }

  predicate Blank(w: World, path: string) {
    forall i :: 0 <= i < |path| ==> w.space(path[i])
  }

  /** A path is blank exactly if every character of it is white space; an empty one is. */
  lemma BlankExactly(w: World, path: string)
    ensures Blank(w, path) <==> forall c :: c in path ==> w.space(c)
  {
    forall i | (forall c :: c in path ==> w.space(c)) && 0 <= i < |path| ensures w.space(path[i]) { assert path[i] in path; }
  }

  predicate Absent(v: Value) {
    v.Missing? || v.Null? || v == Str("")
  }

  // ---------------------------------------------------------------- tokens and their text

  /** A token as a template can hold it. */
  predicate Proper(w: World, t: Token) {
    match t
    case Char(c) => !Brace(c)
    case Hole(path) => BraceFree(path) && !Blank(w, path)
    case _ => true
  }

  predicate AllProper(w: World, tokens: seq<Token>) {
    forall i :: 0 <= i < |tokens| ==> Proper(w, tokens[i])
  }

  function TokenText(t: Token): (text: string)
    ensures text != ""
  {
    match t
    case Char(c) => [c]
    case Open => "{{"
    case Close => "}}"
    case Hole(path) => "{" + path + "}"
  }

  function Unparse(tokens: seq<Token>): string {
    if tokens == [] then "" else TokenText(tokens[0]) + Unparse(tokens[1..])
  }

  // ---------------------------------------------------------------- scanning

  /** How many characters precede the first brace. */
  function PathLength(text: string): (n: nat)
    ensures n <= |text|
    ensures forall i :: 0 <= i < n ==> !Brace(text[i])
    ensures n < |text| ==> Brace(text[n])
  {
    if text == "" || Brace(text[0]) then 0 else 1 + PathLength(text[1..])
  }

  /** The first token of a template and what follows it. */
  datatype First = Token(token: Token, size: nat) | Stray(problem: Problem)

  function FirstToken(w: World, text: string): (first: First)
    requires text != ""
    ensures first.Token? ==> 0 < first.size <= |text|
  {
    if |text| >= 2 && text[0] == '{' && text[1] == '{' then First.Token(Open, 2)
    else if |text| >= 2 && text[0] == '}' && text[1] == '}' then First.Token(Close, 2)
    else if text[0] == '{' then
      var n := PathLength(text[1..]);
      if n < |text| - 1 && text[1 + n] == '}' then
        if Blank(w, text[1..1 + n]) then Stray(EmptyPath) else First.Token(Hole(text[1..1 + n]), n + 2)
      else Stray(UnmatchedBrace)
    else if text[0] == '}' then Stray(UnmatchedBrace)
    else First.Token(Char(text[0]), 1)
  }

  function Scan(w: World, text: string): Scanned
    decreases |text|
  {
    if text == "" then Tokens([])
    else
      match FirstToken(w, text)
      case Stray(problem) => Malformed(problem)
      case Token(token, size) =>
        Prepend([token], Scan(w, text[size..]))
  }

  function Prepend(tokens: seq<Token>, s: Scanned): Scanned {
    match s
    case Malformed(problem) => s
    case Tokens(rest) => Tokens(tokens + rest)
  }

  // ---------------------------------------------------------------- rendering

  function TokenValue(w: World, t: Token): string {
    match t
    case Char(c) => [c]
    case Open => "{"
    case Close => "}"
    case Hole(path) => if Absent(w.resolve(path)) then "" else w.resolve(path).text
  }

  function Fill(w: World, tokens: seq<Token>): string {
    if tokens == [] then "" else TokenValue(w, tokens[0]) + Fill(w, tokens[1..])
  }

  predicate HoleAbsent(w: World, t: Token) {
    t.Hole? && Absent(w.resolve(t.path))
  }

  predicate SomeHoleAbsent(w: World, tokens: seq<Token>) {
    exists i :: 0 <= i < |tokens| && HoleAbsent(w, tokens[i])
  }

  function RenderTokens(w: World, tokens: seq<Token>): Outcome {
    if SomeHoleAbsent(w, tokens) then IsMissing else Rendered(Fill(w, tokens))
  }

  function Interpolate(w: World, template: string): Outcome {
    match Scan(w, template)
    case Malformed(problem) => Failed(problem)
    case Tokens(tokens) => RenderTokens(w, tokens)
  }

  function Render(w: World, template: string): Outcome {
    if '{' in template then Interpolate(w, template) else Plain(w.resolve(template))
  }

  // ---------------------------------------------------------------- the grammar

  lemma HoleFirst(w: World, path: string, rest: string)
    requires Proper(w, Hole(path))
    ensures FirstToken(w, "{" + path + "}" + rest) == First.Token(Hole(path), |path| + 2)
  {
    var text := "{" + path + "}" + rest;
    var tail := "}" + rest;
    assert text[0] == '{' && text[1..] == path + tail;
    PathEnds(path, tail);
    assert text[1] == (path + tail)[0] && text[1 + |path|] == (path + tail)[|path|];
    assert text[1..1 + |path|] == (path + tail)[..|path|] == path;
  }

  lemma UnparseFirst(w: World, t: Token, rest: string)
    requires Proper(w, t)
    ensures FirstToken(w, TokenText(t) + rest) == First.Token(t, |TokenText(t)|)
    ensures (TokenText(t) + rest)[|TokenText(t)|..] == rest
  {
    var text := TokenText(t) + rest;
    if t.Hole? {
      HoleFirst(w, t.path, rest);
    } else {
      assert text[0] == TokenText(t)[0];
      assert t.Open? || t.Close? ==> text[1] == TokenText(t)[1];
    }
  }

  lemma {:induction false} PathEnds(path: string, rest: string)
    requires BraceFree(path) && rest != "" && Brace(rest[0])
    ensures PathLength(path + rest) == |path|
  {
    if path == "" {
      assert path + rest == rest;
    } else {
      PathEnds(path[1..], rest);
      assert (path + rest)[1..] == path[1..] + rest;
    }
  }

  lemma ScanStep(w: World, t: Token, rest: string)
    requires Proper(w, t)
    ensures Scan(w, TokenText(t) + rest) == Prepend([t], Scan(w, rest))
  {
    UnparseFirst(w, t, rest);
  }

  lemma PrependTwice(t: Token, tokens: seq<Token>, s: Scanned)
    ensures Prepend([t], Prepend(tokens, s)) == Prepend([t] + tokens, s)
  {
  }

  /** Scanning reads back exactly the tokens that were written, whatever text follows them. */
  lemma {:induction false} ScanAfterUnparse(w: World, tokens: seq<Token>, rest: string)
    requires AllProper(w, tokens)
    ensures Scan(w, Unparse(tokens) + rest) == Prepend(tokens, Scan(w, rest))
    decreases |tokens|
  {
    if tokens == [] {
      assert Unparse(tokens) + rest == rest;
      assert Scan(w, rest).Tokens? ==> [] + Scan(w, rest).tokens == Scan(w, rest).tokens;
    } else {
      var t, after := tokens[0], Unparse(tokens[1..]) + rest;
      assert Unparse(tokens) + rest == TokenText(t) + after;
      ScanStep(w, t, after);
      ScanAfterUnparse(w, tokens[1..], rest);
      PrependTwice(t, tokens[1..], Scan(w, rest));
      assert [t] + tokens[1..] == tokens;
    }
  }

  /** A scan that succeeds has a first token and scans the rest. */
  lemma ScanCons(w: World, text: string) returns (t: Token, size: nat, rest: seq<Token>)
    requires text != "" && Scan(w, text).Tokens?
    ensures 0 < size <= |text| && Proper(w, t) && TokenText(t) == text[..size]
    ensures Scan(w, text[size..]) == Tokens(rest) && Scan(w, text).tokens == [t] + rest
  {
    FirstIsProper(w, text);
    t, size := FirstToken(w, text).token, FirstToken(w, text).size;
    rest := Scan(w, text[size..]).tokens;
  }

  /** What a scan accepts, it has read completely. */
  lemma {:induction false} UnparseAfterScan(w: World, text: string, tokens: seq<Token>)
    requires Scan(w, text) == Tokens(tokens)
    ensures AllProper(w, tokens) && Unparse(tokens) == text
    decreases |text|
  {
    if text == "" {
      assert tokens == [];
    } else {
      var t, size, rest := ScanCons(w, text);
      UnparseAfterScan(w, text[size..], rest);
      UnparseCons(w, t, rest);
      Halves(text, size);
    }
  }

  lemma Halves(text: string, size: nat)
    requires size <= |text|
    ensures text == text[..size] + text[size..]
  {
  }

  lemma UnparseCons(w: World, t: Token, tokens: seq<Token>)
    requires Proper(w, t) && AllProper(w, tokens)
    ensures AllProper(w, [t] + tokens) && Unparse([t] + tokens) == TokenText(t) + Unparse(tokens)
  {
  }

  lemma HoleIsProper(text: string, n: nat)
    requires text != "" && text[0] == '{' && n == PathLength(text[1..]) < |text| - 1 && text[1 + n] == '}'
    ensures text[..n + 2] == "{" + text[1..1 + n] + "}"
    ensures BraceFree(text[1..1 + n])
  {
    var tail := text[1..];
    var path := tail[..n];
    assert text[1..1 + n] == path;
    forall i | 0 <= i < |path| ensures !Brace(path[i]) { assert path[i] == tail[i]; }
  }

  lemma FirstIsProper(w: World, text: string)
    requires text != "" && FirstToken(w, text).Token?
    ensures Proper(w, FirstToken(w, text).token)
    ensures TokenText(FirstToken(w, text).token) == text[..FirstToken(w, text).size]
  {
    var first := FirstToken(w, text);
    match first.token {
      case Hole(_) => HoleIsProper(text, PathLength(text[1..]));
      case Open => assert text[..2] == "{{";
      case Close => assert text[..2] == "}}";
      case Char(c) => assert text[..1] == [c];
    }
  }

  /** A template fails exactly when it is not the text of any proper tokens: malformed braces always raise,
      whatever the placeholders resolve to, and nothing else does. */
  lemma FailsExactlyWhenMalformed(w: World, template: string)
    requires '{' in template
    ensures Render(w, template).Failed? <==> !exists tokens :: AllProper(w, tokens) && Unparse(tokens) == template
  {
    if Scan(w, template).Tokens? { UnparseAfterScan(w, template, Scan(w, template).tokens); }
    forall tokens | AllProper(w, tokens) && Unparse(tokens) == template ensures Scan(w, template).Tokens? {
      ScanAfterUnparse(w, tokens, "");
      assert template + "" == template;
    }
  }

  // ---------------------------------------------------------------- laws

  lemma Associative(a: string, b: string, c: string)
    ensures a + b + c == a + (b + c)
  {
  }

  lemma {:induction false} FillAppend(w: World, a: seq<Token>, b: seq<Token>)
    ensures Fill(w, a + b) == Fill(w, a) + Fill(w, b)
  {
    if a == [] {
      assert a + b == b;
    } else {
      FillAppend(w, a[1..], b);
      assert (a + b)[0] == a[0] && (a + b)[1..] == a[1..] + b;
      Associative(TokenValue(w, a[0]), Fill(w, a[1..]), Fill(w, b));
    }
  }

  /** One outcome after another. */
  function Join(a: Outcome, b: Outcome): Outcome {
    if a.Failed? then a
    else if b.Failed? then b
    else if a.Rendered? && b.Rendered? then Rendered(a.text + b.text)
    else IsMissing
  }

  lemma RenderAppend(w: World, a: seq<Token>, b: seq<Token>)
    ensures RenderTokens(w, a + b) == Join(RenderTokens(w, a), RenderTokens(w, b))
  {
    FillAppend(w, a, b);
    assert SomeHoleAbsent(w, a + b) <==> SomeHoleAbsent(w, a) || SomeHoleAbsent(w, b) by {
      assert forall i :: 0 <= i < |a| ==> (a + b)[i] == a[i];
      assert forall i :: 0 <= i < |b| ==> (a + b)[|a| + i] == b[i];
    }
  }

  /** Rendering distributes over concatenation, once the first part is well formed. */
  lemma InterpolateAppend(w: World, a: string, b: string)
    requires Scan(w, a).Tokens?
    ensures Interpolate(w, a + b) == Join(Interpolate(w, a), Interpolate(w, b))
  {
    var tokens := Scan(w, a).tokens;
    UnparseAfterScan(w, a, tokens);
    ScanAfterUnparse(w, tokens, b);
    if Scan(w, b).Tokens? { RenderAppend(w, tokens, Scan(w, b).tokens); }
  }

  /** Without well-formedness it does not: two lone braces make a literal one. */
  lemma LoneBracesDoNotDistribute(w: World)
    ensures Interpolate(w, "{" + "{") == Rendered("{") && Join(Interpolate(w, "{"), Interpolate(w, "{")).Failed?
  {
    var two := "{" + "{";
    assert two[2..] == "";
    assert Scan(w, two) == Tokens([Open]);
    assert Fill(w, [Open]) == "{" by { assert [Open][1..] == []; }
    assert "{"[1..] == "";
  }

  /** Where scanning stops: nothing is left of a well-formed text. */
  function Remainder(w: World, text: string): (rest: string)
    ensures rest != "" ==> FirstToken(w, rest).Stray?
    decreases |text|
  {
    if text == "" then ""
    else
      match FirstToken(w, text)
      case Stray(_) => text
      case Token(_, size) => Remainder(w, text[size..])
  }

  /** A text is some proper tokens and its remainder. */
  lemma {:induction false} SplitAtRemainder(w: World, text: string) returns (done: seq<Token>)
    ensures AllProper(w, done) && text == Unparse(done) + Remainder(w, text)
    decreases |text|
  {
    done := [];
    if text == "" || FirstToken(w, text).Stray? {
      assert Unparse(done) + text == text;
    } else {
      var t, size, after := RemainderCons(w, text);
      var rest := SplitAtRemainder(w, text[size..]);
      UnparseCons(w, t, rest);
      Associative(TokenText(t), Unparse(rest), after);
      Halves(text, size);
      done := [t] + rest;
    }
  }

  lemma RemainderCons(w: World, text: string) returns (t: Token, size: nat, after: string)
    requires text != "" && FirstToken(w, text).Token?
    ensures 0 < size <= |text| && Proper(w, t) && TokenText(t) == text[..size]
    ensures after == Remainder(w, text[size..]) == Remainder(w, text)
  {
    FirstIsProper(w, text);
    t, size := FirstToken(w, text).token, FirstToken(w, text).size;
    after := Remainder(w, text[size..]);
  }

  /** Text that comes after can still change the meaning: a brace that could be doubled, or a placeholder
      that could be closed. */
  predicate OpenEnded(rest: string) {
    rest == "}" || (rest != "" && rest[0] == '{' && PathLength(rest[1..]) == |rest| - 1)
  }

  lemma {:induction false} PathLengthAppend(a: string, b: string)
    ensures PathLength(a) < |a| ==> PathLength(a + b) == PathLength(a)
  {
    if a != "" && !Brace(a[0]) {
      PathLengthAppend(a[1..], b);
      assert (a + b)[1..] == a[1..] + b;
    }
  }

  /** A stray token that is not open-ended stays stray. */
  lemma StrayStays(w: World, rest: string, b: string)
    requires rest != "" && FirstToken(w, rest).Stray? && !OpenEnded(rest)
    ensures FirstToken(w, rest + b) == FirstToken(w, rest)
  {
    assert (rest + b)[1..] == rest[1..] + b;
    PathLengthAppend(rest[1..], b);
    if rest[0] == '{' {
      var n := PathLength(rest[1..]);
      assert |rest| >= 2 && rest[1] != '{';
      assert (rest + b)[1 + n] == rest[1 + n] && (rest + b)[1..1 + n] == rest[1..1 + n];
    }
  }

  /** An open-ended one is changed by a closing brace. */
  lemma ClosingChanges(w: World, rest: string)
    requires rest != "" && FirstToken(w, rest).Stray? && OpenEnded(rest)
    ensures FirstToken(w, rest).problem == UnmatchedBrace
    ensures Scan(w, rest + "}") != Malformed(UnmatchedBrace)
  {
    var text := rest + "}";
    if rest[0] == '{' {
      var path := rest[1..];
      assert text[1..] == path + "}";
      PathEnds(path, "}");
      assert text[1..1 + |path|] == path && text[|path| + 2..] == "";
    } else {
      assert text[2..] == "";
    }
  }

  /** Exactly which first parts let rendering distribute over every second part: those that stop nowhere, or at a
      brace that no later text can complete. */
  lemma DistributesExactly(w: World, a: string)
    ensures (forall b :: Interpolate(w, a + b) == Join(Interpolate(w, a), Interpolate(w, b)))
              <==> !OpenEnded(Remainder(w, a))
  {
    var rest := Remainder(w, a);
    if rest == "" {
      WellFormedDistributes(w, a);
    } else if OpenEnded(rest) {
      OpenEndedDoesNot(w, a);
    } else {
      forall b ensures Interpolate(w, a + b) == Join(Interpolate(w, a), Interpolate(w, b)) { SettledDistributes(w, a, b); }
    }
  }

  lemma WellFormedDistributes(w: World, a: string)
    requires Remainder(w, a) == ""
    ensures forall b :: Interpolate(w, a + b) == Join(Interpolate(w, a), Interpolate(w, b))
  {
    var done := AppendAtRemainder(w, a, "");
    forall b ensures Interpolate(w, a + b) == Join(Interpolate(w, a), Interpolate(w, b)) { InterpolateAppend(w, a, b); }
  }

  lemma AppendAtRemainder(w: World, a: string, b: string) returns (done: seq<Token>)
    ensures Scan(w, a + b) == Prepend(done, Scan(w, Remainder(w, a) + b))
    ensures Scan(w, a) == Prepend(done, Scan(w, Remainder(w, a)))
  {
    done := SplitAtRemainder(w, a);
    Associative(Unparse(done), Remainder(w, a), b);
    ScanAfterUnparse(w, done, Remainder(w, a) + b);
    ScanAfterUnparse(w, done, Remainder(w, a));
  }

  lemma SettledDistributes(w: World, a: string, b: string)
    requires Remainder(w, a) != "" && !OpenEnded(Remainder(w, a))
    ensures Interpolate(w, a + b) == Join(Interpolate(w, a), Interpolate(w, b))
  {
    var done := AppendAtRemainder(w, a, b);
    StrayStays(w, Remainder(w, a), b);
  }

  lemma OpenEndedDoesNot(w: World, a: string)
    requires Remainder(w, a) != "" && OpenEnded(Remainder(w, a))
    ensures exists b :: Interpolate(w, a + b) != Join(Interpolate(w, a), Interpolate(w, b))
  {
    var done := AppendAtRemainder(w, a, "}");
    ClosingChanges(w, Remainder(w, a));
    assert Interpolate(w, a + "}") != Join(Interpolate(w, a), Interpolate(w, "}"));
  }

  /** Every brace doubled. */
  function Double(text: string): string {
    if text == "" then ""
    else (if text[0] == '{' then "{{" else if text[0] == '}' then "}}" else [text[0]]) + Double(text[1..])
  }

  /** The tokens of a text that is meant literally. */
  function Literal(text: string): seq<Token> {
    if text == "" then []
    else [if text[0] == '{' then Open else if text[0] == '}' then Close else Char(text[0])] + Literal(text[1..])
  }

  lemma {:induction false} DoubleIsLiteral(w: World, text: string)
    ensures AllProper(w, Literal(text)) && Unparse(Literal(text)) == Double(text)
    ensures Fill(w, Literal(text)) == text && !SomeHoleAbsent(w, Literal(text))
    ensures '{' in Double(text) <==> '{' in text
  {
    if text != "" {
      DoubleIsLiteral(w, text[1..]);
      assert text == [text[0]] + text[1..];
      assert Literal(text)[1..] == Literal(text[1..]);
      assert '{' in text <==> text[0] == '{' || '{' in text[1..];
    }
  }

  /** Doubling every brace makes a text literal, whatever it contains, as long as it contains an opening
      brace; without one the doubled text is taken as a path. */
  lemma DoubledTextIsLiteral(w: World, text: string)
    ensures '{' in text ==> Render(w, Double(text)) == Rendered(text)
    ensures '{' !in text ==> Render(w, Double(text)) == Plain(w.resolve(Double(text)))
  {
    DoubleIsLiteral(w, text);
    ScanAfterUnparse(w, Literal(text), "");
    assert Double(text) + "" == Double(text) && Literal(text) + [] == Literal(text);
  }

  /** The escaping law holds exactly for texts with an opening brace. */
  lemma EscapingNeedsOpeningBrace(space: char -> bool, text: string)
    ensures (forall resolve :: Render(World(resolve, space), Double(text)) == Rendered(text)) <==> '{' in text
  {
    var nothing := World((path: string) => Missing, space);
    DoubledTextIsLiteral(nothing, text);
    forall resolve | '{' in text ensures Render(World(resolve, space), Double(text)) == Rendered(text) {
      DoubledTextIsLiteral(World(resolve, space), text);
    }
  }

  /** A well-formed template is missing exactly when some placeholder is; otherwise it is the text with every
      placeholder replaced. */
  lemma MissingExactlyWhenAPlaceholderIs(w: World, tokens: seq<Token>)
    requires AllProper(w, tokens) && '{' in Unparse(tokens)
    ensures Render(w, Unparse(tokens)) == RenderTokens(w, tokens)
    ensures Render(w, Unparse(tokens)) == IsMissing <==> SomeHoleAbsent(w, tokens)
  {
    ScanAfterUnparse(w, tokens, "");
    assert Unparse(tokens) + "" == Unparse(tokens) && tokens + [] == tokens;
  }

  /** Without an opening brace a template is a path, and what it resolves to is handed back as it is. */
  lemma PlainTemplateIsAPath(w: World, template: string)
    requires '{' !in template
    ensures Render(w, template) == Plain(w.resolve(template))
  {
  }

  lemma OneTokenRenders(w: World, t: Token)
    requires Proper(w, t)
    ensures Interpolate(w, TokenText(t)) == RenderTokens(w, [t])
  {
    ScanAfterUnparse(w, [t], "");
    assert [t][1..] == [] && TokenText(t) + "" == TokenText(t) && [t] + [] == [t];
  }

  lemma OneTokenFills(w: World, t: Token)
    ensures Fill(w, [t]) == TokenValue(w, t)
    ensures SomeHoleAbsent(w, [t]) <==> HoleAbsent(w, t)
  {
    assert [t][1..] == [] && TokenValue(w, t) + "" == TokenValue(w, t);
    assert HoleAbsent(w, t) ==> HoleAbsent(w, [t][0]);
  }

  /** What each piece of a template stands for: a placeholder for the text its path resolves to, or for nothing at all if
      that is missing, null or empty; a doubled brace for one; any other character for itself. */
  lemma PiecesStandFor(w: World, path: string, c: char)
    requires BraceFree(path) && !Blank(w, path) && c != '{' && c != '}'
    ensures Interpolate(w, "{" + path + "}")
         == match w.resolve(path)
            case Missing => IsMissing
            case Null => IsMissing
            case Str(text) => if text == "" then IsMissing else Rendered(text)
            case Other(text) => Rendered(text)
    ensures Interpolate(w, "{{") == Rendered("{") && Interpolate(w, "}}") == Rendered("}") && Interpolate(w, [c]) == Rendered([c])
  {
    OneTokenRenders(w, Hole(path));
    OneTokenFills(w, Hole(path));
    OneTokenRenders(w, Open);
    OneTokenFills(w, Open);
    OneTokenRenders(w, Close);
    OneTokenFills(w, Close);
    OneTokenRenders(w, Char(c));
    OneTokenFills(w, Char(c));
  }

  /** A placeholder between any two well-formed texts is replaced in place, and nothing else changes. */
  lemma PlaceholderIsReplaced(w: World, before: string, path: string, after: string, text: string)
    requires Interpolate(w, before).Rendered? && Interpolate(w, after).Rendered?
    requires BraceFree(path) && !Blank(w, path) && text != "" && (w.resolve(path) == Str(text) || w.resolve(path) == Other(text))
    ensures Interpolate(w, before + ("{" + path + "}" + after))
         == Rendered(Interpolate(w, before).text + text + Interpolate(w, after).text)
  {
    var hole := "{" + path + "}";
    PiecesStandFor(w, path, 'x');
    InterpolateAppend(w, hole, after);
    InterpolateAppend(w, before, hole + after);
    Associative(Interpolate(w, before).text, text, Interpolate(w, after).text);
  }

  /** And a template is missing exactly if some placeholder resolves to what is missing, null or empty. */
  lemma MissingExactly(w: World, tokens: seq<Token>)
    requires AllProper(w, tokens) && '{' in Unparse(tokens)
    ensures Render(w, Unparse(tokens)) == IsMissing <==>
              exists i :: 0 <= i < |tokens| && tokens[i].Hole?
                && (w.resolve(tokens[i].path) == Missing || w.resolve(tokens[i].path) == Null || w.resolve(tokens[i].path) == Str(""))
  {
    MissingExactlyWhenAPlaceholderIs(w, tokens);
    if exists i :: 0 <= i < |tokens| && tokens[i].Hole?
         && (w.resolve(tokens[i].path) == Missing || w.resolve(tokens[i].path) == Null || w.resolve(tokens[i].path) == Str("")) {
      var i :| 0 <= i < |tokens| && tokens[i].Hole?
        && (w.resolve(tokens[i].path) == Missing || w.resolve(tokens[i].path) == Null || w.resolve(tokens[i].path) == Str(""));
      assert HoleAbsent(w, tokens[i]);
    }
  }

  /** The text starts with a placeholder whose path is blank. */
  ghost predicate BlankHole(w: World, text: string) {
    exists path :: BraceFree(path) && Blank(w, path) && "{" + path + "}" <= text
  }

  /** Which error a malformed template raises: that of an empty path exactly if a blank placeholder stopped it. */
  lemma {:induction false} ProblemExactly(w: World, template: string)
    requires Interpolate(w, template).Failed?
    ensures Interpolate(w, template).problem == if BlankHole(w, Remainder(w, template)) then EmptyPath else UnmatchedBrace
    decreases |template|
  {
    var first := FirstToken(w, template);
    if first.Token? {
      ProblemExactly(w, template[first.size..]);
    } else {
      StrayExactly(w, template);
    }
  }

  lemma HoleAhead(path: string, text: string)
    requires BraceFree(path) && "{" + path + "}" <= text
    ensures |text| >= 2 && text[0] == '{' && PathLength(text[1..]) == |path| < |text| - 1
    ensures text[1..1 + |path|] == path && text[1 + |path|] == '}'
  {
    var hole := "{" + path + "}";
    var rest := "}" + text[|hole|..];
    assert text == hole + text[|hole|..];
    assert text[1..] == path + rest;
    PathEnds(path, rest);
    assert text[1..1 + |path|] == (path + rest)[..|path|];
  }

  lemma StrayExactly(w: World, text: string)
    requires text != "" && FirstToken(w, text).Stray?
    ensures FirstToken(w, text).problem == if BlankHole(w, text) then EmptyPath else UnmatchedBrace
  {
    if FirstToken(w, text).problem.EmptyPath? {
      var n := PathLength(text[1..]);
      HoleIsProper(text, n);
      assert "{" + text[1..1 + n] + "}" <= text;
    } else {
      forall path ensures !(BraceFree(path) && Blank(w, path) && "{" + path + "}" <= text) {
        if BraceFree(path) && "{" + path + "}" <= text { HoleAhead(path, text); }
      }
    }
  }

  // ---------------------------------------------------------------- the substitution loop

  /** The regular-expression substitution, one match after another from the left. */
  method RenderPathTemplate(w: World, template: string) returns (outcome: Outcome)
    ensures outcome == Render(w, template)
  {
    if '{' !in template { return Plain(w.resolve(template)); }
    var hasMissing, rendered, left := false, "", template;
    ghost var done: seq<Token> := [];
    while left != ""
      invariant Scan(w, template) == Prepend(done, Scan(w, left))
      invariant hasMissing == SomeHoleAbsent(w, done) && rendered == Fill(w, done)
      decreases |left|
    {
      match FirstToken(w, left) {
        case Stray(problem) => return Failed(problem);
        case Token(token, size) =>
          PrependNext(done, token, Scan(w, left[size..]));
          NextToken(w, done, token);
          hasMissing := hasMissing || HoleAbsent(w, token);
          rendered := rendered + TokenValue(w, token);
          done := done + [token];
          left := left[size..];
      }
    }
    assert done + [] == done;
    return if hasMissing then IsMissing else Rendered(rendered);
  }

  lemma PrependNext(done: seq<Token>, t: Token, s: Scanned)
    ensures Prepend(done, Prepend([t], s)) == Prepend(done + [t], s)
  {
  }

  lemma NextToken(w: World, done: seq<Token>, t: Token)
    ensures SomeHoleAbsent(w, done + [t]) <==> SomeHoleAbsent(w, done) || HoleAbsent(w, t)
    ensures Fill(w, done + [t]) == Fill(w, done) + TokenValue(w, t)
  {
    FillAppend(w, done, [t]);
    assert [t][1..] == [] && Fill(w, [t]) == TokenValue(w, t) + Fill(w, []);
    assert (done + [t])[|done|] == t;
    assert forall i :: 0 <= i < |done| ==> (done + [t])[i] == done[i];
  }
}
