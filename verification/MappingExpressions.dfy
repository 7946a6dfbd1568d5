/**
 Mapping expressions (brain/platform/mapping_expressions.py): what the validator accepts and what the
 evaluator makes of it. Path templates are in module PathTemplate.
 */
module MappingExpressions {

  /** The field names the language gives a meaning to, and all others. */
  datatype Key =
    | Const | Path | Template | If | Now
    | Then | Else
    | Field | Exists | Equals | NotEquals | In
    | Named(name: string)

  /** JSON-like values, as they reach the service. */
  datatype Value =
    | Null
    | Bool(b: bool)
    | Number(n: real)
    | Text(s: string)
    | List(items: seq<Value>)
    | Object(fields: map<Key, Value>)

  /** A resolved path: a value, or the caller's sentinel for a missing one. */
  datatype Resolved = Missing | Found(value: Value)

  /** What a mapping error complains about. */
  datatype Problem =
    | NoKeyword | SeveralKeywords | PathNotString | TemplateNotString | NowNotTrue | ThenMissing
    | EmptyPath | NotAnExpression
    | ConditionNotObject | ConditionWithoutPath | InNotList | ExistsNotBoolean

  /** A validation error, with the fields that lead to the expression or condition it is about. */
  datatype Diagnostic = Diagnostic(at: seq<Key>, problem: Problem)

  datatype Result<T> = Ok(value: T) | Error(problem: Problem)

  /** The caller's side: path lookup in the source, the clock, template substitution, Python's `str` and `==`. */
  datatype World = World(resolve: string -> Resolved, clock: string, template: string -> string,
                         str: Value -> string, equal: (Value, Value) -> bool, space: char -> bool)

  const MAPPING_KEYS: seq<Key> := [Const, Path, Template, If, Now]

  function Get(fields: map<Key, Value>, key: Key): Value {
    if key in fields then fields[key] else Null
  }

  predicate Truthy(v: Value) {
    match v
    case Null => false
    case Bool(b) => b
    case Number(n) => n != 0.0
    case Text(s) => s != ""
    case List(items) => items != []
    case Object(fields) => fields != map[]
  }

  function StringOrEmpty(w: World, v: Value): string {
    if !Truthy(v) then "" else if v.Text? then v.s else w.str(v)
  }

  predicate Blank(w: World, text: string) {
    forall i :: 0 <= i < |text| ==> w.space(text[i])
  }

  // ---------------------------------------------------------------- evaluation

  function ConditionPath(condition: map<Key, Value>): Value {
    if Path in condition then condition[Path] else Get(condition, Field)
  }

  function ConditionMatches(w: World, condition: map<Key, Value>): Result<bool> {
    var path := ConditionPath(condition);
    if path.Null? then Error(ConditionWithoutPath)
    else
      var found := w.resolve(if path.Text? then path.s else w.str(path));
      var value := if found.Missing? then Null else found.value;
      if Exists in condition then Ok(!value.Null? == Truthy(condition[Exists]))
      else if Equals in condition then Ok(w.equal(value, condition[Equals]))
      else if NotEquals in condition then Ok(!w.equal(value, condition[NotEquals]))
      else if In in condition then
        if condition[In].List? then
          Ok(exists i :: 0 <= i < |condition[In].items| && w.equal(value, condition[In].items[i]))
        else Error(InNotList)
      else Ok(Truthy(value))
  }

  function Evaluate(w: World, expr: Value): Result<Resolved> {
    match expr
    case Object(fields) =>
      if Const in fields then Ok(Found(fields[Const]))
      else if Path in fields then Ok(w.resolve(StringOrEmpty(w, fields[Path])))
      else if Template in fields then Ok(Found(Text(w.template(StringOrEmpty(w, fields[Template])))))
      else if Now in fields then
        if fields[Now] == Bool(true) then Ok(Found(Text(w.clock))) else Error(NowNotTrue)
      else if If in fields then
        if !fields[If].Object? then Error(ConditionNotObject)
        else
          match ConditionMatches(w, fields[If].fields)
          case Error(problem) => Error(problem)
          case Ok(matches) =>
            var key := if matches then Then else Else;
            if key in fields && fields[key].Object? then Evaluate(w, fields[key])
            else Ok(Found(Get(fields, key)))
      else Error(NoKeyword)
    case Null => Ok(Found(Null))
    case Text(s) => Ok(w.resolve(s))
    case _ => Ok(w.resolve(w.str(expr)))
  }

  // ---------------------------------------------------------------- validation

  function Present(fields: map<Key, Value>, keys: seq<Key>): seq<Key> {
    if keys == [] then []
    else (if keys[0] in fields then [keys[0]] else []) + Present(fields, keys[1..])
  }

  function ConditionErrors(w: World, at: seq<Key>, condition: Value): seq<Diagnostic> {
    if !condition.Object? then [Diagnostic(at, ConditionNotObject)]
    else
      var fields := condition.fields;
      var path := ConditionPath(fields);
      (if !path.Text? || Blank(w, path.s) then [Diagnostic(at, ConditionWithoutPath)] else [])
      + (if In in fields && !fields[In].List? then [Diagnostic(at, InNotList)] else [])
      + (if Exists in fields && !fields[Exists].Bool? then [Diagnostic(at, ExistsNotBoolean)] else [])
  }

  function BranchErrors(w: World, at: seq<Key>, expr: Value): seq<Diagnostic>
    requires expr.Object?
    decreases expr, 0
  {
    var fields := expr.fields;
    var condition := ConditionErrors(w, at + [If], Get(fields, If));
    var thenErrors := if Then in fields then Errors(w, at + [Then], fields[Then], true) else [Diagnostic(at, ThenMissing)];
    var elseErrors := if Else in fields then Errors(w, at + [Else], fields[Else], true) else [];
    condition + thenErrors + elseErrors
  }

  function Errors(w: World, at: seq<Key>, expr: Value, branchLiteral: bool): seq<Diagnostic>
    decreases expr, 1
  {
    match expr
    case Object(fields) =>
      var present := Present(fields, MAPPING_KEYS);
      if present == [] then [Diagnostic(at, NoKeyword)]
      else if |present| > 1 then [Diagnostic(at, SeveralKeywords)]
      else if present[0] == Path && !Get(fields, Path).Text? then [Diagnostic(at, PathNotString)]
      else if present[0] == Template && !Get(fields, Template).Text? then [Diagnostic(at, TemplateNotString)]
      else if present[0] == Now && Get(fields, Now) != Bool(true) then [Diagnostic(at, NowNotTrue)]
      else if present[0] == If then BranchErrors(w, at, expr)
      else []
    case Null => []
    case Text(s) => if !branchLiteral && Blank(w, s) then [Diagnostic(at, EmptyPath)] else []
    case _ => if branchLiteral then [] else [Diagnostic(at, NotAnExpression)]
  }

  // ---------------------------------------------------------------- laws

  lemma {:induction false} PresentExactly(fields: map<Key, Value>, keys: seq<Key>, k: Key)
    ensures k in Present(fields, keys) <==> k in keys && k in fields
  {
    if keys != [] { PresentExactly(fields, keys[1..], k); }
  }

  lemma ConditionSound(w: World, at: seq<Key>, condition: Value)
    requires ConditionErrors(w, at, condition) == []
    ensures condition.Object? && ConditionMatches(w, condition.fields).Ok?
  {
  }

  /** In an expression without errors exactly one keyword is present. */
  lemma OnlyKeyword(w: World, at: seq<Key>, expr: Value, branchLiteral: bool, k: Key)
    requires expr.Object? && Errors(w, at, expr, branchLiteral) == []
    ensures |Present(expr.fields, MAPPING_KEYS)| == 1
    ensures k in MAPPING_KEYS ==> (k in expr.fields <==> k == Present(expr.fields, MAPPING_KEYS)[0])
  {
    PresentExactly(expr.fields, MAPPING_KEYS, k);
  }

  /** A valid conditional: its condition can be decided and its branches are valid. */
  lemma ConditionalIsValid(w: World, at: seq<Key>, expr: Value, branchLiteral: bool)
    requires expr.Object? && Errors(w, at, expr, branchLiteral) == [] && If in expr.fields
    ensures var fields := expr.fields;
            && ConditionErrors(w, at + [If], fields[If]) == []
            && Then in fields && Errors(w, at + [Then], fields[Then], true) == []
            && (Else in fields ==> Errors(w, at + [Else], fields[Else], true) == [])
  {
    OnlyKeyword(w, at, expr, branchLiteral, If);
    assert MAPPING_KEYS[3] == If;
    assert BranchErrors(w, at, expr) == [];
  }

  lemma NowIsTrue(w: World, at: seq<Key>, expr: Value, branchLiteral: bool)
    requires expr.Object? && Errors(w, at, expr, branchLiteral) == []
    ensures Now in expr.fields ==> expr.fields[Now] == Bool(true)
    ensures exists k :: k in MAPPING_KEYS && k in expr.fields
  {
    PresentExactly(expr.fields, MAPPING_KEYS, Present(expr.fields, MAPPING_KEYS)[0]);
    OnlyKeyword(w, at, expr, branchLiteral, Now);
    assert MAPPING_KEYS[4] == Now;
  }

  /** Whatever validation accepts, at any depth, is evaluated without a mapping error, for every source. */
  lemma {:induction false} ValidatedExpressionsEvaluate(w: World, at: seq<Key>, expr: Value, branchLiteral: bool)
    requires Errors(w, at, expr, branchLiteral) == []
    ensures Evaluate(w, expr).Ok?
    decreases expr
  {
    if expr.Object? {
      var fields := expr.fields;
      NowIsTrue(w, at, expr, branchLiteral);
      if If in fields {
        ConditionalIsValid(w, at, expr, branchLiteral);
        ConditionSound(w, at + [If], fields[If]);
        if fields[Then].Object? { ValidatedExpressionsEvaluate(w, at + [Then], fields[Then], true); }
        if Else in fields && fields[Else].Object? { ValidatedExpressionsEvaluate(w, at + [Else], fields[Else], true); }
      }
    }
  }

  /** Every complaint names a place at or below the validated expression. */
  lemma {:induction false} ErrorsAreLocated(w: World, at: seq<Key>, expr: Value, branchLiteral: bool)
    ensures forall d :: d in Errors(w, at, expr, branchLiteral) ==> at <= d.at
    decreases expr
  {
    if expr.Object? && Present(expr.fields, MAPPING_KEYS) == [If] {
      var fields := expr.fields;
      if Then in fields { ErrorsAreLocated(w, at + [Then], fields[Then], true); }
      if Else in fields { ErrorsAreLocated(w, at + [Else], fields[Else], true); }
      forall d | d in BranchErrors(w, at, expr) ensures at <= d.at { BranchErrorIsLocated(w, at, expr, d); }
    }
  }

  lemma BranchErrorIsLocated(w: World, at: seq<Key>, expr: Value, d: Diagnostic)
    requires expr.Object? && d in BranchErrors(w, at, expr)
    requires Then in expr.fields ==> forall e :: e in Errors(w, at + [Then], expr.fields[Then], true) ==> at + [Then] <= e.at
    requires Else in expr.fields ==> forall e :: e in Errors(w, at + [Else], expr.fields[Else], true) ==> at + [Else] <= e.at
    ensures at <= d.at
  {
  }

  // ---------------------------------------------------------------- what validation accepts

  /** The values that count as false. */
  lemma FalsyExactly(v: Value)
    ensures !Truthy(v) <==> v == Null || v == Bool(false) || v == Number(0.0) || v == Text("") || v == List([]) || v == Object(map[])
  {
  }

  lemma BlankExactly(w: World, text: string)
    ensures Blank(w, text) <==> forall c :: c in text ==> w.space(c)
  {
    forall i | (forall c :: c in text ==> w.space(c)) && 0 <= i < |text| ensures w.space(text[i]) { assert text[i] in text; }
  }

  /** A condition names a path, under `path` or else under `field`, that is a string and not blank. */
  predicate NamesPath(w: World, condition: map<Key, Value>) {
    if Path in condition then condition[Path].Text? && !Blank(w, condition[Path].s)
    else Field in condition && condition[Field].Text? && !Blank(w, condition[Field].s)
  }

  /** Which errors a condition has: each of these exactly for its own reason, at the place of the condition. */
  lemma ConditionErrorsExactly(w: World, at: seq<Key>, condition: Value)
    ensures !condition.Object? ==> ConditionErrors(w, at, condition) == [Diagnostic(at, ConditionNotObject)]
    ensures condition.Object? ==>
              var c, errors := condition.fields, ConditionErrors(w, at, condition);
              && (Diagnostic(at, ConditionWithoutPath) in errors <==> !NamesPath(w, c))
              && (Diagnostic(at, InNotList) in errors <==> In in c && !c[In].List?)
              && (Diagnostic(at, ExistsNotBoolean) in errors <==> Exists in c && !c[Exists].Bool?)
              && |errors| <= 3
              && forall d :: d in errors ==> d.at == at && d.problem in [ConditionWithoutPath, InNotList, ExistsNotBoolean]
    ensures ConditionErrors(w, at, condition) == [] <==>
              && condition.Object? && NamesPath(w, condition.fields)
              && (In in condition.fields ==> condition.fields[In].List?)
              && (Exists in condition.fields ==> condition.fields[Exists].Bool?)
  {
  }

  /** `field` is another name for `path`: where there is no `path`, validation and evaluation take it alike. */
  lemma FieldIsLikePath(w: World, at: seq<Key>, c: map<Key, Value>)
    requires Path !in c && Field in c
    ensures ConditionErrors(w, at, Object(c)) == ConditionErrors(w, at, Object(c[Path := c[Field]]))
    ensures ConditionMatches(w, c) == ConditionMatches(w, c[Path := c[Field]])
  {
  }

  function KeywordCount(fields: map<Key, Value>): nat {
    (if Const in fields then 1 else 0) + (if Path in fields then 1 else 0) + (if Template in fields then 1 else 0)
    + (if If in fields then 1 else 0) + (if Now in fields then 1 else 0)
  }

  lemma PresentCounts(fields: map<Key, Value>)
    ensures |Present(fields, MAPPING_KEYS)| == KeywordCount(fields)
    ensures KeywordCount(fields) == 1 ==> forall k :: k in [Const, Path, Template, If, Now] && k in fields ==>
              Present(fields, MAPPING_KEYS)[0] == k
  {
    assert MAPPING_KEYS[1..] == [Path, Template, If, Now] && MAPPING_KEYS[1..][1..] == [Template, If, Now];
    assert [Template, If, Now][1..] == [If, Now] && [If, Now][1..] == [Now];
    var p4 := Present(fields, [Now]);
    assert [Now][1..] == [] && Present(fields, []) == [];
    assert p4 == (if Now in fields then [Now] else []) + [];
    var p3 := Present(fields, [If, Now]);
    assert p3 == (if If in fields then [If] else []) + p4;
    var p2 := Present(fields, [Template, If, Now]);
    assert p2 == (if Template in fields then [Template] else []) + p3;
    var p1 := Present(fields, [Path, Template, If, Now]);
    assert p1 == (if Path in fields then [Path] else []) + p2;
    assert Present(fields, MAPPING_KEYS) == (if Const in fields then [Const] else []) + p1;
  }

  /** The grammar of the language: one keyword per object, with the right kind of value; a conditional has a condition that
      names a path and a `then` branch; strings are paths, and literals only in branches. */
  predicate Grammatical(w: World, v: Value, inBranch: bool)
    decreases v
  {
    match v
    case Null => true
    case Text(s) => inBranch || !Blank(w, s)
    case Object(fields) =>
      && KeywordCount(fields) == 1
      && (Path in fields ==> fields[Path].Text?)
      && (Template in fields ==> fields[Template].Text?)
      && (Now in fields ==> fields[Now] == Bool(true))
      && (If in fields ==>
            && fields[If].Object? && NamesPath(w, fields[If].fields)
            && (In in fields[If].fields ==> fields[If].fields[In].List?)
            && (Exists in fields[If].fields ==> fields[If].fields[Exists].Bool?)
            && Then in fields && Grammatical(w, fields[Then], true)
            && (Else in fields ==> Grammatical(w, fields[Else], true)))
    case _ => inBranch
  }

  /** Which error an object has that is no conditional: none or one, by the number of its keywords and the kind of value. */
  lemma LeafErrorExactly(w: World, at: seq<Key>, fields: map<Key, Value>, branchLiteral: bool)
    requires KeywordCount(fields) == 1 ==> If !in fields
    ensures Errors(w, at, Object(fields), branchLiteral)
         == if KeywordCount(fields) == 0 then [Diagnostic(at, NoKeyword)]
            else if KeywordCount(fields) > 1 then [Diagnostic(at, SeveralKeywords)]
            else if Path in fields && !fields[Path].Text? then [Diagnostic(at, PathNotString)]
            else if Template in fields && !fields[Template].Text? then [Diagnostic(at, TemplateNotString)]
            else if Now in fields && fields[Now] != Bool(true) then [Diagnostic(at, NowNotTrue)]
            else []
  {
    PresentCounts(fields);
  }

  /** The errors of a conditional are those of its condition, a missing `then`, and those of its branches, each under the
      key it is found under. */
  lemma ConditionalErrorsExactly(w: World, at: seq<Key>, fields: map<Key, Value>, branchLiteral: bool)
    requires KeywordCount(fields) == 1 && If in fields
    ensures Errors(w, at, Object(fields), branchLiteral)
         == ConditionErrors(w, at + [If], fields[If])
            + (if Then in fields then Errors(w, at + [Then], fields[Then], true) else [Diagnostic(at, ThenMissing)])
            + (if Else in fields then Errors(w, at + [Else], fields[Else], true) else [])
  {
    PresentCounts(fields);
    assert If in [Const, Path, Template, If, Now];
  }

  /** Validation accepts exactly the grammar, at any depth. */
  lemma {:induction false} ValidExactly(w: World, at: seq<Key>, v: Value, branchLiteral: bool)
    ensures Errors(w, at, v, branchLiteral) == [] <==> Grammatical(w, v, branchLiteral)
    decreases v
  {
    if v.Object? {
      var fields := v.fields;
      if KeywordCount(fields) == 1 && If in fields {
        ConditionalErrorsExactly(w, at, fields, branchLiteral);
        ConditionErrorsExactly(w, at + [If], fields[If]);
        if Then in fields { ValidExactly(w, at + [Then], fields[Then], true); }
        if Else in fields { ValidExactly(w, at + [Else], fields[Else], true); }
      } else {
        LeafErrorExactly(w, at, fields, branchLiteral);
      }
    }
  }

  /** What decides an object with several keywords: a constant before a path, a path before a template, a template before
      the clock, and a condition last. A path or template that is no string is turned into one, or is empty if false. */
  lemma FirstKeywordDecides(w: World, fields: map<Key, Value>)
    ensures Const in fields ==> Evaluate(w, Object(fields)) == Ok(Found(fields[Const]))
    ensures Const !in fields && Path in fields ==>
              Evaluate(w, Object(fields))
              == Ok(w.resolve(if !Truthy(fields[Path]) then "" else if fields[Path].Text? then fields[Path].s else w.str(fields[Path])))
    ensures Const !in fields && Path !in fields && Template in fields ==>
              var template := fields[Template];
              Evaluate(w, Object(fields))
              == Ok(Found(Text(w.template(if !Truthy(template) then "" else if template.Text? then template.s else w.str(template)))))
    ensures Const !in fields && Path !in fields && Template !in fields && Now in fields ==>
              Evaluate(w, Object(fields)) == if fields[Now] == Bool(true) then Ok(Found(Text(w.clock))) else Error(NowNotTrue)
    ensures Const !in fields && Path !in fields && Template !in fields && Now !in fields && If !in fields ==>
              Evaluate(w, Object(fields)) == Error(NoKeyword)
  {
  }

  /** When a condition cannot be decided, whatever the source: it names no path, or its only test is membership in
      something that is no list. */
  lemma UndecidedExactly(w: World, c: map<Key, Value>)
    ensures ConditionMatches(w, c) == Error(ConditionWithoutPath) <==>
              if Path in c then c[Path] == Null else Field !in c || c[Field] == Null
    ensures ConditionMatches(w, c) == Error(InNotList) <==>
              && (if Path in c then c[Path] != Null else Field in c && c[Field] != Null)
              && Exists !in c && Equals !in c && NotEquals !in c && In in c && !c[In].List?
    ensures ConditionMatches(w, c).Error? ==>
              ConditionMatches(w, c).problem == ConditionWithoutPath || ConditionMatches(w, c).problem == InNotList
  {
  }

  /** What a conditional without another keyword evaluates to: the error of its condition, or the branch the condition
      picks, where anything but an object stands for itself and a missing branch for null. */
  lemma ConditionPicksBranch(w: World, fields: map<Key, Value>)
    requires Const !in fields && Path !in fields && Template !in fields && Now !in fields && If in fields
    ensures var result := Evaluate(w, Object(fields));
            if !fields[If].Object? then result == Error(ConditionNotObject)
            else
              match ConditionMatches(w, fields[If].fields)
              case Error(problem) => result == Error(problem)
              case Ok(matches) =>
                var branch := if matches then Then else Else;
                if branch !in fields then result == Ok(Found(Null))
                else if fields[branch].Object? then result == Evaluate(w, fields[branch])
                else result == Ok(Found(fields[branch]))
  {
  }

  // ---------------------------------------------------------------- what an expression means

  datatype Test = ExistsTest(wanted: bool) | EqualsTest(value: Value) | NotEqualsTest(other: Value) | InTest(options: seq<Value>) | TruthyTest

  datatype Condition = Condition(path: string, test: Test)

  /** An expression as a decision tree. */
  datatype Tree =
    | Constant(value: Value)
    | Lookup(path: string)
    | Rendered(text: string)
    | Clock
    | Literal(value: Value)
    | Choice(condition: Condition, yes: Tree, no: Tree)

  predicate Holds(w: World, c: Condition) {
    var found := w.resolve(c.path);
    var value := if found.Missing? then Null else found.value;
    match c.test
    case ExistsTest(wanted) => value != Null <==> wanted
    case EqualsTest(v) => w.equal(value, v)
    case NotEqualsTest(v) => !w.equal(value, v)
    case InTest(options) => exists i :: 0 <= i < |options| && w.equal(value, options[i])
    case TruthyTest => Truthy(value)
  }

  /** The value at the leaf the conditions lead to. */
  function Denote(w: World, t: Tree): Resolved {
    match t
    case Constant(value) => Found(value)
    case Lookup(path) => w.resolve(path)
    case Rendered(text) => Found(Text(w.template(text)))
    case Clock => Found(Text(w.clock))
    case Literal(value) => Found(value)
    case Choice(condition, yes, no) => if Holds(w, condition) then Denote(w, yes) else Denote(w, no)
  }

  function TextOr(v: Value): string {
    if v.Text? then v.s else ""
  }

  function DecodeTest(fields: map<Key, Value>): Test {
    if Exists in fields then ExistsTest(fields[Exists] == Bool(true))
    else if Equals in fields then EqualsTest(fields[Equals])
    else if NotEquals in fields then NotEqualsTest(fields[NotEquals])
    else if In in fields && fields[In].List? then InTest(fields[In].items)
    else TruthyTest
  }

  function DecodeCondition(v: Value): Condition {
    if v.Object? then Condition(TextOr(ConditionPath(v.fields)), DecodeTest(v.fields)) else Condition("", TruthyTest)
  }

  /** The tree of a branch: anything but an object stands for itself. */
  function Decode(v: Value): Tree {
    match v
    case Object(fields) =>
      if Const in fields then Constant(fields[Const])
      else if Path in fields then Lookup(TextOr(fields[Path]))
      else if Template in fields then Rendered(TextOr(fields[Template]))
      else if Now in fields then Clock
      else
        Choice(DecodeCondition(Get(fields, If)),
               if Then in fields then Decode(fields[Then]) else Literal(Null),
               if Else in fields then Decode(fields[Else]) else Literal(Null))
    case _ => Literal(v)
  }

  /** The tree of a whole expression, where a string is a path. */
  function DecodeTop(v: Value): Tree {
    if v.Text? then Lookup(v.s) else Decode(v)
  }

  lemma ConditionMeansTest(w: World, at: seq<Key>, condition: Value)
    requires ConditionErrors(w, at, condition) == []
    ensures condition.Object? && ConditionMatches(w, condition.fields) == Ok(Holds(w, DecodeCondition(condition)))
  {
  }

  lemma LeafMeansTree(w: World, at: seq<Key>, expr: Value, branchLiteral: bool)
    requires expr.Object? && Errors(w, at, expr, branchLiteral) == [] && If !in expr.fields
    ensures Evaluate(w, expr) == Ok(Denote(w, Decode(expr)))
  {
    NowIsTrue(w, at, expr, branchLiteral);
    OnlyKeyword(w, at, expr, branchLiteral, Path);
    OnlyKeyword(w, at, expr, branchLiteral, Template);
    assert MAPPING_KEYS[1] == Path && MAPPING_KEYS[2] == Template;
  }

  lemma OnlyIf(w: World, at: seq<Key>, expr: Value, branchLiteral: bool)
    requires expr.Object? && Errors(w, at, expr, branchLiteral) == [] && If in expr.fields
    ensures Const !in expr.fields && Path !in expr.fields && Template !in expr.fields && Now !in expr.fields
  {
    OnlyKeyword(w, at, expr, branchLiteral, If);
    OnlyKeyword(w, at, expr, branchLiteral, Const);
    OnlyKeyword(w, at, expr, branchLiteral, Path);
    OnlyKeyword(w, at, expr, branchLiteral, Template);
    OnlyKeyword(w, at, expr, branchLiteral, Now);
    var keys := MAPPING_KEYS;
    assert keys[0] == Const && keys[1] == Path && keys[2] == Template && keys[3] == If && keys[4] == Now;
  }

  lemma {:induction false} ObjectMeansTree(w: World, at: seq<Key>, expr: Value, branchLiteral: bool)
    requires expr.Object? && Errors(w, at, expr, branchLiteral) == []
    ensures Evaluate(w, expr) == Ok(Denote(w, Decode(expr)))
    decreases expr
  {
    if If in expr.fields {
      var fields := expr.fields;
      OnlyIf(w, at, expr, branchLiteral);
      ConditionalIsValid(w, at, expr, branchLiteral);
      ConditionMeansTest(w, at + [If], fields[If]);
      if fields[Then].Object? { ObjectMeansTree(w, at + [Then], fields[Then], true); }
      if Else in fields && fields[Else].Object? { ObjectMeansTree(w, at + [Else], fields[Else], true); }
    } else {
      LeafMeansTree(w, at, expr, branchLiteral);
    }
  }

  /** A validated expression evaluates to what its decision tree says, for every source; everything else in it is ignored. */
  lemma ValidatedExpressionsMeanTheirTree(w: World, at: seq<Key>, expr: Value)
    requires Errors(w, at, expr, false) == []
    ensures Evaluate(w, expr) == Ok(Denote(w, DecodeTop(expr)))
  {
    if expr.Object? { ObjectMeansTree(w, at, expr, false); }
  }

  function EncodeCondition(c: Condition): Value {
    var path := map[Path := Text(c.path)];
    Object(match c.test
           case ExistsTest(wanted) => path[Exists := Bool(wanted)]
           case EqualsTest(v) => path[Equals := v]
           case NotEqualsTest(v) => path[NotEquals := v]
           case InTest(options) => path[In := List(options)]
           case TruthyTest => path)
  }

  function Encode(t: Tree): Value {
    match t
    case Constant(value) => Object(map[Const := value])
    case Lookup(path) => Object(map[Path := Text(path)])
    case Rendered(text) => Object(map[Template := Text(text)])
    case Clock => Object(map[Now := Bool(true)])
    case Literal(value) => value
    case Choice(condition, yes, no) => Object(map[If := EncodeCondition(condition), Then := Encode(yes), Else := Encode(no)])
  }

  /** A tree that can be written down: condition paths are not blank and literals are no objects. */
  predicate Writable(w: World, t: Tree) {
    match t
    case Literal(value) => !value.Object?
    case Choice(condition, yes, no) => !Blank(w, condition.path) && Writable(w, yes) && Writable(w, no)
    case _ => true
  }

  lemma ConditionRoundTrip(w: World, at: seq<Key>, c: Condition)
    requires !Blank(w, c.path)
    ensures ConditionErrors(w, at, EncodeCondition(c)) == [] && DecodeCondition(EncodeCondition(c)) == c
  {
  }

  lemma OneKeyPresent(fields: map<Key, Value>, key: Key)
    requires key in MAPPING_KEYS && key in fields && forall k :: k in MAPPING_KEYS && k in fields ==> k == key
    ensures Present(fields, MAPPING_KEYS) == [key]
  {
    var keys: seq<Key> := MAPPING_KEYS;
    PresentOne(fields, keys, key);
  }

  lemma {:induction false} PresentOne(fields: map<Key, Value>, keys: seq<Key>, key: Key)
    requires key in fields && (forall k :: k in keys && k in fields ==> k == key)
    requires forall i, j :: 0 <= i < j < |keys| ==> keys[i] != keys[j]
    ensures Present(fields, keys) == if key in keys then [key] else []
  {
    if keys != [] {
      PresentOne(fields, keys[1..], key);
      assert keys == [keys[0]] + keys[1..];
    }
  }

  lemma ErrorsOfLeaf(w: World, at: seq<Key>, expr: Value, key: Key)
    requires expr.Object? && Present(expr.fields, MAPPING_KEYS) == [key] && key in expr.fields
    requires key == Const || ((key == Path || key == Template) && expr.fields[key].Text?) || (key == Now && expr.fields[key] == Bool(true))
    ensures Errors(w, at, expr, true) == []
  {
  }

  lemma ErrorsOfConditional(w: World, at: seq<Key>, expr: Value)
    requires expr.Object? && Present(expr.fields, MAPPING_KEYS) == [If]
    ensures Errors(w, at, expr, true) == BranchErrors(w, at, expr)
  {
  }

  lemma LeafIsValid(w: World, at: seq<Key>, t: Tree, key: Key, value: Value)
    requires Encode(t) == Object(map[key := value])
    requires key == Const || ((key == Path || key == Template) && value.Text?) || (key == Now && value == Bool(true))
    ensures Errors(w, at, Encode(t), true) == []
  {
    assert key in MAPPING_KEYS by {
      assert MAPPING_KEYS[0] == Const && MAPPING_KEYS[1] == Path && MAPPING_KEYS[2] == Template && MAPPING_KEYS[4] == Now;
    }
    OneKeyPresent(map[key := value], key);
    ErrorsOfLeaf(w, at, Encode(t), key);
  }

  lemma ChoiceKeys(condition: Condition, yes: Tree, no: Tree)
    ensures Present(Encode(Choice(condition, yes, no)).fields, MAPPING_KEYS) == [If]
  {
    assert MAPPING_KEYS[3] == If;
    OneKeyPresent(Encode(Choice(condition, yes, no)).fields, If);
  }

  lemma BranchesOf(w: World, at: seq<Key>, condition: Value, yes: Value, no: Value)
    ensures BranchErrors(w, at, Object(map[If := condition, Then := yes, Else := no]))
         == ConditionErrors(w, at + [If], condition) + Errors(w, at + [Then], yes, true) + Errors(w, at + [Else], no, true)
  {
  }

  lemma ChoiceBranches(w: World, at: seq<Key>, condition: Condition, yes: Tree, no: Tree)
    ensures BranchErrors(w, at, Encode(Choice(condition, yes, no)))
         == ConditionErrors(w, at + [If], EncodeCondition(condition))
            + Errors(w, at + [Then], Encode(yes), true) + Errors(w, at + [Else], Encode(no), true)
  {
    BranchesOf(w, at, EncodeCondition(condition), Encode(yes), Encode(no));
    assert Encode(Choice(condition, yes, no)) == Object(map[If := EncodeCondition(condition), Then := Encode(yes), Else := Encode(no)]);
  }

  /** Writing a tree down and reading it back gives the tree. */
  lemma {:induction false} DecodeAfterEncode(w: World, t: Tree)
    requires Writable(w, t)
    ensures Decode(Encode(t)) == t
    decreases t
  {
    if t.Choice? {
      ConditionRoundTrip(w, [], t.condition);
      DecodeAfterEncode(w, t.yes);
      DecodeAfterEncode(w, t.no);
    }
  }

  /** Validation accepts the whole language: every writable tree, written down, has no errors. */
  lemma {:induction false} EncodedTreesAreValid(w: World, at: seq<Key>, t: Tree)
    requires Writable(w, t)
    ensures Errors(w, at, Encode(t), true) == []
    decreases t
  {
    match t {
      case Constant(value) => LeafIsValid(w, at, t, Const, value);
      case Lookup(path) => LeafIsValid(w, at, t, Path, Text(path));
      case Rendered(text) => LeafIsValid(w, at, t, Template, Text(text));
      case Clock => LeafIsValid(w, at, t, Now, Bool(true));
      case Literal(value) =>
      case Choice(condition, yes, no) =>
        ConditionRoundTrip(w, at + [If], condition);
        EncodedTreesAreValid(w, at + [Then], yes);
        EncodedTreesAreValid(w, at + [Else], no);
        ChoiceKeys(condition, yes, no);
        ChoiceBranches(w, at, condition, yes, no);
        ErrorsOfConditional(w, at, Encode(t));
    }
  }

  // ---------------------------------------------------------------- which expressions always evaluate

  /** The same caller over another source. */
  function Over(w: World, resolve: string -> Resolved): World {
    w.(resolve := resolve)
  }

  function PathOf(w: World, condition: map<Key, Value>): string {
    var path := ConditionPath(condition);
    if path.Text? then path.s else w.str(path)
  }

  /** A condition on the value its path has, wherever that comes from. */
  function Decides(w: World, condition: map<Key, Value>, found: Resolved): Result<bool> {
    ConditionMatches(Over(w, (path: string) => found), condition)
  }

  /** Conditions that came out one way or the other, as on the way to a branch. */
  datatype Fact = Fact(condition: map<Key, Value>, outcome: bool)

  /** With this value of the path, all conditions on it come out as they did. */
  ghost predicate Fits(w: World, facts: seq<Fact>, path: string, found: Resolved) {
    forall i :: 0 <= i < |facts| && PathOf(w, facts[i].condition) == path ==>
      Decides(w, facts[i].condition, found) == Ok(facts[i].outcome)
  }

  /** The path of `f` can have such a value. */
  ghost predicate Possible(w: World, facts: seq<Fact>, f: Fact) {
    exists found :: Fits(w, facts, PathOf(w, f.condition), found)
  }

  ghost predicate AllPossible(w: World, facts: seq<Fact>) {
    forall f :: f in facts ==> Possible(w, facts, f)
  }

  /** No source that leads there meets an error: no broken part of the expression can be reached. Whether a branch can
      be reached is asked path by path, since conditions on one path depend on each other. */
  ghost predicate AlwaysEvaluates(w: World, expr: Value, facts: seq<Fact>)
    decreases expr
  {
    match expr
    case Object(fields) =>
      if Const in fields || Path in fields || Template in fields then true
      else if Now in fields then fields[Now] == Bool(true)
      else
        && If in fields && fields[If].Object?
        && Decides(w, fields[If].fields, Missing).Ok?
        && (Then in fields && fields[Then].Object? && AllPossible(w, facts + [Fact(fields[If].fields, true)]) ==>
              AlwaysEvaluates(w, fields[Then], facts + [Fact(fields[If].fields, true)]))
        && (Else in fields && fields[Else].Object? && AllPossible(w, facts + [Fact(fields[If].fields, false)]) ==>
              AlwaysEvaluates(w, fields[Else], facts + [Fact(fields[If].fields, false)]))
    case _ => true
  }

  /** The source leads through these conditions. */
  ghost predicate Leads(w: World, resolve: string -> Resolved, facts: seq<Fact>) {
    forall i :: 0 <= i < |facts| ==> ConditionMatches(Over(w, resolve), facts[i].condition) == Ok(facts[i].outcome)
  }

  /** Only the value of its path matters to a condition, and whether it can be decided not even that. */
  lemma ConditionIsLocal(w: World, resolve: string -> Resolved, condition: map<Key, Value>)
    ensures ConditionMatches(Over(w, resolve), condition) == Decides(w, condition, resolve(PathOf(w, condition)))
    ensures forall found :: Decides(w, condition, found).Ok? == Decides(w, condition, Missing).Ok?
  {
  }

  ghost function ValueFor(w: World, facts: seq<Fact>, path: string): Resolved {
    if found :| Fits(w, facts, path, found) then found else Missing
  }

  /** Possible path by path means possible for one source. */
  lemma SourceExists(w: World, facts: seq<Fact>) returns (resolve: string -> Resolved)
    requires AllPossible(w, facts)
    ensures Leads(w, resolve, facts)
  {
    resolve := (path: string) => ValueFor(w, facts, path);
    forall i | 0 <= i < |facts| ensures ConditionMatches(Over(w, resolve), facts[i].condition) == Ok(facts[i].outcome) {
      assert Possible(w, facts, facts[i]);
      ConditionIsLocal(w, resolve, facts[i].condition);
    }
  }

  lemma LeadingIsPossible(w: World, resolve: string -> Resolved, facts: seq<Fact>)
    requires Leads(w, resolve, facts)
    ensures AllPossible(w, facts)
  {
    forall f | f in facts ensures Possible(w, facts, f) {
      var path := PathOf(w, f.condition);
      assert Fits(w, facts, path, resolve(path)) by {
        forall i | 0 <= i < |facts| && PathOf(w, facts[i].condition) == path
          ensures Decides(w, facts[i].condition, resolve(path)) == Ok(facts[i].outcome)
        {
          ConditionIsLocal(w, resolve, facts[i].condition);
        }
      }
    }
  }

  lemma {:induction false} AlwaysIsSound(w: World, expr: Value, facts: seq<Fact>, resolve: string -> Resolved)
    requires AlwaysEvaluates(w, expr, facts) && Leads(w, resolve, facts)
    ensures Evaluate(Over(w, resolve), expr).Ok?
    decreases expr
  {
    if expr.Object? && If in expr.fields && expr.fields[If].Object? {
      var fields := expr.fields;
      var condition := fields[If].fields;
      var outcome := ConditionMatches(Over(w, resolve), condition);
      ConditionIsLocal(w, resolve, condition);
      if outcome.Ok? && !(Const in fields || Path in fields || Template in fields || Now in fields) {
        var facts' := facts + [Fact(condition, outcome.value)];
        assert Leads(w, resolve, facts');
        LeadingIsPossible(w, resolve, facts');
        var branch := if outcome.value then Then else Else;
        if branch in fields && fields[branch].Object? { AlwaysIsSound(w, fields[branch], facts', resolve); }
      }
    }
  }

  lemma {:induction false} NotAlwaysFails(w: World, expr: Value, facts: seq<Fact>) returns (resolve: string -> Resolved)
    requires !AlwaysEvaluates(w, expr, facts) && AllPossible(w, facts)
    ensures Leads(w, resolve, facts) && Evaluate(Over(w, resolve), expr).Error?
    decreases expr
  {
    resolve := SourceExists(w, facts);
    var fields := expr.fields;
    if Now !in fields && If in fields && fields[If].Object? && Decides(w, fields[If].fields, Missing).Ok? {
      var condition := fields[If].fields;
      var yes, no := facts + [Fact(condition, true)], facts + [Fact(condition, false)];
      if Then in fields && fields[Then].Object? && AllPossible(w, yes) && !AlwaysEvaluates(w, fields[Then], yes) {
        resolve := NotAlwaysFails(w, fields[Then], yes);
        assert yes[|facts|] == Fact(condition, true) && forall i :: 0 <= i < |facts| ==> yes[i] == facts[i];
      } else {
        resolve := NotAlwaysFails(w, fields[Else], no);
        assert no[|facts|] == Fact(condition, false) && forall i :: 0 <= i < |facts| ==> no[i] == facts[i];
      }
    } else if If in fields && fields[If].Object? {
      ConditionIsLocal(w, resolve, fields[If].fields);
    }
  }

  /** An expression, validated or not, evaluates without a mapping error for every source exactly when no broken part
      of it can be reached. */
  lemma EvaluatesForEverySourceExactly(w: World, expr: Value)
    ensures (forall resolve :: Evaluate(Over(w, resolve), expr).Ok?) <==> AlwaysEvaluates(w, expr, [])
  {
    if AlwaysEvaluates(w, expr, []) {
      forall resolve ensures Evaluate(Over(w, resolve), expr).Ok? { AlwaysIsSound(w, expr, [], resolve); }
    } else {
      var resolve := NotAlwaysFails(w, expr, []);
      assert Evaluate(Over(w, resolve), expr).Error?;
    }
  }

  /** Validation is stricter than evaluation: two keywords are refused, yet the first one in the evaluator's
      order would be used. */
  lemma RejectedMayEvaluate(w: World, at: seq<Key>, value: Value, path: string)
    ensures var expr := Object(map[Const := value, Path := Text(path)]);
            Errors(w, at, expr, false) != [] && Evaluate(w, expr) == Ok(Found(value))
  {
    var fields := map[Const := value, Path := Text(path)];
    PresentExactly(fields, MAPPING_KEYS, Const);
    PresentExactly(fields, MAPPING_KEYS, Path);
    assert MAPPING_KEYS[0] == Const && MAPPING_KEYS[1] == Path;
  }

  // ---------------------------------------------------------------- negation

  /** The opposite of a condition that asks for existence or equality. */
  function Negated(condition: map<Key, Value>): map<Key, Value>
    requires Exists in condition || Equals in condition || NotEquals in condition
  {
    if Exists in condition then condition[Exists := Bool(!Truthy(condition[Exists]))]
    else if Equals in condition then (condition - {Equals})[NotEquals := condition[Equals]]
    else (condition - {NotEquals})[Equals := condition[NotEquals]]
  }

  /** The branches changed over, one that is absent staying absent. */
  function Swapped(fields: map<Key, Value>): map<Key, Value> {
    (fields - {Then, Else})
    + (if Else in fields then map[Then := fields[Else]] else map[])
    + (if Then in fields then map[Else := fields[Then]] else map[])
  }

  lemma NegatedMatchesOpposite(w: World, condition: map<Key, Value>)
    requires Exists in condition || Equals in condition || NotEquals in condition
    ensures var before, after := ConditionMatches(w, condition), ConditionMatches(w, Negated(condition));
            if before.Ok? then after == Ok(!before.value) else after == before
  {
  }

  /** Negating the condition and swapping the branches changes nothing, for every source and any branches. */
  lemma NegationSwapsBranches(w: World, fields: map<Key, Value>)
    requires If in fields && fields[If].Object?
    requires var c := fields[If].fields; Exists in c || Equals in c || NotEquals in c
    requires Const !in fields && Path !in fields && Template !in fields && Now !in fields
    ensures Evaluate(w, Object(Swapped(fields)[If := Object(Negated(fields[If].fields))])) == Evaluate(w, Object(fields))
  {
    var c := fields[If].fields;
    var swapped := Swapped(fields)[If := Object(Negated(c))];
    NegatedMatchesOpposite(w, c);
    assert Then in swapped <==> Else in fields;
    assert Else in swapped <==> Then in fields;
    assert Else in fields ==> swapped[Then] == fields[Else];
    assert Then in fields ==> swapped[Else] == fields[Then];
  }

  // ---------------------------------------------------------------- the validator

  /** The errors of a condition, appended to those found so far. */
  method CollectConditionErrors(w: World, at: seq<Key>, condition: Value, errors: seq<Diagnostic>) returns (errors': seq<Diagnostic>)
    ensures errors' == errors + ConditionErrors(w, at, condition)
  {
    errors' := errors;
    if !condition.Object? { return errors + [Diagnostic(at, ConditionNotObject)]; }
    var fields := condition.fields;
    var path := ConditionPath(fields);
    if !path.Text? || Blank(w, path.s) { errors' := errors' + [Diagnostic(at, ConditionWithoutPath)]; }
    if In in fields && !fields[In].List? { errors' := errors' + [Diagnostic(at, InNotList)]; }
    if Exists in fields && !fields[Exists].Bool? { errors' := errors' + [Diagnostic(at, ExistsNotBoolean)]; }
  }

  /** A conditional: its condition, then its branches. */
  method CollectBranchErrors(w: World, at: seq<Key>, expr: Value, errors: seq<Diagnostic>) returns (errors': seq<Diagnostic>)
    requires expr.Object?
    ensures errors' == errors + BranchErrors(w, at, expr)
    decreases expr, 0
  {
    var fields := expr.fields;
    ghost var condition := ConditionErrors(w, at + [If], Get(fields, If));
    ghost var thenErrors := if Then in fields then Errors(w, at + [Then], fields[Then], true) else [Diagnostic(at, ThenMissing)];
    ghost var elseErrors := if Else in fields then Errors(w, at + [Else], fields[Else], true) else [];
    errors' := CollectConditionErrors(w, at + [If], Get(fields, If), errors);
    if Then !in fields {
      errors' := errors' + [Diagnostic(at, ThenMissing)];
    } else {
      errors' := CollectExpressionErrors(w, at + [Then], fields[Then], true, errors');
    }
    if Else in fields { errors' := CollectExpressionErrors(w, at + [Else], fields[Else], true, errors'); }
    AppendedInTurn(errors, condition, thenErrors, elseErrors);
  }

  lemma AppendedInTurn(errors: seq<Diagnostic>, a: seq<Diagnostic>, b: seq<Diagnostic>, c: seq<Diagnostic>)
    ensures errors + a + b + c == errors + (a + b + c)
    ensures c == [] ==> errors + a + b == errors + (a + b + c)
  {
  }

  method CollectExpressionErrors(w: World, at: seq<Key>, expr: Value, branchLiteral: bool, errors: seq<Diagnostic>)
    returns (errors': seq<Diagnostic>)
    ensures errors' == errors + Errors(w, at, expr, branchLiteral)
    decreases expr, 1
  {
    errors' := errors;
    match expr {
      case Object(fields) =>
        var present := Present(fields, MAPPING_KEYS);
        if present == [] { return errors + [Diagnostic(at, NoKeyword)]; }
        if |present| > 1 { return errors + [Diagnostic(at, SeveralKeywords)]; }
        var key := present[0];
        if key == Path && !Get(fields, Path).Text? {
          errors' := errors' + [Diagnostic(at, PathNotString)];
        } else if key == Template && !Get(fields, Template).Text? {
          errors' := errors' + [Diagnostic(at, TemplateNotString)];
        } else if key == Now && Get(fields, Now) != Bool(true) {
          errors' := errors' + [Diagnostic(at, NowNotTrue)];
        } else if key == If {
          errors' := CollectBranchErrors(w, at, expr, errors');
        }
      case Null =>
      case Text(s) =>
        if !branchLiteral && Blank(w, s) { errors' := errors' + [Diagnostic(at, EmptyPath)]; }
      case _ =>
        if !branchLiteral { errors' := errors' + [Diagnostic(at, NotAnExpression)]; }
    }
  }

  /** Validation passes or reports; what passes can be evaluated against any source. */
  method ValidateMappingExpression(w: World, at: seq<Key>, expr: Value, branchLiteral: bool) returns (errors: seq<Diagnostic>)
    ensures errors == Errors(w, at, expr, branchLiteral)
    ensures errors == [] ==> Evaluate(w, expr).Ok?
    ensures forall d :: d in errors ==> at <= d.at
  {
    errors := CollectExpressionErrors(w, at, expr, branchLiteral, []);
    ErrorsAreLocated(w, at, expr, branchLiteral);
    if errors == [] { ValidatedExpressionsEvaluate(w, at, expr, branchLiteral); }
  }
}
