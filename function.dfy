/** The `Function` record: a named expression, its parse, and two
    index-aligned vectors holding the extra variables' names and their current
    values. The same record appears three times in the program (the plotting
    app, the first application, the command-line example) with the same
    operations; `Reparse` exists only in the plotting app. */
module Functions {
  import opened Wrappers
  import opened Names
  import opened Extraction

  /** A binding environment in bind order: names paired with values. */
  type Env = seq<(string, real)>

  /** The outcome of `Function::eval`. */
  datatype EvalOutcome =
    | Value(y: real)
      /** `bind`..`bind5` reported an error, and `unwrap` panics. */
    | BindFailed
      /** More extra variables than the dispatch has an arm for: the `_` arm panics. */
    | TooManyParameters

  /** The largest number of extra variables `eval` can bind (`bind5` takes x and four more). */
  const MaxExtraVariables: nat := 4

  /** The evaluator's answer as an outcome: an error from binding is a panic. */
  function Bound(result: Option<real>): EvalOutcome
  {
    match result
    case Some(y) => Value(y)
    case None => BindFailed
  }

  /** The environment a generalized binder would build: `x` first, then each
      name with the value at the same index. */
  function Binding(x: real, names: seq<string>, values: seq<real>): Env
    requires |names| <= |values|
  {
    [(PlotVariable, x)] + seq(|names|, k requires 0 <= k < |names| => (names[k], values[k]))
  }

  /** `iter().position`: the first index holding `target`, if any. */
  method Position(names: seq<string>, target: string) returns (index: Option<nat>)
    ensures index.Some? <==> target in names
    ensures index.Some? ==> index.value < |names| && names[index.value] == target
    ensures index.Some? ==> target !in names[..index.value]
  {
    index := None;
    var i := 0;
    while i < |names|
      invariant 0 <= i <= |names|
      invariant target !in names[..i]
    {
      if names[i] == target {
        index := Some(i);
        return;
      }
      assert names[..i + 1] == names[..i] + [names[i]];
      i := i + 1;
    }
    assert names[..i] == names;
  }

  class Function {
    var name: string
    var expression: string
    /** The parse of `expression` as of construction or the last `Reparse`. */
    var parsedExpression: Expr
    var varsNames: seq<string>
    var varsValues: seq<real>

    /** The names are those extraction gives for the parse, and each has a value. */
    ghost predicate Valid()
      reads this
    {
      varsNames == ExtractedNames(parsedExpression) && |varsValues| == |varsNames|
    }

    /** `Function::new`: parse the text, extract its variables, default their values. */
    constructor (expression: string, name: string, parse: string -> Option<Expr>)
      requires parse(expression).Some?
      ensures Valid()
      ensures this.name == name && this.expression == expression
      ensures parsedExpression == parse(expression).value
      ensures StrictlySorted(varsNames) && Elems(varsNames) == ExtraVars(parsedExpression)
      ensures forall k :: 0 <= k < |varsValues| ==> varsValues[k] == DefaultValue
    {
      var parsed := parse(expression).value;
      var names, values := ExtractVars(parsed);
      this.name := name;
      this.expression := expression;
      parsedExpression := parsed;
      varsNames := names;
      varsValues := values;
      SortedListOfSpec(ExtraVars(parsed));
    }

    /** `assign_value_to_var`: the slot of the named variable takes the value;
        an unknown name changes nothing. */
    method AssignValueToVar(varName: string, value: real)
      requires Valid()
      modifies this
      ensures Valid()
      ensures name == old(name) && expression == old(expression)
      ensures parsedExpression == old(parsedExpression) && varsNames == old(varsNames)
      ensures |varsValues| == old(|varsValues|)
      ensures forall k :: 0 <= k < |varsValues| ==>
                varsValues[k] == if varsNames[k] == varName then value else old(varsValues[k])
      ensures varName !in varsNames ==> varsValues == old(varsValues)
    {
      var index := Position(varsNames, varName);
      match index {
        case Some(i) =>
          SortedListOfSpec(ExtraVars(parsedExpression));
          forall k | i < k < |varsNames|
            ensures varsNames[k] != varName
          {
            if varsNames[k] == varName {
              BelowIrreflexive(varName);
            }
          }
          varsValues := varsValues[i := value];
        case None =>
      }
    }

    /** `reparse`: parse the stored text again and replace both vectors with a
        fresh extraction, so every value returns to the default, even for
        names that were there before. A text that does not parse makes the
        source panic before any field is written. */
    method Reparse(parse: string -> Option<Expr>) returns (ok: bool)
      modifies this
      ensures ok == parse(expression).Some?
      ensures name == old(name) && expression == old(expression)
      ensures ok ==> Valid() && parsedExpression == parse(expression).value
      ensures ok ==> forall k :: 0 <= k < |varsValues| ==> varsValues[k] == DefaultValue
      ensures !ok ==> unchanged(this)
    {
      ok := parse(expression).Some?;
      if ok {
        parsedExpression := parse(expression).value;
        var names, values := ExtractVars(parsedExpression);
        varsNames := names;
        varsValues := values;
      }
    }

    /** `eval`: one arm per arity binds `x` and then the names in stored order
        with the values at the same indices; five or more names panic. */
    function Eval(x: real, evaluate: (Expr, Env) -> Option<real>): (r: EvalOutcome)
      reads this
      requires |varsNames| <= |varsValues|
      ensures r.TooManyParameters? <==> |varsNames| > MaxExtraVariables
      ensures |varsNames| <= MaxExtraVariables ==>
                r == Bound(evaluate(parsedExpression, Binding(x, varsNames, varsValues)))
    {
      var e := parsedExpression;
      var env := Binding(x, varsNames, varsValues);
      match |varsNames|
      case 0 =>
        assert env == [(PlotVariable, x)];
        Bound(evaluate(e, [(PlotVariable, x)]))
      case 1 =>
        assert env == [(PlotVariable, x), (varsNames[0], varsValues[0])];
        Bound(evaluate(e, [(PlotVariable, x), (varsNames[0], varsValues[0])]))
      case 2 =>
        assert env == [(PlotVariable, x), (varsNames[0], varsValues[0]),
                       (varsNames[1], varsValues[1])];
        Bound(evaluate(e, [(PlotVariable, x), (varsNames[0], varsValues[0]),
                           (varsNames[1], varsValues[1])]))
      case 3 =>
        assert env == [(PlotVariable, x), (varsNames[0], varsValues[0]),
                       (varsNames[1], varsValues[1]), (varsNames[2], varsValues[2])];
        Bound(evaluate(e, [(PlotVariable, x), (varsNames[0], varsValues[0]),
                           (varsNames[1], varsValues[1]), (varsNames[2], varsValues[2])]))
      case 4 =>
        assert env == [(PlotVariable, x), (varsNames[0], varsValues[0]),
                       (varsNames[1], varsValues[1]), (varsNames[2], varsValues[2]),
                       (varsNames[3], varsValues[3])];
        Bound(evaluate(e, [(PlotVariable, x), (varsNames[0], varsValues[0]),
                           (varsNames[1], varsValues[1]), (varsNames[2], varsValues[2]),
                           (varsNames[3], varsValues[3])]))
      case _ =>
        TooManyParameters
    }
  }

  /** The command-line example: evaluate `a^x+1+sin(x)` with `a` bound first
      to 1.0 and `x` second to 2.0; then build `a^x+1` as a `Function`,
      evaluate it at 1.0, set `a` to 2.0, and evaluate again. The tokenizer is
      assumed to report exactly `a` and `x` for `a^x+1`. */
  method MevalExample(parse: string -> Option<Expr>, evaluate: (Expr, Env) -> Option<real>)
    returns (direct: EvalOutcome, names: seq<string>, before: seq<real>, first: EvalOutcome,
             namesAfter: seq<string>, after: seq<real>, second: EvalOutcome)
    requires parse("a^x+1+sin(x)").Some?
    requires parse("a^x+1").Some? && Variables(parse("a^x+1").value) == {"a", "x"}
    ensures direct == Bound(evaluate(parse("a^x+1+sin(x)").value, [("a", 1.0), ("x", 2.0)]))
    ensures names == namesAfter == ["a"]
    ensures before == [1.0] && after == [2.0]
    ensures first == Bound(evaluate(parse("a^x+1").value, [("x", 1.0), ("a", 1.0)]))
    ensures second == Bound(evaluate(parse("a^x+1").value, [("x", 1.0), ("a", 2.0)]))
  {
    direct := Bound(evaluate(parse("a^x+1+sin(x)").value, [("a", 1.0), ("x", 2.0)]));
    var f := new Function("a^x+1", "test", parse);
    assert ExtraVars(f.parsedExpression) == {"a"};
    assert Elems(["a"]) == {"a"};
    SortedListOfUnique(["a"]);
    names, before := f.varsNames, f.varsValues;
    first := f.Eval(1.0, evaluate);
    assert Binding(1.0, names, before) == [("x", 1.0), ("a", 1.0)];
    f.AssignValueToVar("a", 2.0);
    namesAfter, after := f.varsNames, f.varsValues;
    second := f.Eval(1.0, evaluate);
    assert Binding(1.0, namesAfter, after) == [("x", 1.0), ("a", 2.0)];
  }
}
