/** Variable extraction (`Function::extract_vars`): from the token list of a
    parsed expression, the sorted, duplicate-free names of its variables other
    than the plot variable `x`, each paired with the default value 1.0. */
module Extraction {
  import opened Names

  /** A token of a parsed expression. Only variable references matter here;
      numbers, operators, parentheses and function calls are all `Other`. */
  datatype Token = Var(name: string) | Other

  /** A parsed expression, seen through its token list (`Expr::to_vec`). */
  type Expr = seq<Token>

  /** The variable every curve is plotted against. */
  const PlotVariable: string := "x"

  /** DEFAULT_VALUE_PARAMETER (the example program writes the literal 1.0). */
  const DefaultValue: real := 1.0

  /** Every variable an expression references, each once. */
  ghost function Variables(e: Expr): set<string>
  {
    set t | t in e && t.Var? :: t.name
  }

  /** The extra variables of an expression: every variable it references
      except the plot variable. */
  ghost function ExtraVars(e: Expr): set<string>
  {
    Variables(e) - {PlotVariable}
  }

  /** The names extraction must produce: the extra variables in ascending order. */
  ghost function ExtractedNames(e: Expr): seq<string>
  {
    SortedListOf(ExtraVars(e))
  }

  /** `n` default values, one per extracted name. */
  function Defaults(n: nat): seq<real>
  {
    seq(n, _ => DefaultValue)
  }

  /** The `filter_map` step: the names of the `Var` tokens, in token order. */
  function VarNames(e: Expr): seq<string>
  {
    if e == [] then []
    else if e[|e| - 1].Var? then VarNames(e[..|e| - 1]) + [e[|e| - 1].name]
    else VarNames(e[..|e| - 1])
  }

  /** The `retain` step: every occurrence of the plot variable dropped. */
  function WithoutPlotVariable(s: seq<string>): seq<string>
  {
    if s == [] then []
    else if s[|s| - 1] == PlotVariable then WithoutPlotVariable(s[..|s| - 1])
    else WithoutPlotVariable(s[..|s| - 1]) + [s[|s| - 1]]
  }

  lemma {:induction false} VarNamesElems(e: Expr)
    ensures Elems(VarNames(e)) == Variables(e)
    decreases |e|
  {
    if e != [] {
      var p := e[..|e| - 1];
      VarNamesElems(p);
      assert e == p + [e[|e| - 1]];
      assert Variables(e) == Variables(p) + (if e[|e| - 1].Var? then {e[|e| - 1].name} else {});
    }
  }

  lemma {:induction false} WithoutPlotVariableElems(s: seq<string>)
    ensures Elems(WithoutPlotVariable(s)) == Elems(s) - {PlotVariable}
    decreases |s|
  {
    if s != [] {
      var p := s[..|s| - 1];
      WithoutPlotVariableElems(p);
      assert s == p + [s[|s| - 1]];
      assert Elems(s) == Elems(p) + {s[|s| - 1]};
      if s[|s| - 1] != PlotVariable {
        var w := WithoutPlotVariable(p);
        assert WithoutPlotVariable(s) == w + [s[|s| - 1]];
        assert Elems(w + [s[|s| - 1]]) == Elems(w) + {s[|s| - 1]};
      }
    }
  }

  /** The names extraction produces are ascending with no repetition, never
      hold the plot variable, and are exactly the other variables the
      expression references. */
  lemma ExtractedNamesSpec(e: Expr)
    ensures StrictlySorted(ExtractedNames(e)) && PlotVariable !in ExtractedNames(e)
    ensures forall n :: n in ExtractedNames(e) <==> Var(n) in e && n != PlotVariable
    ensures |ExtractedNames(e)| == |ExtraVars(e)|
  {
    SortedListOfSpec(ExtraVars(e));
    forall n
      ensures n in ExtractedNames(e) <==> Var(n) in e && n != PlotVariable
    {
      assert n in ExtractedNames(e) <==> n in ExtraVars(e);
      if Var(n) in e && n != PlotVariable {
        assert n in Variables(e);
      }
    }
  }

  /** A strictly ascending list of exactly the extra variables is the list
      extraction produces. */
  lemma ExtractedNamesAre(e: Expr, s: seq<string>)
    requires StrictlySorted(s) && Elems(s) == ExtraVars(e)
    ensures ExtractedNames(e) == s
  {
    SortedListOfSpec(ExtraVars(e));
    StrictlySortedDetermined(ExtractedNames(e), s);
  }

  /** `extract_vars`: collect the `Var` names, drop `x`, sort, dedup, and pair
      each remaining name with the default value. */
  method ExtractVars(parsed: Expr) returns (names: seq<string>, values: seq<real>)
    ensures names == ExtractedNames(parsed)
    ensures values == Defaults(|names|)
  {
    var all: seq<string> := [];
    for i := 0 to |parsed|
      invariant all == VarNames(parsed[..i])
    {
      assert parsed[..i + 1][..i] == parsed[..i];
      if parsed[i].Var? {
        all := all + [parsed[i].name];
      }
    }
    assert parsed[..|parsed|] == parsed;

    var kept: seq<string> := [];
    for i := 0 to |all|
      invariant kept == WithoutPlotVariable(all[..i])
    {
      assert all[..i + 1][..i] == all[..i];
      if all[i] != PlotVariable {
        kept := kept + [all[i]];
      }
    }
    assert all[..|all|] == all;

    names := SortAndDedup(kept);

    values := [];
    for i := 0 to |names|
      invariant values == Defaults(i)
    {
      values := values + [DefaultValue];
    }

    VarNamesElems(parsed);
    WithoutPlotVariableElems(all);
    assert Elems(kept) == ExtraVars(parsed);
  }

  /** The repetition and order of variables in the expression do not matter:
      two expressions with the same extra variables extract the same names. */
  lemma ExtractionDependsOnlyOnVariables(e: Expr, e': Expr)
    requires forall n :: n != PlotVariable ==> (Var(n) in e <==> Var(n) in e')
    ensures ExtractedNames(e) == ExtractedNames(e')
  {
    forall n
      ensures n in ExtraVars(e) <==> n in ExtraVars(e')
    {
      if n in ExtraVars(e) {
        var t :| t in e && t.Var? && t.name == n;
        assert Var(n) in e';
      }
      if n in ExtraVars(e') {
        var t :| t in e' && t.Var? && t.name == n;
        assert Var(n) in e;
      }
    }
    assert ExtraVars(e) == ExtraVars(e');
  }
}
