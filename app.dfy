/** The application state: the functions on the plot and the parameter
    registry, three vectors kept side by side (names, values and limits).
    `PlottingApp` in the plotting app and `MyApp` in the first application
    hold the same fields and share their rebuild; where their event handlers
    differ, each has its own member here. */
module Plotting {
  import opened Wrappers
  import opened Names
  import opened Extraction
  import opened Functions

  /** The `(min, max)` pair a parameter's slider is clamped to. */
  type Limit = (real, real)

  /** DEFAULT_PARAMETERS_LIMIT. */
  const DefaultLimit: Limit := (-10.0, 10.0)

  function DefaultLimits(n: nat): seq<Limit>
  {
    seq(n, _ => DefaultLimit)
  }

  // ----- the rebuild, as functions of the old registry and the parses -----

  /** What the rebuild's loop appends to the names: every expression's
      extracted names, one expression after another, duplicates kept. */
  ghost function AppendedNames(exprs: seq<Expr>): seq<string>
  {
    if exprs == [] then []
    else AppendedNames(exprs[..|exprs| - 1]) + ExtractedNames(exprs[|exprs| - 1])
  }

  /** Every extra variable of any of the expressions. */
  ghost function AllExtraVars(exprs: seq<Expr>): set<string>
  {
    if exprs == [] then {}
    else AllExtraVars(exprs[..|exprs| - 1]) + ExtraVars(exprs[|exprs| - 1])
  }

  /** How many values the rebuild appends: one per extra variable per expression. */
  ghost function AppendedCount(exprs: seq<Expr>): nat
  {
    if exprs == [] then 0
    else AppendedCount(exprs[..|exprs| - 1]) + |ExtraVars(exprs[|exprs| - 1])|
  }

  /** The names after a rebuild: the old names and the appended ones, sorted
      and deduplicated. */
  ghost function RebuiltNames(names: seq<string>, exprs: seq<Expr>): seq<string>
  {
    SortedListOf(Elems(names + AppendedNames(exprs)))
  }

  /** The values after a rebuild: the old values followed by a default for
      every appended name, with no deduplication. */
  ghost function RebuiltValues(values: seq<real>, exprs: seq<Expr>): seq<real>
  {
    values + Defaults(|AppendedNames(exprs)|)
  }

  /** The limits after a rebuild: one default pair more per function. */
  function RebuiltLimits(limits: seq<Limit>, functionCount: nat): seq<Limit>
  {
    limits + DefaultLimits(functionCount)
  }

  lemma {:induction false} AppendedNamesSpec(exprs: seq<Expr>)
    ensures Elems(AppendedNames(exprs)) == AllExtraVars(exprs)
    ensures |AppendedNames(exprs)| == AppendedCount(exprs)
    decreases |exprs|
  {
    if exprs != [] {
      var p := exprs[..|exprs| - 1];
      var last := exprs[|exprs| - 1];
      AppendedNamesSpec(p);
      SortedListOfSpec(ExtraVars(last));
      var a := AppendedNames(p);
      var b := ExtractedNames(last);
      assert Elems(a + b) == Elems(a) + Elems(b);
    }
  }

  /** The rebuilt names are sorted, hold no repetition, and are exactly the
      old names together with every function's extra variables: no old name
      is ever dropped. */
  lemma RebuildNamesSpec(names: seq<string>, exprs: seq<Expr>)
    ensures StrictlySorted(RebuiltNames(names, exprs))
    ensures Elems(RebuiltNames(names, exprs)) == Elems(names) + AllExtraVars(exprs)
  {
    AppendedNamesSpec(exprs);
    var a := AppendedNames(exprs);
    assert Elems(names + a) == Elems(names) + Elems(a);
    SortedListOfSpec(Elems(names + a));
  }

  /** The rebuilt values are the old values, then one default per extra
      variable per function, duplicates across functions included. */
  lemma RebuildValuesSpec(values: seq<real>, exprs: seq<Expr>)
    ensures |RebuiltValues(values, exprs)| == |values| + AppendedCount(exprs)
    ensures RebuiltValues(values, exprs)[..|values|] == values
    ensures forall k :: |values| <= k < |RebuiltValues(values, exprs)| ==>
              RebuiltValues(values, exprs)[k] == DefaultValue
  {
    AppendedNamesSpec(exprs);
  }

  /** A rebuild never leaves fewer values than names, so removing a parameter
      by the index of its name always finds a value to remove. */
  lemma {:induction false} RebuildKeepsValuesCoveringNames(names: seq<string>, values: seq<real>, exprs: seq<Expr>)
    requires |names| <= |values|
    ensures |RebuiltNames(names, exprs)| <= |RebuiltValues(values, exprs)|
  {
    var a := AppendedNames(exprs);
    SortedListOfSpec(Elems(names + a));
    ElemsBound(names + a);
  }

  /** Rebuilding twice does not change the names again, but appends every
      default value a second time: the rebuild is not idempotent. */
  lemma RebuildTwice(names: seq<string>, values: seq<real>, exprs: seq<Expr>)
    ensures RebuiltNames(RebuiltNames(names, exprs), exprs) == RebuiltNames(names, exprs)
    ensures |RebuiltValues(RebuiltValues(values, exprs), exprs)|
            == |values| + 2 * AppendedCount(exprs)
  {
    var once := RebuiltNames(names, exprs);
    RebuildNamesSpec(names, exprs);
    RebuildNamesSpec(once, exprs);
    StrictlySortedDetermined(RebuiltNames(once, exprs), once);
    RebuildValuesSpec(values, exprs);
    RebuildValuesSpec(RebuiltValues(values, exprs), exprs);
  }

  /** A strictly sorted sequence holding the old names and every extra
      variable is what the rebuild leaves. */
  lemma RebuiltNamesAre(names: seq<string>, exprs: seq<Expr>, s: seq<string>)
    requires StrictlySorted(s) && Elems(s) == Elems(names) + AllExtraVars(exprs)
    ensures RebuiltNames(names, exprs) == s
  {
    RebuildNamesSpec(names, exprs);
    StrictlySortedDetermined(RebuiltNames(names, exprs), s);
  }

  /** The rebuild appends exactly `n` defaults when the functions have `n`
      extra variables between them. */
  lemma RebuiltValuesAre(values: seq<real>, exprs: seq<Expr>, n: nat)
    requires AppendedCount(exprs) == n
    ensures RebuiltValues(values, exprs) == values + Defaults(n)
  {
    AppendedNamesSpec(exprs);
  }

  lemma TwoExpressions(e1: Expr, e2: Expr)
    ensures AllExtraVars([e1, e2]) == ExtraVars(e1) + ExtraVars(e2)
    ensures AppendedCount([e1, e2]) == |ExtraVars(e1)| + |ExtraVars(e2)|
  {
    assert [e1, e2][..1] == [e1] && [e1][..0] == [];
    assert AllExtraVars([e1]) == ExtraVars(e1);
    assert AppendedCount([e1]) == |ExtraVars(e1)|;
  }

  /** A single function with two extra variables, rebuilt into an empty
      registry, leaves two names and only one limit. */
  lemma LimitsCanLagNames(e: Expr)
    requires ExtraVars(e) == {"a", "b"}
    ensures RebuiltNames([], [e]) == ["a", "b"]
    ensures |RebuiltLimits([], 1)| == 1
  {
    assert [e][..0] == [];
    assert AllExtraVars([e]) == {"a", "b"};
    assert Elems(["a", "b"]) == {"a", "b"};
    RebuiltNamesAre([], [e], ["a", "b"]);
  }

  /** A name that survives a rebuild can lose its value. In the plotting
      app's start state with `b` set to `v`, adding a function that uses
      `aa` puts `aa` between `a` and `b` in the names, while the values only
      grow at the end: the row of `aa` now holds `v` and the row of `b`
      holds 1.0. */
  lemma RebuildShiftsValues(e1: Expr, e2: Expr, e3: Expr, v: real)
    requires ExtraVars(e1) == {"a", "b"} && ExtraVars(e2) == {"a", "b"} && ExtraVars(e3) == {"aa"}
    ensures RebuiltNames(["a", "b"], [e1, e2, e3]) == ["a", "aa", "b"]
    ensures RebuiltValues([1.0, v, 1.0, 1.0], [e1, e2, e3])[1] == v
    ensures RebuiltValues([1.0, v, 1.0, 1.0], [e1, e2, e3])[2] == 1.0
  {
    RebuildInsertsName(e1, e2, e3);
    RebuildValuesSpec([1.0, v, 1.0, 1.0], [e1, e2, e3]);
  }

  /** The names of `RebuildShiftsValues`. */
  lemma RebuildInsertsName(e1: Expr, e2: Expr, e3: Expr)
    requires ExtraVars(e1) == {"a", "b"} && ExtraVars(e2) == {"a", "b"} && ExtraVars(e3) == {"aa"}
    ensures RebuiltNames(["a", "b"], [e1, e2, e3]) == ["a", "aa", "b"]
  {
    var exprs := [e1, e2, e3];
    assert AllExtraVars(exprs) == {"a", "b", "aa"} by {
      ThreeExpressions(e1, e2, e3);
      TwoExpressions(e1, e2);
    }
    InsertedNameSorted();
    assert Elems(["a", "aa", "b"]) == {"a", "b", "aa"};
    assert Elems(["a", "b"]) == {"a", "b"};
    RebuiltNamesAre(["a", "b"], exprs, ["a", "aa", "b"]);
  }

  lemma ThreeExpressions(e1: Expr, e2: Expr, e3: Expr)
    ensures AllExtraVars([e1, e2, e3]) == AllExtraVars([e1, e2]) + ExtraVars(e3)
  {
    assert [e1, e2, e3][..2] == [e1, e2];
  }

  /** `aa` sorts between `a` and `b`. */
  lemma InsertedNameSorted()
    ensures StrictlySorted(["a", "aa", "b"])
  {
    assert "a"[1..] == [] && "aa"[1..] == "a";
    assert Below("a", "aa");
    assert Below("aa", "b") && Below("a", "b");
  }

  /** The first application's default state: `x^2+0.1*a` and `x^a/c^4`
      rebuilt into an empty registry give two names, three values (`a` is
      counted twice) and two limits. */
  lemma MainDefaultRegistry(e1: Expr, e2: Expr)
    requires ExtraVars(e1) == {"a"} && ExtraVars(e2) == {"a", "c"}
    ensures RebuiltNames([], [e1, e2]) == ["a", "c"]
    ensures RebuiltValues([], [e1, e2]) == [1.0, 1.0, 1.0]
    ensures RebuiltLimits([], 2) == [DefaultLimit, DefaultLimit]
  {
    TwoExpressions(e1, e2);
    assert RebuiltNames([], [e1, e2]) == ["a", "c"] by {
      assert Elems(["a", "c"]) == {"a", "c"};
      RebuiltNamesAre([], [e1, e2], ["a", "c"]);
    }
    assert |ExtraVars(e2)| == 2;
    RebuiltValuesAre([], [e1, e2], 3);
    assert Defaults(3) == [1.0, 1.0, 1.0];
  }

  /** The plotting app's default state: `sin(x*a)*b` and `cos(x*a)/b` give
      two names, four values and two limits. */
  lemma PlottingDefaultRegistry(e1: Expr, e2: Expr)
    requires ExtraVars(e1) == {"a", "b"} && ExtraVars(e2) == {"a", "b"}
    ensures RebuiltNames([], [e1, e2]) == ["a", "b"]
    ensures RebuiltValues([], [e1, e2]) == [1.0, 1.0, 1.0, 1.0]
    ensures RebuiltLimits([], 2) == [DefaultLimit, DefaultLimit]
  {
    TwoExpressions(e1, e2);
    assert RebuiltNames([], [e1, e2]) == ["a", "b"] by {
      assert Elems(["a", "b"]) == {"a", "b"};
      RebuiltNamesAre([], [e1, e2], ["a", "b"]);
    }
    assert |ExtraVars(e1)| == 2;
    RebuiltValuesAre([], [e1, e2], 4);
    assert Defaults(4) == [1.0, 1.0, 1.0, 1.0];
  }

  // ----- pushing the registry's values into the functions -----

  /** One `assign_value_to_var` on a function whose names are distinct. */
  function Assigned(fnames: seq<string>, fvalues: seq<real>, name: string, v: real): seq<real>
    requires |fnames| == |fvalues|
  {
    seq(|fvalues|, k requires 0 <= k < |fvalues| => if fnames[k] == name then v else fvalues[k])
  }

  /** A function's values after the first `n` registry parameters have been
      assigned to it, in registry order. */
  function Propagated(fnames: seq<string>, fvalues: seq<real>,
                      pnames: seq<string>, pvalues: seq<real>, n: nat): (r: seq<real>)
    requires |fnames| == |fvalues| && n <= |pnames| <= |pvalues|
    ensures |r| == |fvalues|
  {
    if n == 0 then fvalues
    else Assigned(fnames, Propagated(fnames, fvalues, pnames, pvalues, n - 1), pnames[n - 1], pvalues[n - 1])
  }

  /** After propagation a function's slot holds the value of the LAST
      registry entry with its name, or keeps its value if no entry has it. */
  lemma {:induction false} PropagatedSlot(fnames: seq<string>, fvalues: seq<real>,
                                         pnames: seq<string>, pvalues: seq<real>, n: nat, k: nat)
    requires |fnames| == |fvalues| && n <= |pnames| <= |pvalues| && k < |fvalues|
    ensures fnames[k] !in pnames[..n] ==>
              Propagated(fnames, fvalues, pnames, pvalues, n)[k] == fvalues[k]
    ensures fnames[k] in pnames[..n] ==>
              exists j :: 0 <= j < n && pnames[j] == fnames[k] && fnames[k] !in pnames[j + 1..n]
                          && Propagated(fnames, fvalues, pnames, pvalues, n)[k] == pvalues[j]
  {
    if n > 0 {
      PropagatedSlot(fnames, fvalues, pnames, pvalues, n - 1, k);
      assert pnames[..n] == pnames[..n - 1] + [pnames[n - 1]];
      if pnames[n - 1] == fnames[k] {
        assert pnames[n..n] == [];
      } else if fnames[k] in pnames[..n - 1] {
        var j :| 0 <= j < n - 1 && pnames[j] == fnames[k] && fnames[k] !in pnames[j + 1..n - 1]
                 && Propagated(fnames, fvalues, pnames, pvalues, n - 1)[k] == pvalues[j];
        assert pnames[j + 1..n] == pnames[j + 1..n - 1] + [pnames[n - 1]];
      }
    }
  }

  class PlottingApp {
    var newFunctionName: string
    var newParameterName: string
    var functions: seq<Function>
    var parametersNames: seq<string>
    var parametersValues: seq<real>
    var parametersLim: seq<Limit>

    /** Every parameter name has a value at its index; the functions are
        distinct objects (the vector owns them) and each is consistent. */
    ghost predicate Valid()
      reads this, functions
    {
      && |parametersNames| <= |parametersValues|
      && (forall a, b :: 0 <= a < b < |functions| ==> functions[a] != functions[b])
      && (forall f :: f in functions ==> f.Valid())
    }

    /** The parses of the functions, in vector order. */
    ghost function Parses(): seq<Expr>
      reads this, functions
    {
      seq(|functions|, i reads this, functions requires 0 <= i < |functions| => functions[i].parsedExpression)
    }

    /** The registry's loop reads `parameters_values[i]` and
        `parameters_lim[i]` for every name index `i`: it stays in range
        exactly when both vectors reach every name. */
    predicate RowsInRange()
      reads this
    {
      |parametersNames| <= |parametersValues| && |parametersNames| <= |parametersLim|
    }

    /** The loop of `update_parameters_names_from_functions`: the current
        registry with each function's extracted names and values appended,
        and one default limit per function. */
    method CollectFromFunctions() returns (names: seq<string>, values: seq<real>, limits: seq<Limit>)
      ensures names == parametersNames + AppendedNames(Parses())
      ensures values == RebuiltValues(parametersValues, Parses())
      ensures limits == RebuiltLimits(parametersLim, |functions|)
    {
      names, values, limits := parametersNames, parametersValues, parametersLim;
      ghost var parses := Parses();
      for i := 0 to |functions|
        invariant names == parametersNames + AppendedNames(parses[..i])
        invariant values == parametersValues + Defaults(|AppendedNames(parses[..i])|)
        invariant limits == parametersLim + DefaultLimits(i)
      {
        var functionNames, functionValues := ExtractVars(functions[i].parsedExpression);
        assert parses[..i + 1][..i] == parses[..i];
        names := names + functionNames;
        values := values + functionValues;
        limits := limits + [DefaultLimit];
      }
      assert parses[..|functions|] == parses;
    }

    /** `update_parameters_names_from_functions`: starting from the current
        registry, append each function's extracted names and values and one
        limit per function, then sort and deduplicate the names alone. */
    method UpdateParametersNamesFromFunctions()
      requires Valid()
      modifies this
      ensures Valid()
      ensures functions == old(functions) && Parses() == old(Parses())
      ensures parametersNames == RebuiltNames(old(parametersNames), Parses())
      ensures parametersValues == RebuiltValues(old(parametersValues), Parses())
      ensures parametersLim == RebuiltLimits(old(parametersLim), |functions|)
      ensures newFunctionName == old(newFunctionName) && newParameterName == old(newParameterName)
    {
      ghost var parses := Parses();
      var names, values, limits := CollectFromFunctions();
      names := SortAndDedup(names);
      assert |names| <= |values| by {
        RebuildKeepsValuesCoveringNames(parametersNames, parametersValues, parses);
      }
      parametersNames := names;
      parametersValues := values;
      parametersLim := limits;
      assert Parses() == parses;
    }

    /** `add_new_function`: the function goes at the end of the vector, then
        the registry is rebuilt. */
    method AddNewFunction(f: Function)
      requires Valid() && f.Valid() && f !in functions
      modifies this
      ensures Valid()
      ensures functions == old(functions) + [f] && Parses() == old(Parses()) + [f.parsedExpression]
      ensures parametersNames == RebuiltNames(old(parametersNames), old(Parses()) + [f.parsedExpression])
      ensures parametersValues == RebuiltValues(old(parametersValues), old(Parses()) + [f.parsedExpression])
      ensures parametersLim == RebuiltLimits(old(parametersLim), |old(functions)| + 1)
      ensures newFunctionName == old(newFunctionName) && newParameterName == old(newParameterName)
    {
      functions := functions + [f];
      assert Parses() == old(Parses()) + [f.parsedExpression];
      ghost var parses := Parses();
      UpdateParametersNamesFromFunctions();
      assert Parses() == parses;
    }

    /** The add-function button: a function whose name and text are both the
        input field, then the input is cleared. Text that does not parse makes
        `Function::new` panic; nothing changes then. */
    method AddFunctionFromInput(parse: string -> Option<Expr>) returns (ok: bool)
      requires Valid()
      modifies this
      ensures Valid()
      ensures ok == parse(old(newFunctionName)).Some?
      ensures !ok ==> unchanged(this)
      ensures ok ==> |functions| == |old(functions)| + 1 && functions[..|old(functions)|] == old(functions)
      ensures ok ==> fresh(functions[|functions| - 1])
      ensures ok ==> functions[|functions| - 1].name == old(newFunctionName)
      ensures ok ==> functions[|functions| - 1].expression == old(newFunctionName)
      ensures ok ==> functions[|functions| - 1].parsedExpression == parse(old(newFunctionName)).value
      ensures ok ==> Parses() == old(Parses()) + [parse(old(newFunctionName)).value]
      ensures ok ==> var f := functions[|functions| - 1];
                     forall k :: 0 <= k < |f.varsValues| ==> f.varsValues[k] == DefaultValue
      ensures ok ==> parametersNames == RebuiltNames(old(parametersNames), Parses())
      ensures ok ==> parametersValues == RebuiltValues(old(parametersValues), Parses())
      ensures ok ==> parametersLim == RebuiltLimits(old(parametersLim), |functions|)
      ensures ok ==> newFunctionName == "" && newParameterName == old(newParameterName)
    {
      ok := parse(newFunctionName).Some?;
      if ok {
        var f := new Function(newFunctionName, newFunctionName, parse);
        AddNewFunction(f);
        ghost var parses := Parses();
        newFunctionName := "";
        assert Parses() == parses;
      }
    }

    /** Editing a function's text in the plotting app: `reparse` that
        function, then rebuild the registry. Text that does not parse makes
        `reparse` panic before anything changes. */
    method ReparseFunction(index: nat, parse: string -> Option<Expr>) returns (ok: bool)
      requires Valid() && index < |functions|
      modifies this, functions[index]
      ensures Valid()
      ensures ok == parse(old(functions[index].expression)).Some?
      ensures !ok ==> unchanged(this) && unchanged(functions[index])
      ensures functions == old(functions)
      ensures functions[index].expression == old(functions[index].expression)
      ensures functions[index].name == old(functions[index].name)
      ensures newFunctionName == old(newFunctionName) && newParameterName == old(newParameterName)
      ensures ok ==> functions[index].parsedExpression == parse(functions[index].expression).value
      ensures ok ==> forall k :: 0 <= k < |functions[index].varsValues| ==>
                       functions[index].varsValues[k] == DefaultValue
      ensures ok ==> parametersNames == RebuiltNames(old(parametersNames), Parses())
      ensures ok ==> parametersValues == RebuiltValues(old(parametersValues), Parses())
      ensures ok ==> parametersLim == RebuiltLimits(old(parametersLim), |functions|)
    {
      var f := functions[index];
      ok := f.Reparse(parse);
      if ok {
        assert forall g :: g in functions ==> g.Valid() by {
          forall g | g in functions
            ensures g.Valid()
          {
            if g != f {
              assert old(g.Valid());
            }
          }
        }
        UpdateParametersNamesFromFunctions();
      }
    }

    /** The remove-function button: only `functions[index]` goes; the
        registry keeps the function's names, values and limit. */
    method RemoveFunction(index: nat)
      requires Valid() && index < |functions|
      modifies this
      ensures Valid()
      ensures functions == old(functions[..index] + functions[index + 1..])
      ensures parametersNames == old(parametersNames) && parametersValues == old(parametersValues)
      ensures parametersLim == old(parametersLim)
      ensures newFunctionName == old(newFunctionName) && newParameterName == old(newParameterName)
    {
      functions := functions[..index] + functions[index + 1..];
      assert forall f :: f in functions ==> f in old(functions);
    }

    /** The remove-parameter button: index `index` leaves the names and the
        values but not the limits. */
    method RemoveParameter(index: nat)
      requires Valid() && index < |parametersNames|
      modifies this
      ensures Valid()
      ensures parametersNames == old(parametersNames[..index] + parametersNames[index + 1..])
      ensures parametersValues == old(parametersValues[..index] + parametersValues[index + 1..])
      ensures parametersLim == old(parametersLim) && functions == old(functions)
      ensures newFunctionName == old(newFunctionName) && newParameterName == old(newParameterName)
      ensures old(RowsInRange()) ==> RowsInRange()
    {
      parametersNames := parametersNames[..index] + parametersNames[index + 1..];
      parametersValues := parametersValues[..index] + parametersValues[index + 1..];
    }

    /** The plotting app's add-parameter button. A name already in the
        registry, or a warning already raised, leaves the registry as it is
        and raises the warning; otherwise the name, the default value and the
        default limit are appended and the input is cleared. */
    method AddParameter(warning: bool) returns (warningAfter: bool)
      requires Valid()
      modifies this
      ensures Valid()
      ensures warningAfter == (old(newParameterName) in old(parametersNames) || warning)
      ensures warningAfter ==> unchanged(this)
      ensures !warningAfter ==> parametersNames == old(parametersNames) + [old(newParameterName)]
      ensures !warningAfter ==> parametersValues == old(parametersValues) + [DefaultValue]
      ensures !warningAfter ==> parametersLim == old(parametersLim) + [DefaultLimit]
      ensures !warningAfter ==> newParameterName == ""
      ensures functions == old(functions) && newFunctionName == old(newFunctionName)
      ensures old(RowsInRange()) ==> RowsInRange()
    {
      if newParameterName in parametersNames || warning {
        warningAfter := true;
      } else {
        parametersNames := parametersNames + [newParameterName];
        parametersValues := parametersValues + [DefaultValue];
        parametersLim := parametersLim + [DefaultLimit];
        newParameterName := "";
        warningAfter := false;
      }
    }

    /** The first application's add-parameter button: no duplicate check and
        no limit; names and values grow by one, the limits do not. When the
        limits did not already outnumber the names, the new name has no
        limit and the registry's loop runs past the end of the limits. */
    method PushParameter()
      requires Valid()
      modifies this
      ensures Valid()
      ensures parametersNames == old(parametersNames) + [old(newParameterName)]
      ensures parametersValues == old(parametersValues) + [DefaultValue]
      ensures parametersLim == old(parametersLim)
      ensures newParameterName == ""
      ensures functions == old(functions) && newFunctionName == old(newFunctionName)
      ensures old(|parametersLim| <= |parametersNames|) ==> !RowsInRange()
    {
      parametersNames := parametersNames + [newParameterName];
      parametersValues := parametersValues + [DefaultValue];
      newParameterName := "";
    }

    /** The first application's add-parameter button with the default limit
        pushed beside the name and the value, as the plotting app's button
        does: the registry's rows stay in range. */
    method PushParameterWithLimit()
      requires Valid()
      modifies this
      ensures Valid()
      ensures parametersNames == old(parametersNames) + [old(newParameterName)]
      ensures parametersValues == old(parametersValues) + [DefaultValue]
      ensures parametersLim == old(parametersLim) + [DefaultLimit]
      ensures newParameterName == ""
      ensures functions == old(functions) && newFunctionName == old(newFunctionName)
      ensures old(RowsInRange()) ==> RowsInRange()
    {
      parametersNames := parametersNames + [newParameterName];
      parametersValues := parametersValues + [DefaultValue];
      parametersLim := parametersLim + [DefaultLimit];
      newParameterName := "";
    }

    /** The inner loop of the propagation: every function naming `name` has
        that slot set to `value`; nothing else in any function changes. */
    method AssignToFunctions(name: string, value: real)
      requires Valid()
      modifies set f | f in functions
      ensures Valid()
      ensures forall f :: f in functions ==>
                unchanged(f`name, f`expression, f`parsedExpression, f`varsNames)
      ensures forall f :: f in functions ==>
                f.varsValues == Assigned(f.varsNames, old(f.varsValues), name, value)
    {
      for j := 0 to |functions|
        invariant Valid()
        invariant forall f :: f in functions ==>
                    unchanged(f`name, f`expression, f`parsedExpression, f`varsNames)
        invariant forall f :: f in functions ==> |old(f.varsValues)| == |f.varsNames|
        invariant forall k :: 0 <= k < j ==>
                    functions[k].varsValues
                    == Assigned(functions[k].varsNames, old(functions[k].varsValues), name, value)
        invariant forall k :: j <= k < |functions| ==>
                    functions[k].varsValues == old(functions[k].varsValues)
      {
        var f := functions[j];
        if name in f.varsNames {
          f.AssignValueToVar(name, value);
        }
        assert f.varsValues == Assigned(f.varsNames, old(f.varsValues), name, value);
      }
    }

    /** The loop over the registry that assigns each parameter's value to every
        function naming it, parameter by parameter in registry order. */
    method PropagateParameterValues()
      requires Valid()
      modifies set f | f in functions
      ensures Valid()
      ensures forall f :: f in functions ==>
                unchanged(f`name, f`expression, f`parsedExpression, f`varsNames)
      ensures forall f :: f in functions ==>
                f.varsValues == Propagated(f.varsNames, old(f.varsValues), parametersNames,
                                           parametersValues, |parametersNames|)
    {
      for i := 0 to |parametersNames|
        invariant Valid()
        invariant forall f :: f in functions ==>
                    unchanged(f`name, f`expression, f`parsedExpression, f`varsNames)
        invariant forall f :: f in functions ==>
                    f.varsValues == Propagated(f.varsNames, old(f.varsValues), parametersNames,
                                               parametersValues, i)
      {
        AssignToFunctions(parametersNames[i], parametersValues[i]);
      }
    }

    /** The plotting app's start state: `sin(x*a)*b` (named f1) and
        `cos(x*a)/b` (named f2) with a registry rebuilt from empty vectors.
        The parser is assumed to report the variables x, a and b for both. */
    constructor Default(parse: string -> Option<Expr>)
      requires parse("sin(x*a)*b").Some? && Variables(parse("sin(x*a)*b").value) == {"x", "a", "b"}
      requires parse("cos(x*a)/b").Some? && Variables(parse("cos(x*a)/b").value) == {"x", "a", "b"}
      ensures Valid()
      ensures |functions| == 2 && fresh(functions[0]) && fresh(functions[1])
      ensures functions[0].name == "f1" && functions[1].name == "f2"
      ensures functions[0].expression == "sin(x*a)*b" && functions[1].expression == "cos(x*a)/b"
      ensures functions[0].parsedExpression == parse("sin(x*a)*b").value
      ensures functions[1].parsedExpression == parse("cos(x*a)/b").value
      ensures functions[0].varsNames == ["a", "b"] && functions[0].varsValues == [1.0, 1.0]
      ensures functions[1].varsNames == ["a", "b"] && functions[1].varsValues == [1.0, 1.0]
      ensures parametersNames == ["a", "b"]
      ensures parametersValues == [1.0, 1.0, 1.0, 1.0]
      ensures parametersLim == [DefaultLimit, DefaultLimit]
      ensures newFunctionName == "" && newParameterName == ""
    {
      var f1 := new Function("sin(x*a)*b", "f1", parse);
      var f2 := new Function("cos(x*a)/b", "f2", parse);
      newFunctionName, newParameterName := "", "";
      functions := [f1, f2];
      parametersNames, parametersValues, parametersLim := [], [], [];
      new;
      assert Elems(["a", "b"]) == {"a", "b"};
      ExtractedNamesAre(f1.parsedExpression, ["a", "b"]);
      ExtractedNamesAre(f2.parsedExpression, ["a", "b"]);
      PlottingDefaultRegistry(f1.parsedExpression, f2.parsedExpression);
      assert Parses() == [f1.parsedExpression, f2.parsedExpression];
      UpdateParametersNamesFromFunctions();
    }

    /** The first application's start state: `x^2+0.1*a` and `x^a/c^4`, each
        named by its own text. The parser is assumed to report x and a for the
        first and x, a and c for the second. */
    constructor MainDefault(parse: string -> Option<Expr>)
      requires parse("x^2+0.1*a").Some? && Variables(parse("x^2+0.1*a").value) == {"x", "a"}
      requires parse("x^a/c^4").Some? && Variables(parse("x^a/c^4").value) == {"x", "a", "c"}
      ensures Valid()
      ensures |functions| == 2 && fresh(functions[0]) && fresh(functions[1])
      ensures functions[0].name == "x^2+0.1*a" && functions[1].name == "x^a/c^4"
      ensures functions[0].expression == "x^2+0.1*a" && functions[1].expression == "x^a/c^4"
      ensures functions[0].parsedExpression == parse("x^2+0.1*a").value
      ensures functions[1].parsedExpression == parse("x^a/c^4").value
      ensures functions[0].varsNames == ["a"] && functions[0].varsValues == [1.0]
      ensures functions[1].varsNames == ["a", "c"] && functions[1].varsValues == [1.0, 1.0]
      ensures parametersNames == ["a", "c"]
      ensures parametersValues == [1.0, 1.0, 1.0]
      ensures parametersLim == [DefaultLimit, DefaultLimit]
      ensures newFunctionName == "" && newParameterName == ""
    {
      var f1 := new Function("x^2+0.1*a", "x^2+0.1*a", parse);
      var f2 := new Function("x^a/c^4", "x^a/c^4", parse);
      newFunctionName, newParameterName := "", "";
      functions := [f1, f2];
      parametersNames, parametersValues, parametersLim := [], [], [];
      new;
      assert Elems(["a"]) == {"a"} && Elems(["a", "c"]) == {"a", "c"};
      ExtractedNamesAre(f1.parsedExpression, ["a"]);
      ExtractedNamesAre(f2.parsedExpression, ["a", "c"]);
      MainDefaultRegistry(f1.parsedExpression, f2.parsedExpression);
      assert Parses() == [f1.parsedExpression, f2.parsedExpression];
      UpdateParametersNamesFromFunctions();
    }
  }

  /** The first application's start state, a name typed into the parameter
      field and one press of its add-parameter button: three names but two
      limits, so the third registry row reads past the end of the limits. */
  method MainAddParameterOverrunsLimits(parse: string -> Option<Expr>, name: string)
    returns (app: PlottingApp)
    requires parse("x^2+0.1*a").Some? && Variables(parse("x^2+0.1*a").value) == {"x", "a"}
    requires parse("x^a/c^4").Some? && Variables(parse("x^a/c^4").value) == {"x", "a", "c"}
    ensures app.Valid() && app.parametersNames == ["a", "c", name]
    ensures |app.parametersLim| == 2 && !app.RowsInRange()
  {
    app := new PlottingApp.MainDefault(parse);
    app.newParameterName := name;
    app.PushParameter();
  }

  /** The same press with the limit pushed too: every registry row is in range. */
  method MainAddParameterWithLimit(parse: string -> Option<Expr>, name: string)
    returns (app: PlottingApp)
    requires parse("x^2+0.1*a").Some? && Variables(parse("x^2+0.1*a").value) == {"x", "a"}
    requires parse("x^a/c^4").Some? && Variables(parse("x^a/c^4").value) == {"x", "a", "c"}
    ensures app.Valid() && app.parametersNames == ["a", "c", name]
    ensures |app.parametersLim| == 3 && app.RowsInRange()
  {
    app := new PlottingApp.MainDefault(parse);
    app.newParameterName := name;
    app.PushParameterWithLimit();
  }

  lemma FourVariables(e: Expr)
    requires Variables(e) == {"x", "a", "b", "c", "d"}
    ensures |ExtractedNames(e)| == 4
  {
    assert ExtraVars(e) == {"a", "b", "c", "d"};
    ExtractedNamesSpec(e);
  }

  /** A reachable state where a function's slider row runs past the limits:
      from the plotting app's start state remove both functions, then add
      `x*a*b*c*d`. The function has four variables but there are three
      limits, so its fourth slider reads past the end of the limits. */
  method RemoveBothThenAddOverrunsSliderLimits(parse: string -> Option<Expr>) returns (app: PlottingApp)
    requires parse("sin(x*a)*b").Some? && Variables(parse("sin(x*a)*b").value) == {"x", "a", "b"}
    requires parse("cos(x*a)/b").Some? && Variables(parse("cos(x*a)/b").value) == {"x", "a", "b"}
    requires parse("x*a*b*c*d").Some? && Variables(parse("x*a*b*c*d").value) == {"x", "a", "b", "c", "d"}
    ensures app.Valid() && |app.functions| == 1
    ensures |app.functions[0].varsNames| == 4 && |app.parametersLim| == 3
  {
    app := new PlottingApp.Default(parse);
    app.RemoveFunction(0);
    app.RemoveFunction(0);
    app.newFunctionName := "x*a*b*c*d";
    var ok := app.AddFunctionFromInput(parse);
    assert ok && |app.functions| == 1;
    var f := app.functions[0];
    assert f.parsedExpression == parse("x*a*b*c*d").value;
    assert f in app.functions && f.Valid();
    FourVariables(f.parsedExpression);
  }
}
