# plotting-rs, modelled in Dafny

plotting-rs is a small egui desktop app. It plots functions of `x` typed as
text. Each function may use extra variables (parameters), such as `a` in
`sin(x*a)`. The app keeps one registry of parameters for all functions: names,
current values and slider limits, held as three vectors side by side.

This project models the app's core state and logic:

- the `Function` record: parse, extract variables, assign a value, reparse,
  evaluate;
- the registry rebuild that runs whenever a function is added;
- the button handlers that add and remove functions and parameters;
- the loop that pushes registry values into the functions;
- the two start states;
- the expression-tree experiment in `src/lib.rs`: operator characters, and a
  splitter that cuts a text at its first operator.

Files:

- `names.dfy` (module `Names`): Rust's string order, `sort`, `dedup`, and
  `SortedListOf`, the one strictly sorted list of a set of names. Both
  variable extraction and the rebuild are specified against it.
- `extraction.dfy` (module `Extraction`): `extract_vars` on a parsed
  expression's token list.
- `function.dfy` (module `Functions`): the `Function` class and the
  command-line example.
- `app.dfy` (module `Plotting`): the registry as functions of its old state,
  and the `PlottingApp` class with its handlers.
- `expression.dfy` (module `Expressions`): `Operator` and `Expression` from
  `src/lib.rs`.
- `bytesplit.dfy` (module `ByteSplit`): `Expression::new` as written, which
  cuts by bytes. With a multi-byte character before the operator it either
  panics or cuts silently in the wrong place (see Findings).

The program has three copies of `Function`: `src/plotting.rs`, `src/main.rs`
and `examples/meval_example.rs`. Their `new`, `assign_value_to_var`, `eval` and
`extract_vars` are the same, so one Dafny member models all three. The table
cites the `src/plotting.rs` copy. The others are at these lines:

- `src/main.rs`: `new` 23-33, `assign_value_to_var` 34-40, `eval` 41-96,
  `extract_vars` 97-116;
- `examples/meval_example.rs`: `new` 13-23, `assign_value_to_var` 24-30,
  `eval` 31-89, `extract_vars` 90-109. This copy writes the literal 1.0 for
  the default value.

`reparse` exists only in `src/plotting.rs`.

`MyApp` (`src/main.rs`) and `PlottingApp` share fields and the rebuild, so one
class models both. The handlers that differ get their own members:

- `PushParameter`: `MyApp`'s add-parameter button has no duplicate check and
  pushes no limit (see Findings);
- `MainDefault`: `MyApp`'s start state.

The shared members are `UpdateParametersNamesFromFunctions`, `AddNewFunction`,
`AddFunctionFromInput`, `RemoveFunction`, `RemoveParameter` and
`PropagateParameterValues`. In `src/main.rs` they are at these lines:

- the rebuild, 140-167;
- `add_new_function`, 168-171;
- the add-function button, 320-331;
- the remove buttons, 312-318;
- the loop over the registry, 248-309.

Two library calls are parameters of the model:

- `parse: string -> Option<Expr>` stands for meval's parser. `None` is a text
  it rejects.
- `evaluate: (Expr, Env) -> Option<real>` stands for binding and evaluation.
  `None` is an error from `bind`..`bind5`, which `unwrap` turns into a panic.

An `Expr` is seen only through its token list, and only `Var` tokens matter.

Panics are modelled as outcomes in these members:

- `Function.Eval` returns `EvalOutcome.BindFailed` or `TooManyParameters`;
- `FromString` returns `None`;
- `Reparse`, `AddFunctionFromInput` and `ReparseFunction` return `ok == false`
  and leave the state unchanged;
- `NewAsWritten` returns `None`.

The rebuild sorts and deduplicates the names but only appends to the
values, as the comment at src/plotting.rs:149 concedes. Row `i` of the
registry shows `parameters_values[i]`, so a name that survives a rebuild can
end up beside another name's value. `RebuildShiftsValues` shows one such
case.

## Model

| member | source | states |
|---|---|---|
| Names.BelowIrreflexive | src/plotting.rs:116 | no name sorts strictly before itself |
| Names.BelowTransitive | src/plotting.rs:116 | the string order used by `sort` is transitive |
| Names.BelowTotal | src/plotting.rs:116 | any two distinct names are ordered one way or the other |
| Names.BelowAsymmetric | src/plotting.rs:116 | the order never holds both ways |
| Names.Sort | src/plotting.rs:116 | `sort` yields an ascending permutation of its input |
| Names.Insert | src/plotting.rs:116 | one insertion step keeps the vector sorted and adds exactly one copy of the element |
| Names.InsertKeepsSorted | src/plotting.rs:116 | placing an element after all elements not above it, and before the rest, keeps the order |
| Names.Dedup | src/plotting.rs:117 | `dedup` drops each element equal to its predecessor (the reference `Deduped`) |
| Names.DedupedSorted | src/plotting.rs:116-117 | dedup of a sorted vector is strictly ascending and keeps every distinct element |
| Names.ElemsBound | src/plotting.rs:117 | a vector has at most as many distinct elements as entries |
| Names.LeastExists | src/plotting.rs:116 | every non-empty set of names has a least one |
| Names.LeastUnique | src/plotting.rs:116 | the least name is unique |
| Names.SortedListOfUnfold | src/plotting.rs:116-117 | the sorted list of a set starts with its least element, then lists the rest |
| Names.SortedListOfSpec | src/plotting.rs:116-117 | the sorted list of a set is strictly ascending, holds exactly the set, and has its size |
| Names.ConsStrictlySorted | src/plotting.rs:116-117 | a name below every element may be put in front of a strictly ascending vector |
| Names.SortedListOfUnique | src/plotting.rs:116-117 | a strictly ascending vector is the sorted list of its own elements |
| Names.StrictlySortedDetermined | src/plotting.rs:116-117 | two strictly ascending vectors with the same elements are equal |
| Names.SortDedupIsSortedList | src/plotting.rs:116-117 | sort then dedup yields the sorted list of the input's distinct elements |
| Names.SortAndDedup | src/plotting.rs:147-148 | the registry's sort-then-dedup yields the sorted list of the distinct names |
| Extraction.VarNamesElems | src/plotting.rs:105-111 | the `filter_map` step keeps exactly the names of the `Var` tokens |
| Extraction.WithoutPlotVariableElems | src/plotting.rs:115 | `retain` removes `x` and keeps every other name |
| Extraction.ExtractedNamesSpec | src/plotting.rs:102-121 | extracted names are strictly ascending, never `x`, and are exactly the other variables the expression references |
| Extraction.ExtractedNamesAre | src/plotting.rs:102-121 | any strictly ascending list of exactly the extra variables is the list extraction produces |
| Extraction.ExtractVars | src/plotting.rs:102-121 | the names are the sorted list of the extra variables; the values are 1.0, one per name |
| Extraction.ExtractionDependsOnlyOnVariables | src/plotting.rs:102-121 | two expressions with the same extra variables extract the same names, whatever the repetition or order |
| Functions.Position | src/plotting.rs:33 | `position` finds the first index holding the name, or none when it is absent |
| Functions.Function.constructor | src/plotting.rs:21-31 | `new` stores the name, the text and its parse; names are the strictly ascending extra variables; every value is 1.0 |
| Functions.Function.AssignValueToVar | src/plotting.rs:32-38 | the slot whose name matches takes the value; the other slots and fields stay as they were; an unknown name changes nothing |
| Functions.Function.Reparse | src/plotting.rs:39-45 | on success the parse and both vectors are replaced by a fresh extraction, so every value resets to 1.0; a text that does not parse changes nothing |
| Functions.Function.Eval | src/plotting.rs:46-101 | up to four names: the evaluator's answer with `x` and then the names bound in stored order to the values at the same indices; a bind error is `BindFailed`; five or more names is `TooManyParameters` exactly |
| Functions.MevalExample | examples/meval_example.rs:111-130 | `a` first binds to 1.0 in a direct evaluation; `a^x+1` extracts names `["a"]` with values `[1.0]`; after assigning 2.0 the values are `[2.0]`; both evaluations bind x = 1.0 and that value of `a` |
| Plotting.AppendedNamesSpec | src/plotting.rs:140-146 | the rebuild loop appends exactly every function's extra variables, one entry per variable per function |
| Plotting.RebuildNamesSpec | src/plotting.rs:135-156 | rebuilt names are strictly ascending and are the old names together with every function's extra variables, so no old name is dropped |
| Plotting.RebuildValuesSpec | src/plotting.rs:137-155 | rebuilt values keep the old values as a prefix and append 1.0 once per variable per function, with no dedup |
| Plotting.RebuildKeepsValuesCoveringNames | src/plotting.rs:147-155 | after a rebuild there are never fewer values than names |
| Plotting.RebuildShiftsValues | src/plotting.rs:135-156 | names are sorted but values only grow at the end, so a surviving name's row can show another name's value: from the start state with `b` at `v`, adding a function using `aa` gives names `a`, `aa`, `b` with `v` now in the `aa` row and 1.0 in the `b` row |
| Plotting.RebuildInsertsName | src/plotting.rs:135-156 | adding a function using `aa` to the start state's names `a`, `b` gives names `a`, `aa`, `b` |
| Plotting.RebuildTwice | src/plotting.rs:135-156 | a second rebuild leaves the names as they are but appends every default value again |
| Plotting.LimitsCanLagNames | src/plotting.rs:236-242 | one function with two extra variables, rebuilt into an empty registry, gives two names but one limit, so `parameters_lim[i]` indexed by a variable index can go out of range |
| Plotting.PlottingDefaultRegistry | src/plotting.rs:163-181 | `sin(x*a)*b` and `cos(x*a)/b` give names `a`, `b`, four values and two limits |
| Plotting.MainDefaultRegistry | src/main.rs:174-194 | `x^2+0.1*a` and `x^a/c^4` give names `a`, `c`, three values and two limits |
| Plotting.PropagatedSlot | src/plotting.rs:254-313 | after the loop over the registry, a function's slot holds the value of the last registry entry with its name, or is untouched if no entry has it |
| Plotting.PlottingApp.CollectFromFunctions | src/plotting.rs:136-146 | the loop yields the old registry with each function's extraction appended, and one default limit per function |
| Plotting.PlottingApp.UpdateParametersNamesFromFunctions | src/plotting.rs:135-156 | names become the rebuilt names, values the rebuilt values, limits gain one default per function; functions untouched; validity kept |
| Plotting.PlottingApp.AddNewFunction | src/plotting.rs:157-160 | the function is appended, then the registry is rebuilt over all parses including the new one |
| Plotting.PlottingApp.AddFunctionFromInput | src/plotting.rs:327-338 | a fresh function named and written as the input is appended, holding the input's parse and a 1.0 for each of its extra variables; the registry is rebuilt over the parses with that one added and the input is cleared; a text that does not parse changes nothing |
| Plotting.PlottingApp.ReparseFunction | src/plotting.rs:225-228 | a click on a function's text box reparses the text already stored in `functions[index].expression` (the edit itself is the caller's write to that field) and rebuilds the registry: name and text kept, every value back to 1.0, inputs and other functions untouched; a text that does not parse changes nothing |
| Plotting.PlottingApp.RemoveFunction | src/plotting.rs:316-318 | only the function at the index goes; the registry keeps its names, values and limits |
| Plotting.PlottingApp.RemoveParameter | src/plotting.rs:319-322 | the name and value at the index go; the limits do not, so registry rows in range stay in range |
| Plotting.PlottingApp.AddParameter | src/plotting.rs:350-362 | a duplicate name or a raised warning leaves everything unchanged and raises the warning; otherwise the name, 1.0 and the default limit are appended and the input is cleared; registry rows in range stay in range |
| Plotting.PlottingApp.PushParameter | src/main.rs:336-346 | the name and 1.0 are appended with no duplicate check; the limits do not grow, so unless limits already outnumbered names the new name's registry row at src/main.rs:266 is out of range |
| Plotting.PlottingApp.PushParameterWithLimit | src/main.rs:343-345 | the button as evidently intended: the default limit is pushed with the name and 1.0, and registry rows in range stay in range |
| Plotting.PlottingApp.AssignToFunctions | src/plotting.rs:305-312 | every function naming the parameter gets its value in that slot; nothing else in any function changes |
| Plotting.PlottingApp.PropagateParameterValues | src/plotting.rs:254-313 | each function's values become the registry values assigned one parameter after another, in registry order |
| Plotting.PlottingApp.Default | src/plotting.rs:163-181 | start state: f1 is `sin(x*a)*b` and f2 is `cos(x*a)/b`, each with its parse, names `a`, `b` and values 1.0, 1.0; registry names `a`, `b`, four values of 1.0, two default limits, empty inputs |
| Plotting.PlottingApp.MainDefault | src/main.rs:174-194 | start state: `x^2+0.1*a` with names `a` and `x^a/c^4` with names `a`, `c`, each named by its text, holding its parse and 1.0 per name; registry names `a`, `c`, three values, two limits |
| Plotting.MainAddParameterOverrunsLimits | src/main.rs:248-346 | from the start state, one press of the add-parameter button leaves three names and two limits, so the registry loop's `parameters_lim[i]` (src/main.rs:266) is out of range for the third name |
| Plotting.RemoveBothThenAddOverrunsSliderLimits | src/plotting.rs:236-242 | a reachable state: from the start state, remove both functions, then add `x*a*b*c*d`; that function has four variables but there are three limits, so its fourth slider reads `parameters_lim[3]` out of range |
| Plotting.MainAddParameterWithLimit | src/main.rs:248-346 | the same press with the limit pushed too leaves three names and three limits, every registry row in range |
| Expressions.ToChar | src/lib.rs:20-28 | every operator's character is in the operator list |
| Expressions.FromString | src/lib.rs:10-19 | an operator exactly for the five listed characters, and it writes back as the same character; any other character panics |
| Expressions.FromToChar | src/lib.rs:10-28 | reading back an operator's character gives the same operator |
| Expressions.StripSpaces | src/lib.rs:44 | no space remains, and every other character is kept |
| Expressions.StripSpacesKeepsSpaceFree | src/lib.rs:44 | removing spaces from a text without spaces changes nothing |
| Expressions.FirstOperator | src/lib.rs:62-74 | the index of an operator character with none before it, or none when the text has no operator |
| Expressions.GetIndexAndOperatorChar | src/lib.rs:62-74 | the scan stops at the first operator; index and character are both present or both absent, and the character is the one at the index |
| Expressions.FirstOperatorIsLeast | src/lib.rs:66-72 | an operator at `i` with none before it is the first operator |
| Expressions.CutAtFirstOperator | src/lib.rs:53-54 | the two sides of the cut and the operator rebuild the text, and the left side holds no operator |
| Expressions.New | src/lib.rs:42-61 | the node's text is the input without spaces; a leaf exactly when there is no operator; otherwise left text, operator and right text give the node's text, and the left child is a leaf |
| Expressions.NewWellFormed | src/lib.rs:42-61 | every node of a built tree has no spaces, and children and operator are present together and spell its text |
| Expressions.TextOfNew | src/lib.rs:53-58 | reading a built tree back, leaves and operators left to right, gives the input without spaces |
| Expressions.NewLeaf | src/lib.rs:46-52 | a space-free text without operators is a leaf with that text |
| Expressions.NewSplit | src/lib.rs:53-60 | a text whose first operator is at `i` has the two sides of `i` as children |
| Expressions.PrecedenceIgnored | src/lib.rs:53-71 | `a*b+c` is cut at `*` with `b+c` as the right child: precedence is ignored |
| ByteSplit.SplitAtByte | src/lib.rs:53 | a byte cut returns two parts that rebuild the text, the left one exactly the offset's number of bytes |
| ByteSplit.SplitAtByteDefined | src/lib.rs:53 | `split_at(b)` succeeds exactly when some prefix of the text is `b` bytes long, that is, when `b` is a character boundary within the text; otherwise it panics |
| ByteSplit.SplitAtByteAscii | src/lib.rs:53 | on ASCII text a byte offset cuts at that character index |
| ByteSplit.AsciiCut | src/lib.rs:53-54 | on ASCII text both byte cuts of `new` land where the character index says |
| ByteSplit.AsciiSides | src/lib.rs:53-54 | both sides of a cut ASCII text are ASCII |
| ByteSplit.StripSpacesAscii | src/lib.rs:44 | removing spaces keeps a text ASCII |
| ByteSplit.NewAsWritten | src/lib.rs:42-61 | `Expression::new` with the character index used as a byte offset: when it does not panic, the node's text is the input without its spaces |
| ByteSplit.AsWrittenNode | src/lib.rs:53-60 | one node of the as-written construction once the cuts and children are known |
| ByteSplit.AsWrittenNodeAt | src/lib.rs:53-60 | one node of the as-written construction for any two byte cuts that succeed |
| ByteSplit.AsWrittenLeaf | src/lib.rs:46-52 | a space-free text with no operator is a leaf for the program as written |
| ByteSplit.AsWrittenAgreesOnAscii | src/lib.rs:42-61 | on ASCII input the program as written builds exactly the tree of `New` |
| ByteSplit.MultiByteBeforeOperatorPanics | src/lib.rs:53 | with a multi-byte first character before the operator, as in `é+b`, the byte offset falls inside that character and the program panics where `New` builds a node |
| ByteSplit.MultiByteBeforeOperatorDropsCharacter | src/lib.rs:53-54 | with a two-byte character and two more characters before the operator, as in `éab+c`, the byte offset lands on the start of `b`: nothing panics, `b` is dropped as if it were the operator, and the tree spells `éa++c`, not the input |

## Left out

- Parsing and evaluation by meval, including the tokenizer and `f64`
  arithmetic. They are the parameters `parse` and `evaluate`. The start states
  and the example take as a precondition which variables the tokenizer
  reports for their fixed texts.
- Values are `real` and are only copied, never computed, so no rounding is
  modelled.
- The GUI is not modelled: egui layout, the plot panel, sampling each function
  at 500 points over `xlim`, the sliders' `clamp_range`, the drag values,
  and the `xlim` field that the plot writes back.
- Typing in a function's name box or expression box (src/plotting.rs:207-210 and 221-224)
  is a direct write to `functions[i].name` or `functions[i].expression`. No
  member models it; `ReparseFunction` starts from the text already written.
- The `parameters_lim[i]` reads are not modelled as operations. There are two
  kinds:
  - in a function's slider row (src/plotting.rs:240, src/main.rs:234), `i`
    is the variable's index in that function;
  - in the registry's own row (src/plotting.rs:272, 283, 291; src/main.rs:266,
    277, 286), `i` is the parameter's index.

  Either panics once the index reaches the number of limits. `RowsInRange`
  states the registry row's condition. The rebuild appends one limit per
  function, not per name, so it can break that condition in both apps, for
  example `Default` followed by adding `x*c*d*e*f` gives six names and five
  limits. `LimitsCanLagNames` shows the effect on a registry rebuilt from
  empty. `RemoveBothThenAddOverrunsSliderLimits` shows a state the plotting
  app reaches, where a function's slider row runs past the limits. The
  first application's add-parameter button breaks the registry row's
  condition in one press (see Findings).
- Console output (`println!`, the "no x" and "Variable not found" messages) and
  `Expression::print_tree` are left out.
- `main` and the wasm entry points are left out.
- The commented-out alternate `Expression` (src/lib.rs:98-166) is left out,
  since it is not compiled.
- Functions.Function.constructor: requires that the text parses. The source
  panics through `expect` when it does not. `AddFunctionFromInput` models
  that case as `ok == false` with nothing changed.
- Panics elsewhere (`Reparse`, `ReparseFunction`, `Eval`, `FromString`, the
  byte cuts) are returned as outcomes. The model does not capture that a
  panic ends the program.
- `show_parameter_name_warning` is a local of one frame. It is the parameter
  `warning` of `AddParameter`.
- The order of the handlers within one frame of `update` is not modelled as a
  single step; each handler is its own method. In `src/plotting.rs` one frame
  runs, in this order:
  1. for each function in turn, a click on its text box reparses it
     (line 227);
  2. for each registry name in turn, its value is assigned to the functions
     (lines 254-313);
  3. the marked function is removed (316-318);
  4. the marked parameter is removed (319-322);
  5. the registry is rebuilt if a function was reparsed (323-325);
  6. the add-function button (327-338);
  7. the add-parameter button (350-362).

  One consequence: the 1.0 values a reparse gives its function are
  overwritten in the same frame, by step 2, for every name already in the
  registry (`PropagatedSlot`).
- `Expression.children` is a `Vec` in the source that always holds exactly two
  trees. Here it is an optional pair.
- Strings are sequences of Unicode scalar values. Comparing them by code
  point gives the same order as Rust's byte-wise comparison of their UTF-8
  encodings.

## Findings

| source | as written | input that shows it | evidently intended | confidence | as-written member | corrected member |
|---|---|---|---|---|---|---|
| src/main.rs:343-345 | the add-parameter button pushes a name and a value but no limit, while the registry loop reads `parameters_lim[i]` for every name (src/main.rs:266) | the start state, then one press of the add-parameter button: three names, two limits, so the third row reads `parameters_lim[2]` and panics | push `DEFAULT_PARAMETERS_LIMIT` with the name, as src/plotting.rs:358 does | not executed | Plotting.MainAddParameterOverrunsLimits | Plotting.PlottingApp.PushParameterWithLimit |
| src/lib.rs:53 | the operator's index comes from `chars().enumerate()` (a character count), but `split_at` takes it as a byte offset | `"é+b"`: the operator is character 1, but byte 1 falls inside `é`, so `split_at` panics | cut at the first operator character whatever the encoding | not executed | ByteSplit.MultiByteBeforeOperatorPanics | Expressions.New |
| src/lib.rs:53-54 | the same byte offset can land on a character boundary before the operator; `&rh[1..]` then drops the character there instead of the operator | `"éab+c"`: the operator is character 3, byte 3 is the start of `b`, so the children are `éa` and `+c` and the tree spells `éa++c` | cut at the first operator character whatever the encoding | not executed | ByteSplit.MultiByteBeforeOperatorDropsCharacter | Expressions.New |

On ASCII text the two readings agree (`ByteSplit.AsWrittenAgreesOnAscii`).
`Expressions.New` cuts by character index. Its own contract and `TextOfNew`
state the intended property: the left text, the operator and the right text
rebuild the input without its spaces.
