/** The expression-tree experiment: operators and their characters, and a
    splitter that cuts a space-free text at its first operator character and
    recurses on both sides, ignoring precedence. */
module Expressions {
  import opened Wrappers

  datatype Operator = Add | Subtract | Multiply | Divide | Pow

  /** `get_operator_list`: the operator characters, in declaration order. */
  const OperatorChars: seq<char> := ['+', '-', '*', '/', '^']

  /** `to_char`: the character an operator is written with. */
  function ToChar(op: Operator): (c: char)
    ensures c in OperatorChars
  {
    match op
    case Add => '+'
    case Subtract => '-'
    case Multiply => '*'
    case Divide => '/'
    case Pow => '^'
  }

  /** `from_string`: the operator a character names. Any character outside
      the list panics, which is `None` here. */
  function FromString(c: char): (r: Option<Operator>)
    ensures r.Some? <==> c in OperatorChars
    ensures r.Some? ==> ToChar(r.value) == c
  {
    match c
    case '+' => Some(Add)
    case '-' => Some(Subtract)
    case '*' => Some(Multiply)
    case '/' => Some(Divide)
    case '^' => Some(Pow)
    case _ => None
  }

  /** Reading back the character of an operator gives the same operator. */
  lemma FromToChar(op: Operator)
    ensures FromString(ToChar(op)) == Some(op)
  {
    match op
    case Add =>
    case Subtract =>
    case Multiply =>
    case Divide =>
    case Pow =>
  }

  // ----- texts -----

  predicate NoSpaces(s: string)
  {
    ' ' !in s
  }

  /** `replace(" ", "")`: every space removed, the other characters kept in order. */
  function StripSpaces(s: string): (r: string)
    ensures NoSpaces(r) && |r| <= |s|
    ensures forall c :: c != ' ' ==> (c in r <==> c in s)
  {
    if s == [] then []
    else (if s[0] == ' ' then [] else [s[0]]) + StripSpaces(s[1..])
  }

  /** A text without spaces is left as it is. */
  lemma {:induction false} StripSpacesKeepsSpaceFree(s: string)
    requires NoSpaces(s)
    ensures StripSpaces(s) == s
    decreases |s|
  {
    if s != [] {
      assert NoSpaces(s[1..]);
      StripSpacesKeepsSpaceFree(s[1..]);
      assert s == [s[0]] + s[1..];
    }
  }

  /** The index of the first operator character, if the text has one. */
  function FirstOperator(s: string): (r: Option<nat>)
    ensures r.Some? ==> r.value < |s| && s[r.value] in OperatorChars
    ensures r.Some? ==> forall k :: 0 <= k < r.value ==> s[k] !in OperatorChars
    ensures r.None? ==> forall k :: 0 <= k < |s| ==> s[k] !in OperatorChars
  {
    if s == [] then None
    else if s[0] in OperatorChars then Some(0)
    else
      match FirstOperator(s[1..])
      case None => None
      case Some(i) => Some(i + 1)
  }

  /** `get_index_and_operator_char`: scan the characters with their indices
      and stop at the first operator character. Index and character are
      either both present or both absent. */
  method GetIndexAndOperatorChar(s: string) returns (index: Option<nat>, operatorChar: Option<char>)
    ensures index == FirstOperator(s)
    ensures index.Some? <==> operatorChar.Some?
    ensures index.Some? ==> operatorChar.value == s[index.value]
  {
    index := None;
    operatorChar := None;
    var i := 0;
    while i < |s|
      invariant 0 <= i <= |s|
      invariant forall k :: 0 <= k < i ==> s[k] !in OperatorChars
    {
      if s[i] in OperatorChars {
        index := Some(i);
        operatorChar := Some(s[i]);
        FirstOperatorIsLeast(s, i);
        return;
      }
      i := i + 1;
    }
    FirstOperatorIsLeast(s, |s|);
  }

  /** When the first `i` characters hold no operator, the first operator is
      at `i` if there is one there, and nowhere if `i` is the end. */
  lemma FirstOperatorIsLeast(s: string, i: nat)
    requires i <= |s| && forall k :: 0 <= k < i ==> s[k] !in OperatorChars
    requires i < |s| ==> s[i] in OperatorChars
    ensures FirstOperator(s) == if i < |s| then Some(i) else None
  {
  }

  // ----- the tree -----

  /** A node of the tree: its space-free text, and for an inner node the
      left and right children and the operator between them. The vector of
      children in the program always holds exactly two, so it is a pair here. */
  datatype Expression = Expression(value: string, children: Option<(Expression, Expression)>,
                                   operator: Option<Operator>)

  /** Cutting a space-free text at its first operator: the two sides have no
      spaces, the left one no operator, and the operator character reads back
      as an operator. */
  lemma CutAtFirstOperator(t: string, i: nat)
    requires NoSpaces(t) && FirstOperator(t) == Some(i)
    ensures t == t[..i] + [t[i]] + t[i + 1..]
    ensures StripSpaces(t[..i]) == t[..i] && StripSpaces(t[i + 1..]) == t[i + 1..]
    ensures FirstOperator(t[..i]).None?
    ensures FromString(t[i]).Some? && ToChar(FromString(t[i]).value) == t[i]
  {
    StripSpacesKeepsSpaceFree(t[..i]);
    StripSpacesKeepsSpaceFree(t[i + 1..]);
    FirstOperatorIsLeast(t[..i], i);
  }

  /** `Expression::new`: strip the spaces; a text with no operator is a leaf;
      otherwise cut before the first operator, drop that character, and build
      the two sides the same way. */
  function New(s: string): (r: Expression)
    ensures r.value == StripSpaces(s)
    ensures r.children.None? <==> FirstOperator(r.value).None?
    ensures r.children.None? <==> r.operator.None?
    ensures r.children.Some? ==>
              && r.children.value.0.value + [ToChar(r.operator.value)] + r.children.value.1.value
                 == r.value
              && r.children.value.0.children.None?
    decreases |s|
  {
    var t := StripSpaces(s);
    match FirstOperator(t)
    case None => Expression(t, None, None)
    case Some(i) =>
      CutAtFirstOperator(t, i);
      Expression(t, Some((New(t[..i]), New(t[i + 1..]))), Some(FromString(t[i]).value))
  }

  /** Every node of a tree: no spaces in its text, and an inner node's
      children spell its text around its operator, the left one a leaf. */
  ghost predicate WellFormed(e: Expression)
  {
    && NoSpaces(e.value)
    && (e.children.None? <==> e.operator.None?)
    && (e.children.Some? ==>
          && e.children.value.0.value + [ToChar(e.operator.value)] + e.children.value.1.value
             == e.value
          && e.children.value.0.children.None?
          && WellFormed(e.children.value.0)
          && WellFormed(e.children.value.1))
  }

  /** Every tree `New` builds is well formed at every node. */
  lemma {:induction false} NewWellFormed(s: string)
    ensures WellFormed(New(s))
    decreases |s|
  {
    var t := StripSpaces(s);
    match FirstOperator(t)
    case None =>
    case Some(i) =>
      CutAtFirstOperator(t, i);
      NewWellFormed(t[..i]);
      NewWellFormed(t[i + 1..]);
  }

  /** The text a tree spells out: the leaves and the operators in between,
      left to right. */
  function Text(e: Expression): string
  {
    match e.children
    case None => e.value
    case Some((left, right)) =>
      match e.operator
      case None => e.value
      case Some(op) => Text(left) + [ToChar(op)] + Text(right)
  }

  /** Reading a built tree back gives the input without its spaces. */
  lemma {:induction false} TextOfNew(s: string)
    ensures Text(New(s)) == StripSpaces(s)
    decreases |s|
  {
    var t := StripSpaces(s);
    match FirstOperator(t)
    case None =>
    case Some(i) =>
      CutAtFirstOperator(t, i);
      TextOfNew(t[..i]);
      TextOfNew(t[i + 1..]);
  }

  /** `New` on a space-free text with no operator: a leaf. */
  lemma NewLeaf(t: string)
    requires NoSpaces(t) && FirstOperator(t).None?
    ensures New(t) == Expression(t, None, None)
  {
    StripSpacesKeepsSpaceFree(t);
  }

  /** `New` on a text whose first operator, once spaces are gone, is at `i`. */
  lemma NewSplit(s: string, i: nat)
    requires FirstOperator(StripSpaces(s)) == Some(i)
    ensures var t := StripSpaces(s);
            New(s) == Expression(t, Some((New(t[..i]), New(t[i + 1..]))), FromString(t[i]))
  {
  }

  /** The same on a text that has no spaces to begin with. */
  lemma NewSplitSpaceFree(t: string, i: nat)
    requires NoSpaces(t) && FirstOperator(t) == Some(i)
    ensures New(t) == Expression(t, Some((New(t[..i]), New(t[i + 1..]))), FromString(t[i]))
  {
    StripSpacesKeepsSpaceFree(t);
    NewSplit(t, i);
  }

  /** The first operator wins regardless of precedence: `a*b+c` is cut at
      `*`, and `b+c` becomes the right child. */
  lemma PrecedenceIgnored(a: char, b: char, c: char)
    requires a !in OperatorChars && b !in OperatorChars && c !in OperatorChars
    requires a != ' ' && b != ' ' && c != ' '
    ensures New([a, '*', b, '+', c])
            == Expression([a, '*', b, '+', c], Some((New([a]), New([b, '+', c]))), Some(Multiply))
    ensures New([b, '+', c]) == Expression([b, '+', c], Some((New([b]), New([c]))), Some(Add))
    ensures New([a]) == Expression([a], None, None)
  {
    var whole := [a, '*', b, '+', c];
    var right := [b, '+', c];
    FirstOperatorIsLeast(whole, 1);
    assert whole[..1] == [a] && whole[2..] == right;
    NewSplitSpaceFree(whole, 1);
    FirstOperatorIsLeast(right, 1);
    assert right[..1] == [b] && right[2..] == [c];
    NewSplitSpaceFree(right, 1);
    FirstOperatorIsLeast([a], 1);
    NewLeaf([a]);
  }
}
