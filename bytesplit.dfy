/** `Expression::new` as written: the index of the first operator comes from
    enumerating characters, but `split_at` and the slice that drops the
    operator count bytes of the UTF-8 encoding. The two agree on ASCII text.
    A multi-byte character before the operator moves the cut too early: when
    the byte offset falls inside a character Rust panics, and when it falls
    on a character boundary the text is cut at the wrong place without any
    error. */
module ByteSplit {
  import opened Wrappers
  import opened Expressions

  /** Bytes in the UTF-8 encoding of a character. */
  function Utf8Len(c: char): nat
  {
    if c as int < 0x80 then 1
    else if c as int < 0x800 then 2
    else if c as int < 0x1_0000 then 3
    else 4
  }

  /** Bytes in the UTF-8 encoding of a text. */
  function Utf8Size(s: string): nat
  {
    if s == [] then 0 else Utf8Len(s[0]) + Utf8Size(s[1..])
  }

  predicate Ascii(s: string)
  {
    forall k :: 0 <= k < |s| ==> s[k] as int < 0x80
  }

  /** `str::split_at` with a byte offset: the text before and after byte
      `b`, or `None` (a panic) when `b` is past the end or inside a
      character. */
  function SplitAtByte(t: string, b: nat): (r: Option<(string, string)>)
    ensures r.Some? ==> r.value.0 + r.value.1 == t && Utf8Size(r.value.0) == b
  {
    if b == 0 then Some(([], t))
    else if t == [] || Utf8Len(t[0]) > b then None
    else
      match SplitAtByte(t[1..], b - Utf8Len(t[0]))
      case None => None
      case Some((l, r)) =>
        assert t == [t[0]] + t[1..];
        Some(([t[0]] + l, r))
  }

  /** The bytes of a prefix of at least one character: the first character's,
      then those of the rest of the prefix. */
  lemma Utf8SizePrefix(t: string, k: nat)
    requires 1 <= k <= |t|
    ensures Utf8Size(t[..k]) == Utf8Len(t[0]) + Utf8Size(t[1..][..k - 1])
  {
    assert t[..k][0] == t[0] && t[..k][1..] == t[1..][..k - 1];
  }

  /** `split_at(b)` succeeds exactly when `b` is a character boundary: some
      prefix of the text is exactly `b` bytes long. */
  lemma {:induction false} SplitAtByteDefined(t: string, b: nat)
    ensures SplitAtByte(t, b).Some? <==> exists k :: 0 <= k <= |t| && Utf8Size(t[..k]) == b
    decreases |t|
  {
    if b == 0 {
      assert Utf8Size(t[..0]) == 0;
    } else if t == [] {
      assert forall k :: 0 <= k <= |t| ==> t[..k] == [];
    } else {
      forall k | 1 <= k <= |t|
        ensures Utf8Size(t[..k]) == Utf8Len(t[0]) + Utf8Size(t[1..][..k - 1])
      {
        Utf8SizePrefix(t, k);
      }
      assert Utf8Size(t[..0]) == 0;
      if Utf8Len(t[0]) <= b {
        SplitAtByteDefined(t[1..], b - Utf8Len(t[0]));
        if exists k :: 0 <= k <= |t[1..]| && Utf8Size(t[1..][..k]) == b - Utf8Len(t[0]) {
          var k :| 0 <= k <= |t[1..]| && Utf8Size(t[1..][..k]) == b - Utf8Len(t[0]);
          assert Utf8Size(t[..k + 1]) == b;
        }
      }
    }
  }

  /** On ASCII text a byte offset is a character index. */
  lemma {:induction false} SplitAtByteAscii(t: string, b: nat)
    requires Ascii(t) && b <= |t|
    ensures SplitAtByte(t, b) == Some((t[..b], t[b..]))
    decreases b
  {
    if b > 0 {
      assert Ascii(t[1..]);
      SplitAtByteAscii(t[1..], b - 1);
      assert t[..b] == [t[0]] + t[1..][..b - 1];
      assert t[b..] == t[1..][b - 1..];
    }
  }

  /** `Expression::new` exactly as written: the character index of the first
      operator is used as a byte offset for the cut, and one byte is dropped
      after it. `None` is a panic, in this node or in either child. */
  function NewAsWritten(s: string): (r: Option<Expression>)
    ensures r.Some? ==> r.value.value == StripSpaces(s)
    decreases |s|
  {
    var t := StripSpaces(s);
    match FirstOperator(t)
    case None => Some(Expression(t, None, None))
    case Some(i) =>
      match SplitAtByte(t, i)
      case None => None
      case Some((lh, rh)) =>
        match SplitAtByte(rh, 1)
        case None => None
        case Some((_, cropped)) =>
          match NewAsWritten(lh)
          case None => None
          case Some(left) =>
            match NewAsWritten(cropped)
            case None => None
            case Some(right) => Some(Expression(t, Some((left, right)), FromString(t[i])))
  }

  /** Removing spaces keeps a text ASCII. */
  lemma StripSpacesAscii(s: string)
    requires Ascii(s)
    ensures Ascii(StripSpaces(s))
  {
    var t := StripSpaces(s);
    forall k | 0 <= k < |t|
      ensures t[k] as int < 0x80
    {
      assert t[k] in s;
    }
  }

  /** One node of the program as written, once the cut and both children
      are known. */
  lemma AsWrittenNode(s: string, i: nat, left: Expression, right: Expression)
    requires FirstOperator(StripSpaces(s)) == Some(i)
    requires var t := StripSpaces(s);
             && SplitAtByte(t, i) == Some((t[..i], t[i..]))
             && SplitAtByte(t[i..], 1) == Some((t[i..i + 1], t[i + 1..]))
             && NewAsWritten(t[..i]) == Some(left) && NewAsWritten(t[i + 1..]) == Some(right)
    ensures var t := StripSpaces(s);
            NewAsWritten(s) == Some(Expression(t, Some((left, right)), FromString(t[i])))
  {
  }

  /** Both byte cuts of the program land where the character index says on
      ASCII text, and both sides stay ASCII. */
  lemma AsciiCut(t: string, i: nat)
    requires Ascii(t) && i < |t|
    ensures SplitAtByte(t, i) == Some((t[..i], t[i..]))
    ensures SplitAtByte(t[i..], 1) == Some((t[i..i + 1], t[i + 1..]))
  {
    SplitAtByteAscii(t, i);
    var rh := t[i..];
    assert rh[0] == t[i] && rh[1..] == t[i + 1..] && [rh[0]] == t[i..i + 1];
    assert Utf8Len(rh[0]) == 1;
    assert SplitAtByte(rh[1..], 0) == Some(([], rh[1..]));
    assert [rh[0]] + [] == [rh[0]];
    assert SplitAtByte(rh, 1) == Some(([rh[0]], rh[1..]));
  }

  /** The two sides of a cut ASCII text are ASCII. */
  lemma AsciiSides(t: string, i: nat)
    requires Ascii(t) && i < |t|
    ensures Ascii(t[..i]) && Ascii(t[i + 1..])
  {
    assert Ascii(t[..i]) by {
      forall k | 0 <= k < i
        ensures t[..i][k] as int < 0x80
      {
        assert t[..i][k] == t[k];
      }
    }
    var r := t[i + 1..];
    forall k | 0 <= k < |r|
      ensures r[k] as int < 0x80
    {
      assert r[k] == t[i + 1 + k];
    }
  }

  /** On ASCII input the program as written builds the tree `New` describes. */
  lemma {:induction false} AsWrittenAgreesOnAscii(s: string)
    requires Ascii(s)
    ensures NewAsWritten(s) == Some(New(s))
    decreases |s|
  {
    var t := StripSpaces(s);
    StripSpacesAscii(s);
    match FirstOperator(t)
    case None =>
    case Some(i) =>
      AsciiCut(t, i);
      AsciiSides(t, i);
      AsWrittenAgreesOnAscii(t[..i]);
      AsWrittenAgreesOnAscii(t[i + 1..]);
      AsWrittenNode(s, i, New(t[..i]), New(t[i + 1..]));
      NewSplit(s, i);
  }

  /** One node of the program as written, for any two byte cuts. */
  lemma AsWrittenNodeAt(s: string, i: nat, lh: string, dropped: string, cropped: string,
                        left: Expression, right: Expression)
    requires FirstOperator(StripSpaces(s)) == Some(i)
    requires SplitAtByte(StripSpaces(s), i) == Some((lh, dropped + cropped))
    requires SplitAtByte(dropped + cropped, 1) == Some((dropped, cropped))
    requires NewAsWritten(lh) == Some(left) && NewAsWritten(cropped) == Some(right)
    ensures var t := StripSpaces(s);
            NewAsWritten(s) == Some(Expression(t, Some((left, right)), FromString(t[i])))
  {
  }

  /** A space-free text with no operator is a leaf for the program as written. */
  lemma AsWrittenLeaf(t: string)
    requires NoSpaces(t) && forall k :: 0 <= k < |t| ==> t[k] !in OperatorChars
    ensures NewAsWritten(t) == Some(Expression(t, None, None))
  {
    StripSpacesKeepsSpaceFree(t);
    FirstOperatorIsLeast(t, |t|);
  }

  /** The byte cuts of `éab+c`: byte 3 is the start of `b`, and one byte
      after it is `+c`. */
  lemma EarlyCut(e: char, a: char, b: char, c: char)
    requires 0x80 <= e as int < 0x800 && a as int < 0x80 && b as int < 0x80
    ensures SplitAtByte([e, a, b, '+', c], 3) == Some(([e, a], [b] + ['+', c]))
    ensures SplitAtByte([b] + ['+', c], 1) == Some(([b], ['+', c]))
  {
    var t := [e, a, b, '+', c];
    var u := [a, b, '+', c];
    var rh := [b, '+', c];
    assert t[0] == e && t[1..] == u && Utf8Len(e) == 2;
    assert u[0] == a && u[1..] == rh && Utf8Len(a) == 1;
    assert SplitAtByte(rh, 0) == Some(([], rh));
    assert [a] + [] == [a] && [e] + [a] == [e, a];
    assert rh[0] == b && rh[1..] == ['+', c] && Utf8Len(b) == 1;
    assert SplitAtByte(['+', c], 0) == Some(([], ['+', c]));
    assert [b] + [] == [b] && [b] + ['+', c] == rh;
  }

  /** The program as written on `+c`: an empty left leaf and `c` on the right. */
  lemma AsWrittenLeadingOperator(c: char)
    requires c !in OperatorChars && c != ' ' && c as int < 0x80
    ensures NewAsWritten(['+', c])
            == Some(Expression(['+', c], Some((Expression([], None, None), Expression([c], None, None))), Some(Add)))
  {
    var t := ['+', c];
    StripSpacesKeepsSpaceFree(t);
    FirstOperatorIsLeast(t, 0);
    assert t[1..] == [c] && Utf8Len('+') == 1;
    assert SplitAtByte([c], 0) == Some(([], [c]));
    assert ['+'] + [] == ['+'];
    AsWrittenLeaf([]);
    AsWrittenLeaf([c]);
    assert ['+'] + [c] == t;
    AsWrittenNodeAt(t, 0, [], ['+'], [c], Expression([], None, None), Expression([c], None, None));
  }

  /** A two-byte character and two more characters before the first
      operator, as in `éab+c`: the operator is character 3 but byte 3 is
      where `b` starts, so the program cuts before `b` and then drops `b` as
      if it were the operator. Nothing panics; the tree spells `éa++c`. */
  lemma MultiByteBeforeOperatorDropsCharacter(e: char, a: char, b: char, c: char)
    requires 0x80 <= e as int < 0x800
    requires a as int < 0x80 && b as int < 0x80 && c as int < 0x80
    requires a !in OperatorChars && b !in OperatorChars && c !in OperatorChars
    requires a != ' ' && b != ' ' && c != ' '
    ensures NewAsWritten([e, a, b, '+', c]).Some?
    ensures Text(NewAsWritten([e, a, b, '+', c]).value) == [e, a, '+', '+', c]
    ensures Text(NewAsWritten([e, a, b, '+', c]).value) != StripSpaces([e, a, b, '+', c])
  {
    var t := [e, a, b, '+', c];
    StripSpacesKeepsSpaceFree(t);
    FirstOperatorIsLeast(t, 3);
    EarlyCut(e, a, b, c);
    var left := Expression([e, a], None, None);
    AsWrittenLeaf([e, a]);
    var right := Expression(['+', c], Some((Expression([], None, None), Expression([c], None, None))), Some(Add));
    AsWrittenLeadingOperator(c);
    AsWrittenNodeAt(t, 3, [e, a], [b], ['+', c], left, right);
    var spelled := [e, a, '+', '+', c];
    assert Text(NewAsWritten(t).value) == spelled by {
      DroppedText(t, e, a, c);
    }
    assert spelled[2] != t[2];
  }

  /** What the tree of `éab+c` built as written spells. */
  lemma DroppedText(t: string, e: char, a: char, c: char)
    ensures var right := Expression(['+', c], Some((Expression([], None, None), Expression([c], None, None))), Some(Add));
            Text(Expression(t, Some((Expression([e, a], None, None), right)), Some(Add))) == [e, a, '+', '+', c]
  {
    var right := Expression(['+', c], Some((Expression([], None, None), Expression([c], None, None))), Some(Add));
    assert Text(right) == [] + ['+'] + [c];
    assert [e, a] + ['+'] + ['+', c] == [e, a, '+', '+', c];
  }

  /** A character of two or more bytes before the first operator, as in
      `é+b`: the operator is character 1 but byte 1 is inside `é`, so the
      program panics where `New` builds a node. */
  lemma MultiByteBeforeOperatorPanics(e: char, b: char)
    requires e as int >= 0x80
    requires b !in OperatorChars && b != ' '
    ensures NewAsWritten([e, '+', b]).None?
    ensures New([e, '+', b]).children == Some((New([e]), New([b])))
  {
    var t := [e, '+', b];
    FirstOperatorIsLeast(t, 1);
    assert NewAsWritten(t).None? by {
      StripSpacesKeepsSpaceFree(t);
      assert Utf8Len(t[0]) > 1;
      assert SplitAtByte(t, 1).None?;
    }
    assert t[..1] == [e] && t[2..] == [b];
    NewSplitSpaceFree(t, 1);
  }
}
