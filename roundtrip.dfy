/** Printing a formula with `Show` and parsing the text back gives the same
    formula, provided every atom name is one the parser reads as an atom. */
module RoundTrip {
  import opened Results
  import opened Reader
  import opened SyntaxTree
  import opened Grammar
  import opened Precedence

  /** `s` occurs in `data` at offset `i`. */
  predicate At(data: string, i: nat, s: string) {
    i + |s| <= |data| && forall k | 0 <= k < |s| :: data[i + k] == s[k]
  }

  /** Where an expression may stop: the end of the text, `)`, or `(` where an
      operator would be expected. */
  predicate Closes(data: string, j: nat) {
    j <= |data| && (j == |data| || data[j] == ')' || data[j] == '(')
  }

  // ---------------------------------------------------------------------
  // Text facts

  lemma AtChar(data: string, i: nat, s: string, k: nat)
    requires At(data, i, s) && k < |s|
    ensures data[i + k] == s[k]
  {
  }

  lemma AtWhole(data: string)
    ensures At(data, 0, data)
  {
  }

  lemma AtConcat(data: string, i: nat, s: string, t: string)
    requires At(data, i, s + t)
    ensures At(data, i, s) && At(data, i + |s|, t)
  {
    forall k | 0 <= k < |s|
      ensures data[i + k] == s[k]
    {
      assert (s + t)[k] == s[k];
    }
    forall k | 0 <= k < |t|
      ensures data[i + |s| + k] == t[k]
    {
      assert (s + t)[|s| + k] == t[k];
    }
  }

  lemma AtRest(data: string, i: nat, s: string)
    requires At(data, i, s) && s != []
    ensures data[i] == s[0] && At(data, i + 1, s[1..])
  {
    forall k | 0 <= k < |s[1..]|
      ensures data[i + 1 + k] == s[1..][k]
    {
      AtChar(data, i, s, k + 1);
    }
  }

  lemma AtSlice(data: string, i: nat, s: string)
    requires At(data, i, s)
    ensures data[i..i + |s|] == s
  {
    assert data[i..i + |s|] == s;
  }

  /** A run of class `cl` that is followed by a character of another class
      (or the end) ends where the run ends. */
  lemma {:induction false} RunEndOver(data: string, i: nat, s: string, cl: CharClass)
    requires At(data, i, s)
    requires forall k | 0 <= k < |s| :: InClass(s[k], cl)
    requires i + |s| == |data| || !InClass(data[i + |s|], cl)
    ensures RunEnd(data, i, cl) == i + |s|
    decreases |s|
  {
    if s != [] {
      AtRest(data, i, s);
      RunEndOver(data, i + 1, s[1..], cl);
    }
  }

  /** One space before a character that is not a space. */
  lemma SpaceThenWord(data: string, i: nat)
    requires i + 1 < |data| && data[i] == ' ' && !IsSpace(data[i + 1])
    ensures RunEnd(data, i, Space) == i + 1
  {
    RunEndStops(data, i + 1, Space);
  }

  lemma RunEndStops(data: string, i: nat, cl: CharClass)
    requires i <= |data| && (i == |data| || !InClass(data[i], cl))
    ensures RunEnd(data, i, cl) == i
  {
  }

  /** A text word followed by a non-text character. */
  lemma TextWordAt(data: string, i: nat, s: string)
    requires At(data, i, s) && |s| > 0
    requires forall k | 0 <= k < |s| :: IsText(s[k])
    requires i + |s| == |data| || !IsText(data[i + |s|])
    ensures WordAt(data, i) == Step(Ok(ScannedWord(s, true, |s|)), i + |s|)
  {
    AtChar(data, i, s, 0);
    RunEndStops(data, i, Space);
    RunEndOver(data, i, s, Text);
    AtSlice(data, i, s);
  }

  /** A code word followed by a non-code character. */
  lemma CodeWordAt(data: string, i: nat, s: string)
    requires At(data, i, s) && |s| > 0
    requires forall k | 0 <= k < |s| :: IsCode(s[k])
    requires i + |s| == |data| || !IsCode(data[i + |s|])
    ensures WordAt(data, i) == Step(Ok(ScannedWord(s, false, |s|)), i + |s|)
  {
    AtChar(data, i, s, 0);
    RunEndStops(data, i, Space);
    RunEndOver(data, i, s, Code);
    AtSlice(data, i, s);
  }

  lemma SymbolIsCode(k: Kind)
    ensures |Symbol(k)| > 0
    ensures forall c | 0 <= c < |Symbol(k)| :: IsCode(Symbol(k)[c])
    ensures Lower(Symbol(k)) == Symbol(k)
    ensures Operator(Symbol(k)) == Some(k)
  {
    SymbolChars(k);
    SymbolLower(k);
    SymbolOperator(k);
  }

  lemma SymbolChars(k: Kind)
    ensures |Symbol(k)| > 0
    ensures forall c | 0 <= c < |Symbol(k)| :: IsCode(Symbol(k)[c])
  {
  }

  lemma SymbolLower(k: Kind)
    ensures Lower(Symbol(k)) == Symbol(k)
  {
    LowerChars(Symbol(k));
  }

  lemma SymbolOperator(k: Kind)
    ensures Operator(Symbol(k)) == Some(k)
  {
    var s := Symbol(k);
    match k
    case Conjunction =>
      assert s in Synonyms(k);
      OperatorOfSynonym(k, s);
    case Disjunction =>
      assert s in Synonyms(k);
      OperatorOfSynonym(k, s);
    case ExclusiveDisjunction =>
      assert s in Synonyms(k);
      OperatorOfSynonym(k, s);
    case Implication =>
      assert s in Synonyms(k);
      OperatorOfSynonym(k, s);
    case Equivalence =>
      assert s in Synonyms(k);
      OperatorOfSynonym(k, s);
  }



  lemma ShowStarts(f: Formula)
    requires WellNamed(f)
    ensures |Show(f)| > 0
    ensures !IsSpace(Show(f)[0]) && Show(f)[0] != ')'
  {
    hide Balanced;
    match f
    case Constant(b) =>
      assert Show(f) == if b then "T" else "F";
    case Atom(n) =>
    case Negation(x) =>
      assert Show(f) == "!(" + Show(x) + ")";
    case Binary(k, l, r) =>
      assert Show(f) == "(" + Show(l) + ")" + Symbol(k) + "(" + Show(r) + ")";
  }

  // ---------------------------------------------------------------------
  // Single unfoldings of the grammar

  lemma ExpressionStart(data: string, i: nat, x: Formula, p: nat)
    requires i <= |data| && RunEnd(data, i, Space) == i
    requires FormulaAt(data, i) == Step(Ok(x), p)
    ensures p <= |data| && ExpressionAt(data, i) == TailAt(data, p, [x], [])
  {
  }

  lemma FormulaParen(data: string, i: nat, x: Formula, p: nat)
    requires i < |data| && data[i] == '('
    requires ExpressionAt(data, i + 1) == Step(Ok(x), p) && p < |data|
    ensures FormulaAt(data, i) == Step(Ok(x), p + 1)
  {
  }

  lemma FormulaNot(data: string, i: nat, text: string, length: nat, p: nat, x: Formula, q: nat)
    requires i < |data| && data[i] != '('
    requires WordAt(data, i) == Step(Ok(ScannedWord(text, false, length)), p)
    requires Lower(text) in NotWords
    requires FormulaAt(data, p) == Step(Ok(x), q)
    ensures FormulaAt(data, i) == Step(Ok(Negation(x)), q)
  {
  }

  lemma FormulaTrue(data: string, i: nat, text: string, length: nat, p: nat)
    requires i < |data| && data[i] != '('
    requires WordAt(data, i) == Step(Ok(ScannedWord(text, true, length)), p)
    requires Lower(text) !in NotWords && text in TrueWords
    ensures FormulaAt(data, i) == Step(Ok(Constant(true)), p)
  {
  }

  lemma FormulaFalse(data: string, i: nat, text: string, length: nat, p: nat)
    requires i < |data| && data[i] != '('
    requires WordAt(data, i) == Step(Ok(ScannedWord(text, true, length)), p)
    requires Lower(text) !in NotWords && text !in TrueWords && text in FalseWords
    ensures FormulaAt(data, i) == Step(Ok(Constant(false)), p)
  {
  }

  lemma FormulaName(data: string, i: nat, text: string, length: nat, p: nat)
    requires i < |data| && data[i] != '('
    requires WordAt(data, i) == Step(Ok(ScannedWord(text, true, length)), p)
    requires Lower(text) !in NotWords && text !in TrueWords && text !in FalseWords && IsLetter(text[0])
    ensures FormulaAt(data, i) == Step(Ok(Atom(text)), p)
  {
  }

  // ---------------------------------------------------------------------
  // The round trip

  /** A constant, an atom or a negation printed at `i` is read back as one
      formula. */
  lemma {:induction false} FormulaShow(data: string, i: nat, f: Formula)
    requires !f.Binary? && WellNamed(f)
    requires At(data, i, Show(f)) && Closes(data, i + |Show(f)|)
    ensures FormulaAt(data, i) == Step(Ok(f), i + |Show(f)|)
    decreases f, 1
  {
    hide ExpressionAt, TailAt, FormulaAt, WordFormulaAt, OperatorTailAt, Balanced;
    match f
    case Constant(b) =>
      ConstantShow(data, i, b);
    case Atom(n) =>
      NameShow(data, i, n);
    case Negation(x) =>
      var inner := "(" + Show(x) + ")";
      assert Show(f) == "!" + inner;
      AtConcat(data, i, "!", inner);
      AtChar(data, i, "!", 0);
      AtChar(data, i + 1, inner, 0);
      assert Lower("!") == [LowerChar('!')];
      CodeWordAt(data, i, "!");
      ParenShow(data, i + 1, x);
      FormulaNot(data, i, "!", 1, i + 1, x, i + |Show(f)|);
  }

  /** A truth constant is one text word. */
  lemma ConstantShow(data: string, i: nat, b: bool)
    requires At(data, i, Show(Constant(b))) && Closes(data, i + 1)
    ensures FormulaAt(data, i) == Step(Ok(Constant(b)), i + 1)
  {
    var s := if b then "T" else "F";
    assert Show(Constant(b)) == s;
    AtChar(data, i, s, 0);
    TextWordAt(data, i, s);
    assert Lower(s) == [LowerChar(s[0])];
    if b {
      assert s in TrueWords;
      FormulaTrue(data, i, s, 1, i + 1);
    } else {
      assert s in FalseWords;
      FormulaFalse(data, i, s, 1, i + 1);
    }
  }

  /** A well-formed atom name is one text word. */
  lemma NameShow(data: string, i: nat, n: string)
    requires ValidName(n)
    requires At(data, i, n) && Closes(data, i + |n|)
    ensures FormulaAt(data, i) == Step(Ok(Atom(n)), i + |n|)
  {
    AtChar(data, i, n, 0);
    TextWordAt(data, i, n);
    FormulaName(data, i, n, |n|, i + |n|);
  }

  /** A formula printed in parentheses at `i` is read back as one formula. */
  lemma {:induction false} ParenShow(data: string, i: nat, f: Formula)
    requires WellNamed(f)
    requires At(data, i, "(" + Show(f) + ")")
    ensures FormulaAt(data, i) == Step(Ok(f), i + |Show(f)| + 2)
    decreases f, 4
  {
    hide ExpressionAt, TailAt, FormulaAt, WordFormulaAt, OperatorTailAt, Balanced;
    var s := Show(f);
    AtConcat(data, i, "(" + s, ")");
    AtConcat(data, i, "(", s);
    AtChar(data, i, "(" + s + ")", 0);
    AtChar(data, i + 1 + |s|, ")", 0);
    ExprShow(data, i + 1, f);
    FormulaParen(data, i, f, i + 1 + |s|);
  }

  /** An expression stops at `)` or the end of the text with what it has
      collected so far. */
  lemma TailStops(data: string, j: nat, exprs: seq<Formula>, ops: seq<Kind>)
    requires Closes(data, j) && |exprs| == |ops| + 1
    ensures TailAt(data, j, exprs, ops) == Step(Ok(Resolve(exprs, ops)), j)
  {
    RunEndStops(data, j, Space);
    if j < |data| && data[j] == '(' {
      TailWordEnds(data, j, exprs, ops);
    }
  }

  lemma ResolveSingle(x: Formula)
    ensures Resolve([x], []) == x
  {
    ResolveIsGrouped([x], []);
  }

  lemma ResolvePair(k: Kind, l: Formula, r: Formula)
    ensures Resolve([l, r], [k]) == Binary(k, l, r)
  {
    ResolveIsGrouped([l, r], [k]);
    assert [l, r][..1] == [l] && [l, r][1..] == [r];
    assert [k][..0] == [] && [k][1..] == [];
  }

  /** Any formula printed at `i` and closed by `)` or the end of the text is
      read back as that formula, ending where its text ends. */
  lemma {:induction false} ExprShow(data: string, i: nat, f: Formula)
    requires WellNamed(f)
    requires At(data, i, Show(f)) && Closes(data, i + |Show(f)|)
    ensures ExpressionAt(data, i) == Step(Ok(f), i + |Show(f)|)
    decreases f, 3
  {
    hide ExpressionAt, TailAt, FormulaAt, WordFormulaAt, OperatorTailAt, Balanced;
    if f.Binary? {
      BinaryExprShow(data, i, f.kind, f.left, f.right);
    } else {
      ShowStarts(f);
      AtChar(data, i, Show(f), 0);
      RunEndStops(data, i, Space);
      FormulaShow(data, i, f);
      SimpleTail(data, i + |Show(f)|, f);
      ExpressionStart(data, i, f, i + |Show(f)|);
    }
  }

  /** The binary case of `ExprShow`: the parenthesised left operand, the
      operator word, the parenthesised right operand. */
  lemma {:induction false} BinaryExprShow(data: string, i: nat, k: Kind, l: Formula, r: Formula)
    requires WellNamed(Binary(k, l, r))
    requires At(data, i, Show(Binary(k, l, r))) && Closes(data, i + |Show(Binary(k, l, r))|)
    ensures ExpressionAt(data, i) == Step(Ok(Binary(k, l, r)), i + |Show(Binary(k, l, r))|)
    decreases Binary(k, l, r), 2
  {
    hide ExpressionAt, TailAt, FormulaAt, WordFormulaAt, OperatorTailAt, Balanced;
    BinaryLayout(data, i, i + |Show(l)| + 2, i + |Show(l)| + 2 + |Symbol(k)|, i + |Show(Binary(k, l, r))|, k, l, r);
    LeftExpression(data, i, l);
    RightTail(data, i + |Show(l)| + 2, i + |Show(l)| + 2 + |Symbol(k)|, k, l, r, i + |Show(Binary(k, l, r))|);
  }

  /** The expression starts with the parenthesised left operand. */
  lemma {:induction false} LeftExpression(data: string, i: nat, l: Formula)
    requires WellNamed(l)
    requires At(data, i, "(" + Show(l) + ")")
    ensures i + |Show(l)| + 2 <= |data|
    ensures ExpressionAt(data, i) == TailAt(data, i + |Show(l)| + 2, [l], [])
    decreases l, 5
  {
    hide ExpressionAt, TailAt, FormulaAt, WordFormulaAt, OperatorTailAt, Balanced;
    AtOpen(data, i, Show(l));
    ParenShow(data, i, l);
    RunEndStops(data, i, Space);
    ExpressionStart(data, i, l, i + |Show(l)| + 2);
  }

  /** After the left operand: the operator word and the parenthesised right
      operand, then the end of the expression. */
  lemma {:induction false} RightTail(data: string, j: nat, p: nat, k: Kind, l: Formula, r: Formula, end: nat)
    requires WellNamed(r) && p == j + |Symbol(k)|
    requires At(data, j, Symbol(k)) && At(data, p, "(" + Show(r) + ")")
    requires end == p + |Show(r)| + 2 && Closes(data, end)
    ensures TailAt(data, j, [l], []) == Step(Ok(Binary(k, l, r)), end)
    decreases Binary(k, l, r), 0
  {
    hide ExpressionAt, TailAt, FormulaAt, WordFormulaAt, OperatorTailAt, Balanced;
    AtOpen(data, p, Show(r));
    ParenShow(data, p, r);
    BinaryTail(data, j, k, l, r, end);
  }

  lemma ShowBinary(k: Kind, l: Formula, r: Formula)
    ensures Show(Binary(k, l, r)) == "(" + Show(l) + ")" + Symbol(k) + "(" + Show(r) + ")"
  {
    hide Balanced;
  }

  /** Where the pieces of a printed binary formula lie. */
  lemma BinaryLayout(data: string, i: nat, j: nat, p: nat, end: nat, k: Kind, l: Formula, r: Formula)
    requires At(data, i, Show(Binary(k, l, r)))
    requires j == i + |Show(l)| + 2 && p == j + |Symbol(k)| && end == i + |Show(Binary(k, l, r))|
    ensures At(data, i, "(" + Show(l) + ")") && At(data, j, Symbol(k)) && At(data, p, "(" + Show(r) + ")")
    ensures end == p + |Show(r)| + 2
  {
    ShowBinary(k, l, r);
    hide Balanced, Show;
    PiecesAt(data, i, Show(l), Symbol(k), Show(r));
  }

  lemma PiecesAt(data: string, i: nat, a: string, b: string, c: string)
    requires At(data, i, "(" + a + ")" + b + "(" + c + ")")
    ensures var j := i + |a| + 2;
      && At(data, i, "(" + a + ")")
      && At(data, j, b)
      && At(data, j + |b|, "(" + c + ")")
  {
    assert "(" + a + ")" + b + "(" + c + ")" == ("(" + a + ")") + b + ("(" + c + ")");
    AtConcat3(data, i, "(" + a + ")", b, "(" + c + ")");
  }

  lemma AtConcat3(data: string, i: nat, a: string, b: string, c: string)
    requires At(data, i, a + b + c)
    ensures At(data, i, a) && At(data, i + |a|, b) && At(data, i + |a| + |b|, c)
  {
    AtConcat(data, i, a + b, c);
    AtConcat(data, i, a, b);
  }

  lemma AtOpen(data: string, i: nat, s: string)
    requires At(data, i, "(" + s + ")")
    ensures i < |data| && data[i] == '('
  {
    AtChar(data, i, "(" + s + ")", 0);
  }

  lemma SimpleTail(data: string, j: nat, f: Formula)
    requires Closes(data, j)
    ensures TailAt(data, j, [f], []) == Step(Ok(f), j)
  {
    TailStops(data, j, [f], []);
    ResolveSingle(f);
  }

  /** After the left operand: the operator word and the right operand, then
      the end of the expression. */
  lemma BinaryTail(data: string, j: nat, k: Kind, l: Formula, r: Formula, end: nat)
    requires At(data, j, Symbol(k)) && j + |Symbol(k)| < |data| && data[j + |Symbol(k)|] == '('
    requires FormulaAt(data, j + |Symbol(k)|) == Step(Ok(r), end)
    requires Closes(data, end)
    ensures TailAt(data, j, [l], []) == Step(Ok(Binary(k, l, r)), end)
  {
    OperatorShow(data, j, k, l, r, end);
    PairTail(data, end, k, l, r);
  }

  /** The operator word and the parenthesised right operand. */
  lemma OperatorShow(data: string, j: nat, k: Kind, l: Formula, r: Formula, end: nat)
    requires At(data, j, Symbol(k)) && j + |Symbol(k)| < |data| && data[j + |Symbol(k)|] == '('
    requires FormulaAt(data, j + |Symbol(k)|) == Step(Ok(r), end)
    ensures TailAt(data, j, [l], []) == TailAt(data, end, [l, r], [k])
  {
    SymbolIsCode(k);
    OperatorWordShow(data, j, Symbol(k), k, l, r, end);
  }

  /** Any code word naming operator `k`, followed by a parenthesised right
      operand, joins that operand with `k`. */
  lemma OperatorWordShow(data: string, j: nat, w: string, k: Kind, l: Formula, r: Formula, end: nat)
    requires At(data, j, w) && |w| > 0 && forall c | 0 <= c < |w| :: IsCode(w[c])
    requires Operator(Lower(w)) == Some(k)
    requires j + |w| < |data| && data[j + |w|] == '('
    requires FormulaAt(data, j + |w|) == Step(Ok(r), end)
    ensures TailAt(data, j, [l], []) == TailAt(data, end, [l, r], [k])
  {
    hide TailAt, OperatorTailAt, ExpressionAt, FormulaAt, WordFormulaAt;
    AtChar(data, j, w, 0);
    RunEndStops(data, j, Space);
    CodeWordAt(data, j, w);
    RunEndStops(data, j + |w|, Space);
    assert [l] + [r] == [l, r] && [] + [k] == [k];
    TailAfterOperator(data, j, [l], [], k, FormulaAt(data, j + |w|));
  }

  lemma PairTail(data: string, end: nat, k: Kind, l: Formula, r: Formula)
    requires Closes(data, end)
    ensures TailAt(data, end, [l, r], [k]) == Step(Ok(Binary(k, l, r)), end)
  {
    TailStops(data, end, [l, r], [k]);
    ResolvePair(k, l, r);
  }

  /** `parse_logic_proposition(str(f)) == f` for every formula whose atom
      names read back as atoms. */
  lemma PropositionOfShow(f: Formula)
    requires WellNamed(f)
    ensures Proposition(Show(f)) == Ok(f)
  {
    ExprShow(Show(f), 0, f);
  }

  /** Printing whatever `parse_logic_proposition` returns and parsing the
      text again gives the same formula back. */
  lemma ReparseShow(data: string)
    ensures Proposition(data).Ok? ==> Proposition(Show(Proposition(data).value)) == Proposition(data)
  {
    if Proposition(data).Ok? {
      PropositionOfShow(Proposition(data).value);
    }
  }

  /** The top-level expression does not have to consume all input. It stops
      at a `)`, and at a `(` where an operator is expected (`word` raises the
      end-of-input error there). Whatever follows is never read, so a
      well-named formula followed by either parenthesis and any text still
      parses to itself. */
  lemma ShowThenParen(f: Formula, c: char, rest: string)
    requires WellNamed(f) && (c == ')' || c == '(')
    ensures Proposition(Show(f) + [c] + rest) == Ok(f)
  {
    var data := Show(f) + [c] + rest;
    assert At(data, 0, Show(f)) by {
      forall k | 0 <= k < |Show(f)|
        ensures data[k] == Show(f)[k]
      {
      }
    }
    assert data[|Show(f)|] == c;
    ExprShow(data, 0, f);
  }

  /** A word in operator position that names no operator is an error,
      reported one past the end of the word. The word is a maximal run of
      text characters or of code characters. */
  lemma {:induction false} UnknownOperatorAfter(f: Formula, w: string, cl: CharClass, rest: string)
    requires WellNamed(f) && cl != Space
    requires |w| > 0 && forall k | 0 <= k < |w| :: InClass(w[k], cl)
    requires Operator(Lower(w)).None?
    requires rest == [] || !InClass(rest[0], cl)
    ensures Proposition("(" + Show(f) + ")" + " " + w + rest)
      == Err(ParseError(UnknownOperatorMessage(w), |Show(f)| + 4 + |w|))
  {
    hide ExpressionAt, TailAt, FormulaAt, WordFormulaAt, OperatorTailAt, Operator, Synonyms, Lower, WordAt, RunEnd, Show, At;
    var data := "(" + Show(f) + ")" + " " + w + rest;
    OperatorLayout(data, "(" + Show(f) + ")", w, rest);
    UnknownOperatorAt(data, f, w, cl);
  }

  lemma {:induction false} OperatorLayout(data: string, a: string, w: string, rest: string)
    requires data == a + " " + w + rest
    ensures At(data, 0, a) && At(data, |a|, " ") && At(data, |a| + 1, w) && At(data, |a| + 1 + |w|, rest)
    ensures |data| == |a| + 1 + |w| + |rest|
    ensures rest != [] ==> data[|a| + 1 + |w|] == rest[0]
  {
    hide At;
    var s := a + " ";
    assert |s| == |a| + 1 && |s + w| == |a| + 1 + |w|;
    AtWhole(data);
    AtConcat(data, 0, s + w, rest);
    AtConcat(data, 0, s, w);
    AtConcat(data, 0, a, " ");
    if rest != [] {
      AtChar(data, |a| + 1 + |w|, rest, 0);
    }
  }

  lemma {:induction false} UnknownOperatorAt(data: string, f: Formula, w: string, cl: CharClass)
    requires WellNamed(f) && cl != Space
    requires |w| > 0 && forall k | 0 <= k < |w| :: InClass(w[k], cl)
    requires Operator(Lower(w)).None?
    requires At(data, 0, "(" + Show(f) + ")") && At(data, |Show(f)| + 2, " ") && At(data, |Show(f)| + 3, w)
    requires |Show(f)| + 3 + |w| == |data| || !InClass(data[|Show(f)| + 3 + |w|], cl)
    ensures ExpressionAt(data, 0).result == Err(ParseError(UnknownOperatorMessage(w), |Show(f)| + 4 + |w|))
  {
    hide ExpressionAt, TailAt, FormulaAt, WordFormulaAt, OperatorTailAt, Operator, Synonyms, Lower, WordAt, RunEnd, Show, At, WellNamed;
    LeftExpression(data, 0, f);
    UnknownWordTail(data, |Show(f)| + 2, w, cl, [f], []);
  }

  /** The operator loop meets one space and then a word that names no
      operator. */
  lemma {:induction false} UnknownWordTail(data: string, p: nat, w: string, cl: CharClass, exprs: seq<Formula>, ops: seq<Kind>)
    requires |exprs| == |ops| + 1 && cl != Space
    requires |w| > 0 && forall k | 0 <= k < |w| :: InClass(w[k], cl)
    requires Operator(Lower(w)).None?
    requires At(data, p, " ") && At(data, p + 1, w)
    requires p + 1 + |w| == |data| || !InClass(data[p + 1 + |w|], cl)
    ensures TailAt(data, p, exprs, ops) == Step(Err(ParseError(UnknownOperatorMessage(w), p + 2 + |w|)), p + 1 + |w|)
  {
    hide ExpressionAt, TailAt, FormulaAt, WordFormulaAt, OperatorTailAt, Operator, Synonyms, Lower, WordAt, RunEnd, Resolve;
    AtChar(data, p, " ", 0);
    AtChar(data, p + 1, w, 0);
    SpaceThenWord(data, p);
    if cl == Text {
      TextWordAt(data, p + 1, w);
    } else {
      CodeWordAt(data, p + 1, w);
    }
    TailUnknown(data, p, exprs, ops);
  }

  /** Adjacent symbol characters make one code word: `&!` between two
      parenthesised formulas is one unknown operator, not a conjunction
      followed by a negation. */
  lemma AdjacentSymbols(f: Formula, g: Formula)
    requires WellNamed(f) && WellNamed(g)
    ensures Proposition("(" + Show(f) + ")" + " " + "&!" + ("(" + Show(g) + ")"))
      == Err(ParseError(UnknownOperatorMessage("&!"), |Show(f)| + 6))
  {
    hide ExpressionAt, TailAt, FormulaAt, WordFormulaAt, OperatorTailAt, WordAt, RunEnd, Show, At, Operator, Lower, Synonyms;
    AmpBangUnknown();
    UnknownOperatorAfter(f, "&!", Code, "(" + Show(g) + ")");
  }

  lemma AmpBangUnknown()
    ensures Operator(Lower("&!")).None?
  {
    LowerChars("&!");
    assert Lower("&!") == "&!";
  }

  /** `~` is a NOT word in formula position and the equivalence operator in
      operator position. */
  lemma TildeTwoWays()
    ensures Lower("~") in NotWords
    ensures Operator(Lower("~")) == Some(Equivalence)
  {
    LowerChars("~");
    assert Lower("~") == "~";
    assert "~" in Synonyms(Equivalence);
    OperatorOfSynonym(Equivalence, "~");
  }

  /** `~` before a parenthesised formula negates it. */
  lemma TildeNegation(f: Formula)
    requires WellNamed(f)
    ensures Proposition("~(" + Show(f) + ")") == Ok(Negation(f))
  {
    var inner := "(" + Show(f) + ")";
    var data := "~" + inner;
    assert "~(" + Show(f) + ")" == data;
    AtWhole(data);
    AtConcat(data, 0, "~", inner);
    NegationWordAt(data, "~", f);
  }

  /** A NOT code word before a parenthesised formula. */
  lemma NegationWordAt(data: string, w: string, f: Formula)
    requires WellNamed(f) && w == "~"
    requires At(data, 0, w) && At(data, |w|, "(" + Show(f) + ")")
    requires |data| == |w| + |Show(f)| + 2
    ensures ExpressionAt(data, 0) == Step(Ok(Negation(f)), |data|)
  {
    TildeTwoWays();
    hide ExpressionAt, TailAt, FormulaAt, WordFormulaAt, OperatorTailAt, Balanced, Lower, Operator, NotWords;
    AtChar(data, 0, w, 0);
    AtOpen(data, |w|, Show(f));
    CodeWordAt(data, 0, w);
    ParenShow(data, |w|, f);
    FormulaNot(data, 0, w, |w|, |w|, f, |data|);
    RunEndStops(data, 0, Space);
    ExpressionStart(data, 0, Negation(f), |data|);
    SimpleTail(data, |data|, Negation(f));
  }

  /** `~` between two parenthesised formulas is their equivalence. */
  lemma TildeEquivalence(f: Formula, g: Formula)
    requires WellNamed(f) && WellNamed(g)
    ensures Proposition("(" + Show(f) + ")" + "~" + "(" + Show(g) + ")") == Ok(Binary(Equivalence, f, g))
  {
    var data := "(" + Show(f) + ")" + "~" + "(" + Show(g) + ")";
    AtWhole(data);
    PiecesAt(data, 0, Show(f), "~", Show(g));
    hide ExpressionAt, TailAt, FormulaAt, WordFormulaAt, OperatorTailAt, Balanced;
    EquivalenceWordAt(data, |Show(f)| + 2, "~", f, g);
  }

  /** A code word naming equivalence between two parenthesised formulas. */
  lemma EquivalenceWordAt(data: string, j: nat, w: string, f: Formula, g: Formula)
    requires WellNamed(f) && WellNamed(g) && w == "~"
    requires At(data, 0, "(" + Show(f) + ")") && j == |Show(f)| + 2
    requires At(data, j, w) && At(data, j + |w|, "(" + Show(g) + ")")
    requires |data| == j + |w| + |Show(g)| + 2
    ensures ExpressionAt(data, 0) == Step(Ok(Binary(Equivalence, f, g)), |data|)
  {
    hide ExpressionAt, TailAt, FormulaAt, WordFormulaAt, OperatorTailAt, Balanced, At, Show, WellNamed;
    LeftExpression(data, 0, f);
    TildeTail(data, j, j + |w|, w, f, g);
  }

  lemma TildeTail(data: string, j: nat, k: nat, w: string, f: Formula, g: Formula)
    requires WellNamed(g) && w == "~" && k == j + |w|
    requires At(data, j, w) && At(data, k, "(" + Show(g) + ")")
    requires |data| == k + |Show(g)| + 2
    ensures TailAt(data, j, [f], []) == Step(Ok(Binary(Equivalence, f, g)), |data|)
  {
    TildeTwoWays();
    assert forall c | 0 <= c < |w| :: IsCode(w[c]);
    hide ExpressionAt, TailAt, FormulaAt, WordFormulaAt, OperatorTailAt, Balanced, Lower, Operator, NotWords;
    ParenShowEnds(data, k, g, |data|);
    OperatorWordShow(data, j, w, Equivalence, f, g, |data|);
    PairTail(data, |data|, Equivalence, f, g);
  }

  /** `ParenShow` with the end of the parenthesised formula given as `end`. */
  lemma ParenShowEnds(data: string, k: nat, g: Formula, end: nat)
    requires WellNamed(g) && At(data, k, "(" + Show(g) + ")") && end == k + |Show(g)| + 2
    ensures k < |data| && data[k] == '(' && FormulaAt(data, k) == Step(Ok(g), end)
  {
    AtOpen(data, k, Show(g));
    ParenShow(data, k, g);
  }
}
