/** The word classes, keyword tables and grammar of the proposition parser,
    written as functions of the text and a start offset. Each function gives
    what the corresponding parser method returns or raises, together with
    the offset the reader is left at (`Step`). */
module Grammar {
  import opened Results
  import opened Reader
  import opened SyntaxTree

  // ---------------------------------------------------------------------
  // Character classes

  predicate IsSpace(c: char) {
    c == ' ' || c == '\t' || c == '\n' || c == '\r'
  }

  predicate IsLetter(c: char) {
    'a' <= c <= 'z' || 'A' <= c <= 'Z'
  }

  predicate IsDigit(c: char) {
    '0' <= c <= '9'
  }

  /** ASCII letters and digits. */
  predicate IsText(c: char) {
    IsLetter(c) || IsDigit(c)
  }

  predicate IsSpecial(c: char) {
    c == '(' || c == ')'
  }

  /** Characters of a code word: neither space, text, nor parenthesis. */
  predicate IsCode(c: char) {
    !IsSpace(c) && !IsText(c) && !IsSpecial(c)
  }

  datatype CharClass = Space | Text | Code

  predicate InClass(c: char, cl: CharClass) {
    match cl
    case Space => IsSpace(c)
    case Text => IsText(c)
    case Code => IsCode(c)
  }

  /** The end of the maximal run of `cl` characters that starts at `i`. */
  function RunEnd(data: string, i: nat, cl: CharClass): (j: nat)
    requires i <= |data|
    ensures i <= j <= |data|
    ensures j == |data| || !InClass(data[j], cl)
    decreases |data| - i
  {
    if i == |data| || !InClass(data[i], cl) then i else RunEnd(data, i + 1, cl)
  }

  /** Every character of the run is of class `cl`, so together with the
      stop condition of `RunEnd` the run is maximal. */
  lemma {:induction false} RunEndClass(data: string, i: nat, cl: CharClass)
    requires i <= |data|
    ensures forall k | i <= k < RunEnd(data, i, cl) :: InClass(data[k], cl)
    decreases |data| - i
  {
    if i < |data| && InClass(data[i], cl) {
      RunEndClass(data, i + 1, cl);
    }
  }

  // ---------------------------------------------------------------------
  // Keyword tables

  const TrueWords: set<string> := {"T", "1", "\U{22A4}"}
  const FalseWords: set<string> := {"F", "0", "\U{22A5}"}
  const NotWords: set<string> := {"!", "not", "\U{00AC}", "~"}

  // The messages of the syntax errors that name the offending word or
  // operator.
  function FormulaStartMessage(word: string): string { "Invalid operator starting formula: " + word }
  function LiteralStartMessage(word: string): string { "Literal starts with invalid character: " + word }
  function UnknownOperatorMessage(word: string): string { "Unknown operator: " + word }
  function AtomOperatorMessage(word: string): string { "Invalid operator in atom values string: " + word }
  function AfterNotMessage(word: string): string { "After NOT operator there must be literal, not code word: " + word }

  /** A name `assert_literal` accepts: a text word that starts with a
      letter. */
  predicate LiteralName(n: string) {
    && |n| > 0
    && IsLetter(n[0])
    && forall k | 0 <= k < |n| :: IsText(n[k])
  }

  /** A name the formula parser reads as an atom: a literal name that is
      neither a NOT word nor a truth constant. */
  predicate ValidName(n: string) {
    && LiteralName(n)
    && Lower(n) !in NotWords
    && n !in TrueWords
    && n !in FalseWords
  }

  predicate NamesValid(names: set<string>) {
    forall n | n in names :: ValidName(n)
  }

  /** Every atom of the formula has a name the parser reads as that atom. */
  predicate WellNamed(f: Formula) {
    match f
    case Constant(_) => true
    case Atom(n) => ValidName(n)
    case Negation(x) => WellNamed(x)
    case Binary(_, l, r) => WellNamed(l) && WellNamed(r)
  }

  lemma {:induction false} WellNamedAtoms(f: Formula)
    ensures WellNamed(f) <==> NamesValid(Atoms(f))
  {
    match f
    case Constant(_) =>
    case Atom(_) =>
    case Negation(x) =>
      WellNamedAtoms(x);
    case Binary(_, l, r) =>
      WellNamedAtoms(l);
      WellNamedAtoms(r);
  }

  /** The synonyms of each two-argument operator. */
  function Synonyms(k: Kind): set<string> {
    match k
    case Conjunction => {"/\\", "and", "\U{2227}\U{2227}", "\U{00B7}", ".", "&", "&&"}
    case Disjunction => {"\\/", "or", "\U{2228}", "+", "\U{2225}", "||", "|"}
    case ExclusiveDisjunction => {"xor", "^", "\U{2295}", "\U{22BB}", "\U{21AE}", "\U{2262}"}
    case Implication => {"->", ">", "impl", "implies", "\U{21D2}", "\U{2192}", "\U{2283}"}
    case Equivalence =>
      {"<->", "<>", "=", "==", "eq", "equals", "\U{2261}", "\U{2237}", "::", "\U{21D4}", "\U{2194}", "~", "\U{27DA}"}
  }

  /** The order in which the operator tiers are folded, tightest first. */
  const OperatorOrder: seq<Kind> :=
    [Conjunction, Disjunction, ExclusiveDisjunction, Implication, Equivalence]

  /** The operator a (lower-cased) word denotes. */
  function Operator(w: string): (r: Option<Kind>)
    ensures r.Some? ==> w in Synonyms(r.value)
    ensures r.None? ==> forall k :: w !in Synonyms(k)
  {
    if w in Synonyms(Conjunction) then Some(Conjunction)
    else if w in Synonyms(Disjunction) then Some(Disjunction)
    else if w in Synonyms(ExclusiveDisjunction) then Some(ExclusiveDisjunction)
    else if w in Synonyms(Implication) then Some(Implication)
    else if w in Synonyms(Equivalence) then Some(Equivalence)
    else None
  }

  /** No word is a synonym of two operators, so the word-to-operator
      dictionary built from the table maps every synonym to its own
      operator, whatever order the table is read in. */
  lemma OperatorOfSynonym(k: Kind, w: string)
    requires w in Synonyms(k)
    ensures Operator(w) == Some(k)
  {
    forall k2 | k2 != k
      ensures w !in Synonyms(k2)
    {
      SynonymsApart(k, k2, w);
    }
  }

  /** The synonym lists of two different operators share no word. */
  lemma SynonymsApart(k1: Kind, k2: Kind, w: string)
    requires k1 != k2
    ensures !(w in Synonyms(k1) && w in Synonyms(k2))
  {
    match (k1, k2)
    case (Conjunction, Disjunction) => ConjunctionDisjunctionApart(w);
    case (Conjunction, ExclusiveDisjunction) => ConjunctionExclusiveDisjunctionApart(w);
    case (Conjunction, Implication) => ConjunctionImplicationApart(w);
    case (Conjunction, Equivalence) => ConjunctionEquivalenceApart(w);
    case (Disjunction, Conjunction) => ConjunctionDisjunctionApart(w);
    case (Disjunction, ExclusiveDisjunction) => DisjunctionExclusiveDisjunctionApart(w);
    case (Disjunction, Implication) => DisjunctionImplicationApart(w);
    case (Disjunction, Equivalence) => DisjunctionEquivalenceApart(w);
    case (ExclusiveDisjunction, Conjunction) => ConjunctionExclusiveDisjunctionApart(w);
    case (ExclusiveDisjunction, Disjunction) => DisjunctionExclusiveDisjunctionApart(w);
    case (ExclusiveDisjunction, Implication) => ExclusiveDisjunctionImplicationApart(w);
    case (ExclusiveDisjunction, Equivalence) => ExclusiveDisjunctionEquivalenceApart(w);
    case (Implication, Conjunction) => ConjunctionImplicationApart(w);
    case (Implication, Disjunction) => DisjunctionImplicationApart(w);
    case (Implication, ExclusiveDisjunction) => ExclusiveDisjunctionImplicationApart(w);
    case (Implication, Equivalence) => ImplicationEquivalenceApart(w);
    case (Equivalence, Conjunction) => ConjunctionEquivalenceApart(w);
    case (Equivalence, Disjunction) => DisjunctionEquivalenceApart(w);
    case (Equivalence, ExclusiveDisjunction) => ExclusiveDisjunctionEquivalenceApart(w);
    case (Equivalence, Implication) => ImplicationEquivalenceApart(w);
  }

  lemma ConjunctionDisjunctionApart(w: string)
    ensures !(w in Synonyms(Conjunction) && w in Synonyms(Disjunction))
  {
  }

  lemma ConjunctionExclusiveDisjunctionApart(w: string)
    ensures !(w in Synonyms(Conjunction) && w in Synonyms(ExclusiveDisjunction))
  {
  }

  lemma ConjunctionImplicationApart(w: string)
    ensures !(w in Synonyms(Conjunction) && w in Synonyms(Implication))
  {
  }

  lemma ConjunctionEquivalenceApart(w: string)
    ensures !(w in Synonyms(Conjunction) && w in Synonyms(Equivalence))
  {
  }

  lemma DisjunctionExclusiveDisjunctionApart(w: string)
    ensures !(w in Synonyms(Disjunction) && w in Synonyms(ExclusiveDisjunction))
  {
  }

  lemma DisjunctionImplicationApart(w: string)
    ensures !(w in Synonyms(Disjunction) && w in Synonyms(Implication))
  {
  }

  lemma DisjunctionEquivalenceApart(w: string)
    ensures !(w in Synonyms(Disjunction) && w in Synonyms(Equivalence))
  {
  }

  lemma ExclusiveDisjunctionImplicationApart(w: string)
    ensures !(w in Synonyms(ExclusiveDisjunction) && w in Synonyms(Implication))
  {
  }

  lemma ExclusiveDisjunctionEquivalenceApart(w: string)
    ensures !(w in Synonyms(ExclusiveDisjunction) && w in Synonyms(Equivalence))
  {
  }

  lemma ImplicationEquivalenceApart(w: string)
    ensures !(w in Synonyms(Implication) && w in Synonyms(Equivalence))
  {
  }

  /** ASCII lower-casing (`str.lower` on the words that can match a
      keyword). */
  function LowerChar(c: char): char {
    if 'A' <= c <= 'Z' then (c as int + 32) as char else c
  }

  function Lower(s: string): (r: string)
    ensures |r| == |s|
  {
    if s == [] then [] else [LowerChar(s[0])] + Lower(s[1..])
  }

  /** `Lower` lower-cases each character on its own. */
  lemma {:induction false} LowerChars(s: string)
    ensures forall i | 0 <= i < |s| :: Lower(s)[i] == LowerChar(s[i])
  {
    if s != [] {
      LowerChars(s[1..]);
      forall i | 0 < i < |s|
        ensures Lower(s)[i] == LowerChar(s[i])
      {
        assert Lower(s)[i] == Lower(s[1..])[i - 1];
      }
    }
  }

  // ---------------------------------------------------------------------
  // Words

  /** What a parser call produced, and where it left the reader. */
  datatype Step<T> = Step(result: Result<T, ParseError>, pos: nat)

  /** A word, whether it is a text word, and the characters consumed for it
      including the spaces before it. */
  datatype ScannedWord = ScannedWord(text: string, isText: bool, length: nat)

  /** `word_text` / `word_code`: the maximal run of `cl` characters at `i`;
      an empty run raises the end-of-input error. */
  function RunAt(data: string, i: nat, cl: CharClass): (s: Step<string>)
    requires i <= |data|
    ensures s.pos == RunEnd(data, i, cl)
    ensures s.result.Err? <==> s.pos == i
    ensures s.result.Err? ==> s.result.error == ParseEOFError(i)
    ensures s.result.Ok? ==> s.result.value == data[i..s.pos]
    ensures s.result.Ok? ==> forall k | 0 <= k < |s.result.value| :: InClass(s.result.value[k], cl)
  {
    RunEndClass(data, i, cl);
    var j := RunEnd(data, i, cl);
    if j == i then Step(Err(ParseEOFError(i)), i) else Step(Ok(data[i..j]), j)
  }

  /** `word`: skip spaces, then a text word if a letter or digit follows,
      otherwise a code word. */
  function WordAt(data: string, i: nat): (s: Step<ScannedWord>)
    requires i <= |data|
    ensures i <= s.pos <= |data|
    ensures s.result.Err? <==> var j := RunEnd(data, i, Space); j == |data| || IsSpecial(data[j])
    ensures s.result.Err? ==> s.pos == RunEnd(data, i, Space) && s.result.error == ParseEOFError(s.pos)
    ensures s.result.Ok? ==>
      && s.pos == i + s.result.value.length
      && 0 < |s.result.value.text| <= s.result.value.length
      && s.result.value.text == data[s.pos - |s.result.value.text|..s.pos]
    ensures s.result.Ok? ==>
      var j := s.pos - |s.result.value.text|;
      var cl := if s.result.value.isText then Text else Code;
      && j == RunEnd(data, i, Space)
      && s.result.value.isText == IsText(data[j])
      && s.pos == RunEnd(data, j, cl)
      && forall k | 0 <= k < |s.result.value.text| :: InClass(s.result.value.text[k], cl)
  {
    var j := RunEnd(data, i, Space);
    if j == |data| then Step(Err(ParseEOFError(j)), j)
    else
      var isText := IsText(data[j]);
      var w := RunAt(data, j, if isText then Text else Code);
      match w.result
      case Err(e) => Step(Err(e), w.pos)
      case Ok(text) => Step(Ok(ScannedWord(text, isText, |text| + (j - i))), w.pos)
  }

  // ---------------------------------------------------------------------
  // Operator folding

  /** The atom names of a list of operands. */
  function AtomsOf(exprs: seq<Formula>): set<string> {
    if exprs == [] then {} else Atoms(exprs[0]) + AtomsOf(exprs[1..])
  }

  lemma {:induction false} AtomsOfConcat(a: seq<Formula>, b: seq<Formula>)
    ensures AtomsOf(a + b) == AtomsOf(a) + AtomsOf(b)
  {
    if a == [] {
      assert a + b == b;
    } else {
      assert (a + b)[1..] == a[1..] + b;
      AtomsOfConcat(a[1..], b);
    }
  }

  lemma AtomsOfOne(x: Formula)
    ensures AtomsOf([x]) == Atoms(x)
  {
    assert [x][1..] == [];
  }

  /** Joining two neighbouring operands into one node keeps the atoms. */
  lemma {:induction false} JoinKeepsAtoms(exprs: seq<Formula>, off: nat, k: Kind)
    requires off + 1 < |exprs|
    ensures AtomsOf(exprs[..off] + [Binary(k, exprs[off], exprs[off + 1])] + exprs[off + 2..]) == AtomsOf(exprs)
  {
    var a, x, y, b := exprs[..off], exprs[off], exprs[off + 1], exprs[off + 2..];
    assert exprs == a + [x] + [y] + b;
    AtomsOfOne(x);
    AtomsOfOne(y);
    AtomsOfOne(Binary(k, x, y));
    hide AtomsOf;
    AtomsOfConcat(a + [x] + [y], b);
    AtomsOfConcat(a + [x], [y]);
    AtomsOfConcat(a, [x]);
    AtomsOfConcat(a + [Binary(k, x, y)], b);
    AtomsOfConcat(a, [Binary(k, x, y)]);
  }

  /** `ops` without the operators of kind `k`. */
  function Without(ops: seq<Kind>, k: Kind): (r: seq<Kind>)
    ensures forall o :: o in r <==> o in ops && o != k
  {
    if ops == [] then []
    else if ops[0] == k then Without(ops[1..], k)
    else [ops[0]] + Without(ops[1..], k)
  }

  /** One tier of the fold, scanning from index `off`: every operator of
      kind `k` joins its left and right operands into one node. */
  function FoldTier(exprs: seq<Formula>, ops: seq<Kind>, k: Kind, off: nat): (r: (seq<Formula>, seq<Kind>))
    requires |exprs| == |ops| + 1 && off <= |ops|
    ensures |r.0| == |r.1| + 1
    ensures r.1 == ops[..off] + Without(ops[off..], k)
    ensures AtomsOf(r.0) == AtomsOf(exprs)
    decreases |ops| - off
  {
    if off == |ops| then (exprs, ops)
    else if ops[off] == k then
      JoinKeepsAtoms(exprs, off, k);
      assert ops[off..] == [ops[off]] + ops[off + 1..];
      assert (ops[..off] + ops[off + 1..])[off..] == ops[off + 1..];
      FoldTier(exprs[..off] + [Binary(k, exprs[off], exprs[off + 1])] + exprs[off + 2..],
               ops[..off] + ops[off + 1..], k, off)
    else
      assert ops[off..] == [ops[off]] + ops[off + 1..];
      assert ops[..off + 1] == ops[..off] + [ops[off]];
      FoldTier(exprs, ops, k, off + 1)
  }

  /** The tiers in turn; what is left are the operators of no listed tier. */
  function FoldTiers(exprs: seq<Formula>, ops: seq<Kind>, tiers: seq<Kind>): (r: (seq<Formula>, seq<Kind>))
    requires |exprs| == |ops| + 1
    ensures |r.0| == |r.1| + 1
    ensures forall o :: o in r.1 <==> o in ops && o !in tiers
    ensures AtomsOf(r.0) == AtomsOf(exprs)
    decreases |tiers|
  {
    if tiers == [] then (exprs, ops)
    else
      var t := FoldTier(exprs, ops, tiers[0], 0);
      FoldTiers(t.0, t.1, tiers[1..])
  }

  /** The formula an operand/operator list denotes: the only operand left
      after the five tiers. */
  function Resolve(exprs: seq<Formula>, ops: seq<Kind>): (f: Formula)
    requires |exprs| == |ops| + 1
    ensures Atoms(f) == AtomsOf(exprs)
  {
    FoldLeavesOne(exprs, ops);
    var r := FoldTiers(exprs, ops, OperatorOrder);
    assert r.0 == [r.0[0]];
    AtomsOfOne(r.0[0]);
    r.0[0]
  }

  /** After the five tiers no operator is left and a single operand
      remains. */
  lemma FoldLeavesOne(exprs: seq<Formula>, ops: seq<Kind>)
    requires |exprs| == |ops| + 1
    ensures var r := FoldTiers(exprs, ops, OperatorOrder); r.1 == [] && |r.0| == 1
  {
    hide FoldTiers, FoldTier;
    var r := FoldTiers(exprs, ops, OperatorOrder);
    if r.1 != [] {
      assert r.1[0] in r.1;
      OrderHasAll(r.1[0]);
      assert false;
    }
  }

  /** Every operator has a tier. */
  lemma OrderHasAll(o: Kind)
    ensures o in OperatorOrder
  {
    match o
    case Conjunction => assert OperatorOrder[0] == o;
    case Disjunction => assert OperatorOrder[1] == o;
    case ExclusiveDisjunction => assert OperatorOrder[2] == o;
    case Implication => assert OperatorOrder[3] == o;
    case Equivalence => assert OperatorOrder[4] == o;
  }


  // ---------------------------------------------------------------------
  // Formulas and expressions

  /** `formula`: a parenthesised expression, or a formula that starts with
      a word. */
  function FormulaAt(data: string, i: nat): (s: Step<Formula>)
    requires i <= |data|
    ensures i <= s.pos <= |data|
    ensures s.result.Ok? ==> i < s.pos
    ensures s.result.Ok? ==> WellNamed(s.result.value)
    decreases |data| - i, 3
  {
    if i == |data| then Step(Err(ParseEOFError(i)), i)
    else if data[i] == '(' then
      var e := ExpressionAt(data, i + 1);
      if e.result.Err? then e
      else if e.pos == |data| then Step(Err(ParseEOFError(|data|)), |data|)
      else Step(e.result, e.pos + 1)
    else WordFormulaAt(data, i)
  }

  /** The rest of `formula` once the next character is not `(`: a NOT word
      and a formula, a truth constant or an atom. */
  function WordFormulaAt(data: string, i: nat): (s: Step<Formula>)
    requires i <= |data|
    ensures i <= s.pos <= |data|
    ensures s.result.Ok? ==> i < s.pos
    ensures s.result.Ok? ==> WellNamed(s.result.value)
    decreases |data| - i, 2
  {
    var w := WordAt(data, i);
    match w.result
    case Err(err) => Step(Err(err), w.pos)
    case Ok(ScannedWord(text, isText, _)) =>
      if Lower(text) in NotWords then
        var g := FormulaAt(data, w.pos);
        match g.result
        case Err(_) => g
        case Ok(x) => Step(Ok(Negation(x)), g.pos)
      else if !isText then
        Step(Err(ParseError(FormulaStartMessage(text), i + 1)), i)
      else if text in TrueWords then Step(Ok(Constant(true)), w.pos)
      else if text in FalseWords then Step(Ok(Constant(false)), w.pos)
      else if !IsLetter(text[0]) then
        Step(Err(ParseError(LiteralStartMessage(text), i + 1)), i)
      else Step(Ok(Atom(text)), w.pos)
  }

  /** `expression`: spaces, a first formula, then the operator/formula pairs. */
  function ExpressionAt(data: string, i: nat): (s: Step<Formula>)
    requires i <= |data|
    ensures i <= s.pos <= |data|
    ensures s.result.Ok? ==> i < s.pos
    ensures s.result.Ok? ==> WellNamed(s.result.value)
    decreases |data| - i, 4
  {
    var j := RunEnd(data, i, Space);
    var f := FormulaAt(data, j);
    match f.result
    case Err(_) => f
    case Ok(x) =>
      WellNamedAtoms(x);
      AtomsOfOne(x);
      TailAt(data, f.pos, [x], [])
  }

  /** The operator loop of `expression`, with the operands and operators
      collected so far. It stops at `)` and at the end of the text. */
  function TailAt(data: string, i: nat, exprs: seq<Formula>, ops: seq<Kind>): (s: Step<Formula>)
    requires i <= |data| && |exprs| == |ops| + 1
    ensures i <= s.pos <= |data|
    ensures s.result.Ok? && NamesValid(AtomsOf(exprs)) ==> WellNamed(s.result.value)
    decreases |data| - i, 1
  {
    var j := RunEnd(data, i, Space);
    WellNamedAtoms(Resolve(exprs, ops));
    if j == |data| || data[j] == ')' then Step(Ok(Resolve(exprs, ops)), j)
    else OperatorTailAt(data, j, exprs, ops)
  }

  /** One round of the operator loop at a character that is neither `)` nor
      a space: an operator word and a formula. A word scan that raises the
      end-of-input error (a `(` in operator position does) ends the loop. */
  function OperatorTailAt(data: string, j: nat, exprs: seq<Formula>, ops: seq<Kind>): (s: Step<Formula>)
    requires j <= |data| && |exprs| == |ops| + 1
    ensures j <= s.pos <= |data|
    ensures s.result.Ok? && NamesValid(AtomsOf(exprs)) ==> WellNamed(s.result.value)
    decreases |data| - j, 0
  {
    WellNamedAtoms(Resolve(exprs, ops));
    var w := WordAt(data, j);
    match w.result
    case Err(ParseEOFError(_)) => Step(Ok(Resolve(exprs, ops)), w.pos)
    case Err(err) => Step(Err(err), w.pos)
    case Ok(word) =>
      match Operator(Lower(word.text))
      case None => Step(Err(ParseError(UnknownOperatorMessage(word.text), w.pos + 1)), w.pos)
      case Some(k) =>
        var f := FormulaAt(data, RunEnd(data, w.pos, Space));
        match f.result
        case Err(_) => f
        case Ok(x) =>
          WellNamedAtoms(x);
          AtomsOfConcat(exprs, [x]);
          AtomsOfOne(x);
          TailAt(data, f.pos, exprs + [x], ops + [k])
  }

  /** `parse_logic_proposition`: one expression from the start of the text;
      text after it is not looked at. */
  function Proposition(data: string): (r: Result<Formula, ParseError>)
    ensures r.Ok? ==> WellNamed(r.value)
  {
    ExpressionAt(data, 0).result
  }

  // ---------------------------------------------------------------------
  // Atom-value strings

  /** `atom`: a name, optionally after a NOT word, which gives it the value
      false. */
  function AtomAt(data: string, i: nat): (s: Step<(string, bool)>)
    requires i <= |data|
    ensures i <= s.pos <= |data|
    ensures s.result.Ok? ==> i < s.pos && LiteralName(s.result.value.0)
  {
    var w := WordAt(data, i);
    match w.result
    case Err(e) => Step(Err(e), w.pos)
    case Ok(ScannedWord(text, isText, _)) =>
      if Lower(text) in NotWords then NegatedAtomAt(data, w.pos)
      else if !isText then
        Step(Err(ParseError(AtomOperatorMessage(text), i + 1)), i)
      else if !IsLetter(text[0]) then
        Step(Err(ParseError(LiteralStartMessage(text), i + 1)), i)
      else Step(Ok((text, true)), w.pos)
  }

  /** The name after a NOT word of an atom-value string, which gets the
      value false. */
  function NegatedAtomAt(data: string, j: nat): (s: Step<(string, bool)>)
    requires j <= |data|
    ensures j <= s.pos <= |data|
    ensures s.result.Ok? ==> j < s.pos && LiteralName(s.result.value.0) && !s.result.value.1
  {
    var w := WordAt(data, j);
    match w.result
    case Err(e) => Step(Err(e), w.pos)
    case Ok(ScannedWord(name, isText, _)) =>
      if !isText then
        Step(Err(ParseError(AfterNotMessage(name), j + 1)), j)
      else if !IsLetter(name[0]) then
        Step(Err(ParseError(LiteralStartMessage(name), j + 1)), j)
      else Step(Ok((name, false)), w.pos)
  }

  /** The loop of `atom_values` from offset `i` (just after spaces), with the
      values collected so far; a later name overwrites an earlier one. */
  function AtomValuesFrom(data: string, i: nat, acc: Assignment): (s: Step<Assignment>)
    requires i <= |data|
    ensures i <= s.pos <= |data|
    ensures s.result.Ok? ==> s.pos == |data| && acc.Keys <= s.result.value.Keys
    ensures s.result.Ok? ==> forall n | n in s.result.value && n !in acc :: LiteralName(n)
    decreases |data| - i
  {
    if i == |data| then Step(Ok(acc), i)
    else if IsSpecial(data[i]) then
      Step(Err(ParseError("You can't use special characters in atom values string", i + 1)), i)
    else
      var a := AtomAt(data, i);
      match a.result
      case Err(e) => Step(Err(e), a.pos)
      case Ok((name, value)) => AtomValuesFrom(data, RunEnd(data, a.pos, Space), acc[name := value])
  }

  /** `parse_atom_values`. */
  function AtomValues(data: string): (r: Result<Assignment, ParseError>)
    ensures r.Ok? ==> forall n | n in r.value :: LiteralName(n)
  {
    AtomValuesFrom(data, RunEnd(data, 0, Space), map[]).result
  }

  // ---------------------------------------------------------------------
  // Single unfoldings used by the parser proofs

  /** `expression` reads a first formula after the spaces, then runs the
      operator loop. */
  lemma ExpressionFirst(data: string, i: nat)
    requires i <= |data|
    ensures var f := FormulaAt(data, RunEnd(data, i, Space));
      && (f.result.Err? ==> ExpressionAt(data, i) == f)
      && (f.result.Ok? ==> ExpressionAt(data, i) == TailAt(data, f.pos, [f.result.value], []))
  {
  }

  /** The operator loop stops at `)` or the end of the text. */
  lemma TailCloses(data: string, i: nat, exprs: seq<Formula>, ops: seq<Kind>)
    requires i <= |data| && |exprs| == |ops| + 1
    requires var j := RunEnd(data, i, Space); j == |data| || data[j] == ')'
    ensures TailAt(data, i, exprs, ops) == Step(Ok(Resolve(exprs, ops)), RunEnd(data, i, Space))
  {
  }

  /** The operator loop stops where a word scan raises the end-of-input
      error. */
  lemma TailWordEnds(data: string, i: nat, exprs: seq<Formula>, ops: seq<Kind>)
    requires i <= |data| && |exprs| == |ops| + 1
    requires RunEnd(data, i, Space) < |data| && data[RunEnd(data, i, Space)] != ')'
    requires WordAt(data, RunEnd(data, i, Space)).result.Err?
    ensures TailAt(data, i, exprs, ops) == Step(Ok(Resolve(exprs, ops)), WordAt(data, RunEnd(data, i, Space)).pos)
  {
  }

  /** A word that is not an operator is a syntax error just after it. */
  lemma TailUnknown(data: string, i: nat, exprs: seq<Formula>, ops: seq<Kind>)
    requires i <= |data| && |exprs| == |ops| + 1
    requires RunEnd(data, i, Space) < |data| && data[RunEnd(data, i, Space)] != ')'
    requires WordAt(data, RunEnd(data, i, Space)).result.Ok?
    requires Operator(Lower(WordAt(data, RunEnd(data, i, Space)).result.value.text)).None?
    ensures var w := WordAt(data, RunEnd(data, i, Space));
      TailAt(data, i, exprs, ops) == Step(Err(ParseError(UnknownOperatorMessage(w.result.value.text), w.pos + 1)), w.pos)
  {
    hide Operator, Lower, WordAt, RunEnd, FormulaAt, Resolve, WellNamed, NamesValid, AtomsOf, Atoms;
    TailToOperator(data, i, exprs, ops);
    OperatorUnknown(data, RunEnd(data, i, Space), exprs, ops);
  }

  /** Before anything but `)` and the end, the operator loop reads an
      operator word. */
  lemma TailToOperator(data: string, i: nat, exprs: seq<Formula>, ops: seq<Kind>)
    requires i <= |data| && |exprs| == |ops| + 1
    requires RunEnd(data, i, Space) < |data| && data[RunEnd(data, i, Space)] != ')'
    ensures TailAt(data, i, exprs, ops) == OperatorTailAt(data, RunEnd(data, i, Space), exprs, ops)
  {
    hide Operator, Lower, WordAt, FormulaAt, OperatorTailAt, WellNamed, NamesValid, AtomsOf, Atoms;
  }

  lemma OperatorUnknown(data: string, j: nat, exprs: seq<Formula>, ops: seq<Kind>)
    requires j <= |data| && |exprs| == |ops| + 1
    requires WordAt(data, j).result.Ok?
    requires Operator(Lower(WordAt(data, j).result.value.text)).None?
    ensures var w := WordAt(data, j);
      OperatorTailAt(data, j, exprs, ops) == Step(Err(ParseError(UnknownOperatorMessage(w.result.value.text), w.pos + 1)), w.pos)
  {
    hide Operator, Lower, WordAt, RunEnd, FormulaAt, TailAt, Resolve, WellNamed, NamesValid, AtomsOf, Atoms;
  }

  /** One round of the operator loop of `expression`: an operator word of
      kind `k` followed by the formula `f`. */
  lemma TailAfterOperator(data: string, i: nat, exprs: seq<Formula>, ops: seq<Kind>, k: Kind, f: Step<Formula>)
    requires i <= |data| && |exprs| == |ops| + 1
    requires RunEnd(data, i, Space) < |data| && data[RunEnd(data, i, Space)] != ')'
    requires WordAt(data, RunEnd(data, i, Space)).result.Ok?
    requires Operator(Lower(WordAt(data, RunEnd(data, i, Space)).result.value.text)) == Some(k)
    requires f == FormulaAt(data, RunEnd(data, WordAt(data, RunEnd(data, i, Space)).pos, Space))
    ensures f.result.Err? ==> TailAt(data, i, exprs, ops) == f
    ensures f.result.Ok? ==> TailAt(data, i, exprs, ops) == TailAt(data, f.pos, exprs + [f.result.value], ops + [k])
  {
  }

  /** One round of the loop of `atom_values`. */
  lemma AtomValuesStep(data: string, i: nat, acc: Assignment)
    requires i <= |data|
    ensures i == |data| ==> AtomValuesFrom(data, i, acc) == Step(Ok(acc), i)
    ensures i < |data| && IsSpecial(data[i]) ==>
      AtomValuesFrom(data, i, acc)
        == Step(Err(ParseError("You can't use special characters in atom values string", i + 1)), i)
    ensures i < |data| && !IsSpecial(data[i]) && AtomAt(data, i).result.Err? ==>
      AtomValuesFrom(data, i, acc) == Step(Err(AtomAt(data, i).result.error), AtomAt(data, i).pos)
    ensures i < |data| && !IsSpecial(data[i]) && AtomAt(data, i).result.Ok? ==>
      var (name, value) := AtomAt(data, i).result.value;
      AtomValuesFrom(data, i, acc) == AtomValuesFrom(data, RunEnd(data, AtomAt(data, i).pos, Space), acc[name := value])
  {
  }
}
