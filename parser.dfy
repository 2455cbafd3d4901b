/** The recursive-descent parser over a `Reader`. Each method is proved to
    return, raise and move the reader exactly as the matching function of
    `Grammar` says. */
module Parser {
  import opened Results
  import opened Reader
  import opened SyntaxTree
  import opened Grammar

  /** The operator fold of `expression`: one left-to-right pass per tier, in
      `OperatorOrder`, merging the two operands around every operator of the
      tier in place. */
  method ResolveOperators(expression: seq<Formula>, operators: seq<Kind>) returns (f: Formula)
    requires |expression| == |operators| + 1
    ensures f == Resolve(expression, operators)
  {
    var exprs, ops := expression, operators;
    for t := 0 to |OperatorOrder|
      invariant |exprs| == |ops| + 1
      invariant FoldTiers(exprs, ops, OperatorOrder[t..]) == FoldTiers(expression, operators, OperatorOrder)
    {
      var k := OperatorOrder[t];
      ghost var tierExprs, tierOps := exprs, ops;
      var offset := 0;
      while offset < |ops|
        invariant offset <= |ops| && |exprs| == |ops| + 1
        invariant FoldTier(exprs, ops, k, offset) == FoldTier(tierExprs, tierOps, k, 0)
        decreases |ops| - offset
      {
        if ops[offset] == k {
          exprs := exprs[..offset] + [Binary(k, exprs[offset], exprs[offset + 1])] + exprs[offset + 2..];
          ops := ops[..offset] + ops[offset + 1..];
        } else {
          offset := offset + 1;
        }
      }
      assert OperatorOrder[t..][1..] == OperatorOrder[t + 1..];
    }
    f := exprs[0];
  }

  class Parser {
    const reader: Reader

    constructor (reader: Reader)
      ensures this.reader == reader
    {
      this.reader := reader;
    }

    /** `spaces`: consumes the maximal run of spaces and returns it. */
    method Spaces() returns (s: string)
      requires reader.Valid()
      modifies reader
      ensures reader.Valid()
      ensures reader.offset == RunEnd(reader.data, old(reader.offset), Space)
      ensures s == reader.data[old(reader.offset)..reader.offset]
    {
      ghost var start := reader.offset;
      s := "";
      while true
        invariant reader.Valid() && start <= reader.offset
        invariant RunEnd(reader.data, reader.offset, Space) == RunEnd(reader.data, start, Space)
        invariant s == reader.data[start..reader.offset]
        decreases |reader.data| - reader.offset
      {
        var eof := reader.IsEof();
        if eof {
          break;
        }
        var c := reader.Read();
        if !IsSpace(c.value) {
          break;
        }
        s := s + [c.value];
        var _ := reader.Forward(1);
      }
    }

    /** `word_text`: the maximal run of letters and digits; raises the
        end-of-input error when there is none. */
    method WordText() returns (r: Result<string, ParseError>)
      requires reader.Valid()
      modifies reader
      ensures reader.Valid()
      ensures Step(r, reader.offset) == RunAt(reader.data, old(reader.offset), Text)
    {
      ghost var start := reader.offset;
      var result := "";
      while true
        invariant reader.Valid() && start <= reader.offset
        invariant RunEnd(reader.data, reader.offset, Text) == RunEnd(reader.data, start, Text)
        invariant result == reader.data[start..reader.offset]
        decreases |reader.data| - reader.offset
      {
        var eof := reader.IsEof();
        if eof {
          break;
        }
        var c := reader.Read();
        if !IsText(c.value) {
          break;
        }
        result := result + [c.value];
        var _ := reader.Forward(1);
      }
      if result == "" {
        return Err(reader.EofError());
      }
      return Ok(result);
    }

    /** `word_code`: the maximal run of characters that are not spaces,
        letters, digits or parentheses; raises the end-of-input error when
        there is none. */
    method WordCode() returns (r: Result<string, ParseError>)
      requires reader.Valid()
      modifies reader
      ensures reader.Valid()
      ensures Step(r, reader.offset) == RunAt(reader.data, old(reader.offset), Code)
    {
      ghost var start := reader.offset;
      var result := "";
      while true
        invariant reader.Valid() && start <= reader.offset
        invariant RunEnd(reader.data, reader.offset, Code) == RunEnd(reader.data, start, Code)
        invariant result == reader.data[start..reader.offset]
        decreases |reader.data| - reader.offset
      {
        var eof := reader.IsEof();
        if eof {
          break;
        }
        var c := reader.Read();
        if !IsCode(c.value) {
          break;
        }
        result := result + [c.value];
        var _ := reader.Forward(1);
      }
      if result == "" {
        return Err(reader.EofError());
      }
      return Ok(result);
    }

    /** `word`: spaces, then a text word or a code word. */
    method Word() returns (r: Result<ScannedWord, ParseError>)
      requires reader.Valid()
      modifies reader
      ensures reader.Valid()
      ensures Step(r, reader.offset) == WordAt(reader.data, old(reader.offset))
    {
      var spaces := Spaces();
      var length := |spaces|;
      var c :- reader.Read();
      if IsText(c) {
        var word := WordText();
        return Ok(ScannedWord(word.value, true, |word.value| + length));
      }
      var word :- WordCode();
      return Ok(ScannedWord(word, false, |word| + length));
    }

    /** `expression`: a first formula, then operator words and formulas
        until `)`, the end of the text, or a word scan that raises the
        end-of-input error; then the operator fold. */
    method Expression() returns (r: Result<Formula, ParseError>)
      requires reader.Valid()
      modifies reader
      ensures reader.Valid()
      ensures Step(r, reader.offset) == ExpressionAt(reader.data, old(reader.offset))
      decreases |reader.data| - reader.offset, 2
    {
      hide TailAt, OperatorTailAt, FormulaAt, WordFormulaAt, ExpressionAt, WordAt, Operator, Resolve;
      ghost var data, start := reader.data, reader.offset;
      ExpressionFirst(data, start);
      var _ := Spaces();
      var first := Formula();
      if first.Err? {
        return first;
      }
      var expression := [first.value];
      var operators: seq<Kind> := [];
      ghost var stop := Step(Ok(Resolve(expression, operators)), reader.offset);
      while true
        invariant reader.Valid() && start <= reader.offset
        invariant |expression| == |operators| + 1
        invariant TailAt(data, reader.offset, expression, operators) == ExpressionAt(data, start)
        decreases |reader.data| - reader.offset
      {
        ghost var i := reader.offset;
        var _ := Spaces();
        var c := reader.Read();
        if c.Err? || c.value == ')' {
          TailCloses(data, i, expression, operators);
          stop := Step(Ok(Resolve(expression, operators)), reader.offset);
          break;
        }
        // Only the end-of-input error can come out of a word scan.
        var w := Word();
        if w.Err? {
          TailWordEnds(data, i, expression, operators);
          stop := Step(Ok(Resolve(expression, operators)), reader.offset);
          break;
        }
        var operator := w.value.text;
        var kind := Operator(Lower(operator));
        if kind.None? {
          TailUnknown(data, i, expression, operators);
          return Err(reader.SyntaxError(UnknownOperatorMessage(operator)));
        }
        ghost var wordEnd := reader.offset;
        var _ := Spaces();
        var f := Formula();
        TailAfterOperator(data, i, expression, operators, kind.value, FormulaAt(data, RunEnd(data, wordEnd, Space)));
        if f.Err? {
          return f;
        }
        operators := operators + [kind.value];
        expression := expression + [f.value];
      }
      assert stop == ExpressionAt(data, start);
      var result := ResolveOperators(expression, operators);
      return Ok(result);
    }

    /** `assert_literal`: a literal must start with a letter; otherwise the
        reader moves back `length` characters and a syntax error is raised
        there. */
    method AssertLiteral(word: string, length: nat) returns (r: Outcome<ParseError>)
      requires reader.Valid()
      requires 0 < |word| && length <= reader.offset
      modifies reader
      ensures reader.Valid()
      ensures IsLetter(word[0]) ==> r == Pass && reader.offset == old(reader.offset)
      ensures !IsLetter(word[0]) ==>
        && reader.offset == old(reader.offset) - length
        && r == Fail(ParseError(LiteralStartMessage(word), reader.offset + 1))
    {
      if !IsLetter(word[0]) {
        var _ := reader.Back(length);
        return Fail(reader.SyntaxError(LiteralStartMessage(word)));
      }
      return Pass;
    }

    /** `formula`. */
    method Formula() returns (r: Result<Formula, ParseError>)
      requires reader.Valid()
      modifies reader
      ensures reader.Valid()
      ensures Step(r, reader.offset) == FormulaAt(reader.data, old(reader.offset))
      decreases |reader.data| - reader.offset, 1
    {
      hide WordAt, Lower, RunEnd, ExpressionAt, TailAt;
      var c :- reader.Read();
      if c == '(' {
        var _ := reader.Forward(1);
        var e := Expression();
        if e.Err? {
          return e;
        }
        var skip := reader.Forward(1);
        if skip.Fail? {
          return Err(skip.error);
        }
        return e;
      }
      var w :- Word();
      if Lower(w.text) in NotWords {
        var g := Formula();
        if g.Err? {
          return g;
        }
        return Ok(Negation(g.value));
      }
      if w.isText {
        if w.text in TrueWords {
          return Ok(Constant(true));
        }
        if w.text in FalseWords {
          return Ok(Constant(false));
        }
        :- AssertLiteral(w.text, w.length);
        return Ok(SyntaxTree.Atom(w.text));
      }
      var _ := reader.Back(w.length);
      return Err(reader.SyntaxError(FormulaStartMessage(w.text)));
    }

    /** `atom`: one name of an atom-value string and its value. */
    method Atom() returns (r: Result<(string, bool), ParseError>)
      requires reader.Valid()
      modifies reader
      ensures reader.Valid()
      ensures Step(r, reader.offset) == AtomAt(reader.data, old(reader.offset))
    {
      hide WordAt, Lower, RunEnd;
      var value := true;
      var w :- Word();
      var word, isText, length := w.text, w.isText, w.length;
      if Lower(word) in NotWords {
        var w2 :- Word();
        word, isText, length := w2.text, w2.isText, w2.length;
        if !isText {
          var _ := reader.Back(length);
          return Err(reader.SyntaxError(AfterNotMessage(word)));
        }
        value := false;
      } else if !isText {
        var _ := reader.Back(length);
        return Err(reader.SyntaxError(AtomOperatorMessage(word)));
      }
      :- AssertLiteral(word, length);
      return Ok((word, value));
    }

    /** `atom_values`: names and NOT-prefixed names up to the end of the
        text, collected into a dictionary. */
    method AtomValues() returns (r: Result<Assignment, ParseError>)
      requires reader.Valid()
      modifies reader
      ensures reader.Valid()
      ensures Step(r, reader.offset)
           == AtomValuesFrom(reader.data, RunEnd(reader.data, old(reader.offset), Space), map[])
    {
      hide AtomAt, NegatedAtomAt, WordAt, Lower;
      var _ := Spaces();
      ghost var start := reader.offset;
      var values: Assignment := map[];
      while true
        invariant reader.Valid() && start <= reader.offset
        invariant AtomValuesFrom(reader.data, reader.offset, values)
               == AtomValuesFrom(reader.data, start, map[])
        decreases |reader.data| - reader.offset
      {
        AtomValuesStep(reader.data, reader.offset, values);
        var eof := reader.IsEof();
        if eof {
          break;
        }
        var c := reader.Read();
        if IsSpecial(c.value) {
          var message := "You can't use special characters in atom values string";
          assert AtomValuesFrom(reader.data, reader.offset, values)
              == Step(Err(ParseError(message, reader.offset + 1)), reader.offset);
          return Err(reader.SyntaxError(message));
        }
        var a := Atom();
        if a.Err? {
          return Err(a.error);
        }
        values := values[a.value.0 := a.value.1];
        var _ := Spaces();
      }
      return Ok(values);
    }
  }

  /** `parse_logic_proposition`. */
  method ParseLogicProposition(data: string) returns (r: Result<Formula, ParseError>)
    ensures r == Proposition(data)
  {
    var reader := new Reader(data);
    var parser := new Parser(reader);
    r := parser.Expression();
  }

  /** `parse_atom_values`. */
  method ParseAtomValues(data: string) returns (r: Result<Assignment, ParseError>)
    ensures r == Grammar.AtomValues(data)
  {
    var reader := new Reader(data);
    var parser := new Parser(reader);
    r := parser.AtomValues();
  }
}
