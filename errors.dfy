/** The errors a code word raises where a formula or an atom is expected. A
    code word is a maximal run of characters that are neither spaces,
    letters, digits nor parentheses. Unless it is a NOT word, it cannot start
    a formula or an atom. After a NOT word in an atom-value string it cannot
    stand for the name. */
module ParseErrors {
  import opened Results
  import opened Reader
  import opened SyntaxTree
  import opened Grammar
  import opened RoundTrip
  import opened AtomStrings

  /** A code word other than a NOT word, after spaces, cannot start a
      formula. The error is reported at the word. */
  lemma CodeStartRefused(g: string, w: string, rest: string)
    requires AllSpaces(g) && WordOf(w, Code) && Lower(w) !in NotWords
    requires rest == [] || !IsCode(rest[0])
    ensures Proposition(g + w + rest)
      == Err(ParseError(FormulaStartMessage(w), |g| + 1))
  {
    hide *;
    var data := g + w + rest;
    GapCodeLayout(data, g, w, rest);
    CodeFormulaAt(data, g, w, |g|, |g| + |w|, |g| + 1);
  }

  /** `⊤` and `⊥` are listed among the truth words, but they are code
      characters. A formula that is one of them is refused before the lists
      are consulted, and so is an atom. */
  lemma TopBottomRefused()
    ensures Proposition("\U{22A4}") == Err(ParseError(FormulaStartMessage("\U{22A4}"), 1))
    ensures Proposition("\U{22A5}") == Err(ParseError(FormulaStartMessage("\U{22A5}"), 1))
    ensures AtomValues("\U{22A4}") == Err(ParseError(AtomOperatorMessage("\U{22A4}"), 1))
    ensures AtomValues("\U{22A5}") == Err(ParseError(AtomOperatorMessage("\U{22A5}"), 1))
  {
    hide *;
    TopBottomCode("\U{22A4}");
    TopBottomCode("\U{22A5}");
    LoneCodeRefused("\U{22A4}");
    LoneCodeRefused("\U{22A5}");
  }

  /** `⊤` and `⊥` are code words and not NOT words. */
  lemma TopBottomCode(x: string)
    requires x == "\U{22A4}" || x == "\U{22A5}"
    ensures WordOf(x, Code) && Lower(x) !in NotWords
  {
    LowerChars(x);
    assert Lower(x) == x;
  }

  /** A text that is one code word other than a NOT word is refused as a
      formula and as an atom-value string, at its first character. */
  lemma LoneCodeRefused(w: string)
    requires WordOf(w, Code) && Lower(w) !in NotWords
    ensures Proposition(w) == Err(ParseError(FormulaStartMessage(w), 1))
    ensures AtomValues(w) == Err(ParseError(AtomOperatorMessage(w), 1))
  {
    hide *;
    LoneLayout(w);
    CodeStartRefused("", w, "");
    CodeAtomRefused([], " ", "", w, "");
  }

  /** `w` as the text `g + w + rest` with nothing around it. */
  lemma LoneLayout(w: string)
    ensures "" + w + "" == w && Join([], " ") + "" + w + "" == w && |Join([], " ")| == 0
    ensures AllSpaces("") && AllSpaces(" ") && ValidEntries([])
  {
    assert Join([], " ") == "";
  }

  /** A code word other than a NOT word where the loop of `atom_values`
      expects the next atom: after any valid entries and the spaces `g`, the
      error is reported at the word. */
  lemma CodeAtomRefused(es: seq<Entry>, sep: string, g: string, w: string, rest: string)
    requires ValidEntries(es) && |sep| > 0 && AllSpaces(sep) && AllSpaces(g)
    requires WordOf(w, Code) && Lower(w) !in NotWords
    requires rest == [] || !IsCode(rest[0])
    ensures AtomValues(Join(es, sep) + g + w + rest)
      == Err(ParseError(AtomOperatorMessage(w), |Join(es, sep)| + |g| + 1))
  {
    hide *;
    var lead := Join(es, sep);
    var data := lead + g + w + rest;
    EntriesCodeLayout(data, lead, g, w, rest);
    AfterEntries(data, es, sep, lead, g);
    CodeAtomAt(data, |lead| + |g|, w, Apply(map[], es));
  }

  /** A NOT word followed by a code word where the loop of `atom_values`
      expects the next atom: after any valid entries and the spaces `g`,
      the error is reported just after the NOT word. The NOT word `w` is a
      word of letters or of code characters; the spaces `h` after it may
      be empty only when `w` is made of letters, or else `w` and `v` would
      be one code word. After entries, `w` must not run into the last one. */
  lemma CodeAfterNot(es: seq<Entry>, sep: string, g: string, w: string, h: string, v: string, rest: string)
    requires ValidEntries(es) && |sep| > 0 && AllSpaces(sep) && AllSpaces(g) && AllSpaces(h)
    requires Lower(w) in NotWords && (WordOf(w, Text) || (WordOf(w, Code) && |h| > 0))
    requires es == [] || |g| > 0 || WordOf(w, Code)
    requires WordOf(v, Code) && (rest == [] || !IsCode(rest[0]))
    ensures AtomValues(Join(es, sep) + g + w + h + v + rest)
      == Err(ParseError(AfterNotMessage(v), |Join(es, sep)| + |g| + |w| + 1))
  {
    hide *;
    NotCodeAfterLead(es, sep, Join(es, sep), g, w, h, v, rest);
  }

  // ---------------------------------------------------------------------
  // Steps of the proofs

  /** `CodeAfterNot` with the printed entries given as `lead`. */
  lemma NotCodeAfterLead(es: seq<Entry>, sep: string, lead: string, g: string, w: string, h: string, v: string, rest: string)
    requires ValidEntries(es) && |sep| > 0 && AllSpaces(sep) && AllSpaces(g) && AllSpaces(h)
    requires Lower(w) in NotWords && (WordOf(w, Text) || (WordOf(w, Code) && |h| > 0))
    requires es == [] || |g| > 0 || WordOf(w, Code)
    requires WordOf(v, Code) && (rest == [] || !IsCode(rest[0]))
    requires lead == Join(es, sep)
    ensures AtomValues(lead + g + w + h + v + rest)
      == Err(ParseError(AfterNotMessage(v), |lead| + |g| + |w| + 1))
  {
    hide *;
    var data := lead + g + w + h + v + rest;
    NotCodeLayout(data, lead, g, w, h, v, rest);
    AfterEntries(data, es, sep, lead, g);
    NotCodeAt(data, lead, g, w, h, v, Apply(map[], es));
  }

  /** Where the pieces of `g + w + rest` lie. */
  lemma GapCodeLayout(data: string, g: string, w: string, rest: string)
    requires data == g + w + rest && WordOf(w, Code)
    requires rest == [] || !IsCode(rest[0])
    ensures At(data, 0, g) && At(data, |g|, w)
    ensures |g| + |w| == |data| || !IsCode(data[|g| + |w|])
  {
    assert data == g + (w + rest);
    if rest != [] {
      assert data[|g| + |w|] == rest[0];
    }
  }

  /** Where the pieces of `lead + g + w + rest` lie. */
  lemma EntriesCodeLayout(data: string, lead: string, g: string, w: string, rest: string)
    requires data == lead + g + w + rest && WordOf(w, Code) && AllSpaces(g)
    requires rest == [] || !IsCode(rest[0])
    ensures At(data, 0, lead) && At(data, |lead|, g) && At(data, |lead| + |g|, w)
    ensures |lead| + |g| < |data| && !IsSpace(data[|lead| + |g|]) && !IsText(data[|lead|])
    ensures |lead| + |g| + |w| == |data| || !IsCode(data[|lead| + |g| + |w|])
  {
    assert data == lead + (g + (w + rest));
    assert data[|lead| + |g|] == w[0];
    assert data[|lead|] == (if g == [] then w[0] else g[0]);
    if rest != [] {
      assert data[|lead| + |g| + |w|] == rest[0];
    }
  }

  /** Where the pieces of `lead + g + w + h + v + rest` lie. */
  lemma NotCodeLayout(data: string, lead: string, g: string, w: string, h: string, v: string, rest: string)
    requires data == lead + g + w + h + v + rest && AllSpaces(g) && AllSpaces(h) && WordOf(v, Code)
    requires WordOf(w, Text) || (WordOf(w, Code) && |h| > 0)
    requires rest == [] || !IsCode(rest[0])
    ensures At(data, 0, lead) && At(data, |lead|, g) && At(data, |lead| + |g|, w)
    ensures At(data, |lead| + |g| + |w|, h) && At(data, |lead| + |g| + |w| + |h|, v)
    ensures |lead| + |g| < |data| && !IsSpace(data[|lead| + |g|])
    ensures |lead| < |data| && (|g| > 0 || WordOf(w, Code) ==> !IsText(data[|lead|]))
    ensures |lead| + |g| + |w| + |h| + |v| == |data| || !IsCode(data[|lead| + |g| + |w| + |h| + |v|])
  {
    var q := |lead| + |g|;
    assert data == lead + (g + (w + (h + (v + rest))));
    assert data[q] == w[0];
    assert data[|lead|] == (if g == [] then w[0] else g[0]);
    if rest != [] {
      assert data[q + |w| + |h| + |v|] == rest[0];
    }
  }

  /** The loop of `atom_values` reaches the character after any valid
      entries and the spaces `g`. */
  lemma AfterEntries(data: string, es: seq<Entry>, sep: string, lead: string, g: string)
    requires ValidEntries(es) && |sep| > 0 && AllSpaces(sep) && AllSpaces(g)
    requires lead == Join(es, sep) && At(data, 0, lead) && At(data, |lead|, g)
    requires |lead| + |g| < |data| && !IsSpace(data[|lead| + |g|])
    requires es == [] || !IsText(data[|lead|])
    ensures AtomValues(data) == AtomValuesFrom(data, |lead| + |g|, Apply(map[], es)).result
  {
    hide *;
    if es == [] {
      NoEntries(es, sep);
      SpacesAtStart(data, lead, g);
    } else {
      JoinedAtStart(data, es, sep, lead);
      AtomValuesStart(data);
      EntriesThenSpaces(data, es, sep, lead, g);
    }
  }

  lemma NoEntries(es: seq<Entry>, sep: string)
    requires es == []
    ensures |Join(es, sep)| == 0 && Apply(map[], es) == map[]
  {
  }

  lemma AtomValuesStart(data: string)
    ensures AtomValues(data) == AtomValuesFrom(data, RunEnd(data, 0, Space), map[]).result
  {
  }

  lemma SpacesAtStart(data: string, lead: string, g: string)
    requires |lead| == 0 && AllSpaces(g) && At(data, |lead|, g)
    requires |lead| + |g| < |data| && !IsSpace(data[|lead| + |g|])
    ensures AtomValues(data) == AtomValuesFrom(data, |lead| + |g|, map[]).result
  {
    SpacesRunEnd(data, 0, g);
  }

  /** `formula` at the spaces `g` and a code word `w`, which lies at `i`
      and ends at `e`. */
  lemma CodeFormulaAt(data: string, g: string, w: string, i: nat, e: nat, pos: nat)
    requires i == |g| && e == i + |w| && pos == i + 1
    requires AllSpaces(g) && WordOf(w, Code) && Lower(w) !in NotWords
    requires At(data, 0, g) && At(data, i, w)
    requires e == |data| || !IsCode(data[e])
    ensures Proposition(data) == Err(ParseError(FormulaStartMessage(w), pos))
  {
    hide *;
    GapThenCode(data, g, w, i);
    CodeWordEnds(data, i, e, w);
    PropositionStart(data);
    ExpressionFirst(data, 0);
    FormulaWord(data, i);
    WordFormulaCode(data, i, w, |w|, e, pos);
  }

  /** The spaces `g` end where the code word `w` starts. */
  lemma GapThenCode(data: string, g: string, w: string, i: nat)
    requires i == |g| && AllSpaces(g) && WordOf(w, Code)
    requires At(data, 0, g) && At(data, i, w)
    ensures i < |data| && IsCode(data[i]) && RunEnd(data, 0, Space) == i
  {
    AtChar(data, i, w, 0);
    assert IsCode(data[i]);
    SpacesRunEnd(data, 0, g);
  }

  lemma PropositionStart(data: string)
    ensures Proposition(data) == ExpressionAt(data, 0).result
  {
  }

  /** A code word at `i` that ends at `e`. */
  lemma CodeWordEnds(data: string, i: nat, e: nat, w: string)
    requires WordOf(w, Code) && At(data, i, w) && e == i + |w|
    requires e == |data| || !IsCode(data[e])
    ensures WordAt(data, i) == Step(Ok(ScannedWord(w, false, |w|)), e)
  {
    CodeWordAt(data, i, w);
  }

  /** `formula` at a character other than `(` reads a word. */
  lemma FormulaWord(data: string, i: nat)
    requires i < |data| && IsCode(data[i])
    ensures FormulaAt(data, i) == WordFormulaAt(data, i)
  {
    hide ExpressionAt, WordFormulaAt;
  }

  /** `formula` at a code word other than a NOT word. */
  lemma WordFormulaCode(data: string, i: nat, w: string, length: nat, p: nat, pos: nat)
    requires i <= |data| && WordAt(data, i) == Step(Ok(ScannedWord(w, false, length)), p)
    requires Lower(w) !in NotWords && pos == i + 1
    ensures WordFormulaAt(data, i) == Step(Err(ParseError(FormulaStartMessage(w), pos)), i)
  {
    hide WordAt, FormulaAt, Lower;
  }

  /** An atom at a code word other than a NOT word. */
  lemma CodeAtomAt(data: string, q: nat, w: string, m: Assignment)
    requires WordOf(w, Code) && Lower(w) !in NotWords && At(data, q, w)
    requires q + |w| == |data| || !IsCode(data[q + |w|])
    ensures AtomValuesFrom(data, q, m).result
      == Err(ParseError(AtomOperatorMessage(w), q + 1))
  {
    AtChar(data, q, w, 0);
    assert IsCode(data[q]);
    CodeWordAt(data, q, w);
    AtomRefused(data, q, m);
  }

  /** The loop of `atom_values` stops with the error of an atom it cannot
      read. */
  lemma AtomRefused(data: string, i: nat, m: Assignment)
    requires i < |data| && !IsSpecial(data[i]) && AtomAt(data, i).result.Err?
    ensures AtomValuesFrom(data, i, m).result == Err(AtomAt(data, i).result.error)
  {
    hide AtomAt;
  }

  /** An atom after `lead` and `g` at a NOT word `w` followed by the spaces
      `h` and the code word `v`. */
  lemma NotCodeAt(data: string, lead: string, g: string, w: string, h: string, v: string, m: Assignment)
    requires Lower(w) in NotWords && AllSpaces(h) && WordOf(v, Code)
    requires WordOf(w, Text) || (WordOf(w, Code) && |h| > 0)
    requires At(data, |lead| + |g|, w) && At(data, |lead| + |g| + |w|, h) && At(data, |lead| + |g| + |w| + |h|, v)
    requires |lead| + |g| + |w| + |h| + |v| == |data| || !IsCode(data[|lead| + |g| + |w| + |h| + |v|])
    ensures AtomValuesFrom(data, |lead| + |g|, m).result
      == Err(ParseError(AfterNotMessage(v), |lead| + |g| + |w| + 1))
  {
    hide *;
    NotWordFirst(data, |lead| + |g|, |lead| + |g| + |w|, |lead| + |g| + |w| + |h|, w, h, v);
    GapCodeAt(data, |lead| + |g| + |w|, |lead| + |g| + |w| + |h|, |lead| + |g| + |w| + |h| + |v|,
      |lead| + |g| + |w| + 1, h, v);
    AtomAfterNot(data, |lead| + |g|);
    AtomRefused(data, |lead| + |g|, m);
  }

  /** The NOT word `w` at `q` is read as a word of its own: the spaces `h`
      or a change of class ends it. */
  lemma NotWordFirst(data: string, q: nat, r: nat, s: nat, w: string, h: string, v: string)
    requires r == q + |w| && s == r + |h|
    requires AllSpaces(h) && WordOf(v, Code)
    requires WordOf(w, Text) || (WordOf(w, Code) && |h| > 0)
    requires At(data, q, w) && At(data, r, h) && At(data, s, v)
    ensures q < |data| && !IsSpecial(data[q])
    ensures WordAt(data, q) == Step(Ok(ScannedWord(w, WordOf(w, Text), |w|)), r)
  {
    AtChar(data, q, w, 0);
    if |h| > 0 {
      AtChar(data, r, h, 0);
    } else {
      AtChar(data, s, v, 0);
    }
    hide RunEnd;
    if WordOf(w, Text) {
      TextWordAt(data, q, w);
    } else {
      assert !IsText(w[0]);
      CodeWordAt(data, q, w);
    }
  }

  /** After a NOT word at `j`, the spaces `h` and the code word `v` make
      the "after NOT" error. */
  lemma GapCodeAt(data: string, r: nat, s: nat, e: nat, pos: nat, h: string, v: string)
    requires s == r + |h| && e == s + |v| && pos == r + 1
    requires AllSpaces(h) && WordOf(v, Code) && At(data, r, h) && At(data, s, v)
    requires e == |data| || !IsCode(data[e])
    ensures NegatedAtomAt(data, r) == Step(Err(ParseError(AfterNotMessage(v), pos)), r)
  {
    GapWordAt(data, r, h, v, Code);
    NotThenCode(data, r, v, |h| + |v|, e, pos);
  }

  lemma NotThenCode(data: string, j: nat, v: string, length: nat, p: nat, pos: nat)
    requires j <= |data| && WordAt(data, j) == Step(Ok(ScannedWord(v, false, length)), p)
    requires pos == j + 1
    ensures NegatedAtomAt(data, j)
      == Step(Err(ParseError(AfterNotMessage(v), pos)), j)
  {
    hide WordAt;
  }
}
