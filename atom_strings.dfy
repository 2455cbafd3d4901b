/** What the atom-value strings mean. A string is a sequence of entries
    separated by spaces. A bare name sets it to true, and a NOT word,
    optional spaces and a name set it to false. The map holds each name's
    last entry. Parentheses are refused. */
module AtomStrings {
  import opened Results
  import opened Reader
  import opened SyntaxTree
  import opened Grammar
  import opened RoundTrip

  /** One entry of an atom-value string: a bare name, or a NOT word, the
      spaces after it and a name. */
  datatype Entry = Bare(name: string) | Negated(word: string, gap: string, name: string)

  function EntryText(e: Entry): string {
    match e
    case Bare(n) => n
    case Negated(w, g, n) => w + g + n
  }

  function EntryValue(e: Entry): bool {
    e.Bare?
  }

  predicate AllSpaces(g: string) {
    forall k | 0 <= k < |g| :: IsSpace(g[k])
  }

  /** A maximal word of class `cl`. */
  predicate WordOf(w: string, cl: CharClass) {
    |w| > 0 && forall k | 0 <= k < |w| :: InClass(w[k], cl)
  }

  /** The entries the parser reads back as the entry. A bare name must not
      be a NOT word. A text NOT word needs at least one space before the
      name, or else the two words would run together. */
  predicate ValidEntry(e: Entry) {
    match e
    case Bare(n) => LiteralName(n) && Lower(n) !in NotWords
    case Negated(w, g, n) =>
      && Lower(w) in NotWords
      && AllSpaces(g)
      && LiteralName(n)
      && ((WordOf(w, Text) && |g| > 0) || WordOf(w, Code))
  }

  predicate ValidEntries(es: seq<Entry>) {
    forall i | 0 <= i < |es| :: ValidEntry(es[i])
  }

  /** The entries separated by `sep`. */
  function Join(es: seq<Entry>, sep: string): string {
    if es == [] then ""
    else if |es| == 1 then EntryText(es[0])
    else EntryText(es[0]) + sep + Join(es[1..], sep)
  }

  /** The entries stored one after the other, as `atom_values[atom] = value`
      does: a later entry for a name replaces an earlier one. */
  function Apply(acc: Assignment, es: seq<Entry>): Assignment
    decreases |es|
  {
    if es == [] then acc else Apply(acc[es[0].name := EntryValue(es[0])], es[1..])
  }

  // ---------------------------------------------------------------------
  // What the stored map is

  function Names(es: seq<Entry>): set<string> {
    set i | 0 <= i < |es| :: es[i].name
  }

  /** Entry `i` is the last entry for its name. */
  predicate LastFor(es: seq<Entry>, i: nat) {
    i < |es| && forall j | i < j < |es| :: es[j].name != es[i].name
  }

  /** The map holds the old names and the entries' names, and no others. */
  lemma {:induction false} ApplyKeys(acc: Assignment, es: seq<Entry>)
    ensures Apply(acc, es).Keys == acc.Keys + Names(es)
    decreases |es|
  {
    if es != [] {
      ApplyKeys(acc[es[0].name := EntryValue(es[0])], es[1..]);
      assert Names(es) == {es[0].name} + Names(es[1..]) by {
        forall n | n in Names(es)
          ensures n in {es[0].name} + Names(es[1..])
        {
          var i :| 0 <= i < |es| && es[i].name == n;
          if i > 0 {
            assert es[1..][i - 1] == es[i];
          }
        }
        forall n | n in Names(es[1..])
          ensures n in Names(es)
        {
          var i :| 0 <= i < |es[1..]| && es[1..][i].name == n;
          assert es[i + 1] == es[1..][i];
        }
      }
    }
  }

  /** A name no entry mentions keeps its old value. */
  lemma {:induction false} ApplyKeeps(acc: Assignment, es: seq<Entry>, n: string)
    requires n in acc && forall j | 0 <= j < |es| :: es[j].name != n
    ensures n in Apply(acc, es) && Apply(acc, es)[n] == acc[n]
    decreases |es|
  {
    if es != [] {
      assert es[0].name != n;
      forall j | 0 <= j < |es[1..]|
        ensures es[1..][j].name != n
      {
        assert es[1..][j] == es[j + 1];
      }
      ApplyKeeps(acc[es[0].name := EntryValue(es[0])], es[1..], n);
    }
  }

  /** A name gets the value of its last entry. */
  lemma {:induction false} ApplyLastWins(acc: Assignment, es: seq<Entry>, i: nat)
    requires LastFor(es, i)
    ensures es[i].name in Apply(acc, es) && Apply(acc, es)[es[i].name] == EntryValue(es[i])
    decreases |es|
  {
    var acc' := acc[es[0].name := EntryValue(es[0])];
    if i == 0 {
      forall j | 0 <= j < |es[1..]|
        ensures es[1..][j].name != es[0].name
      {
        assert es[1..][j] == es[j + 1];
      }
      ApplyKeeps(acc', es[1..], es[0].name);
    } else {
      assert es[1..][i - 1] == es[i];
      forall j | i - 1 < j < |es[1..]|
        ensures es[1..][j].name != es[1..][i - 1].name
      {
        assert es[1..][j] == es[j + 1];
      }
      ApplyLastWins(acc', es[1..], i - 1);
    }
  }

  // ---------------------------------------------------------------------
  // Reading the entries back

  /** Spaces `g` and then a maximal word `s` of class `cl`: `word` skips
      the spaces and returns `s`. */
  lemma GapWordAt(data: string, j: nat, g: string, s: string, cl: CharClass)
    requires cl != Space && WordOf(s, cl) && AllSpaces(g)
    requires At(data, j, g) && At(data, j + |g|, s)
    requires j + |g| + |s| == |data| || !InClass(data[j + |g| + |s|], cl)
    ensures WordAt(data, j) == Step(Ok(ScannedWord(s, cl == Text, |g| + |s|)), j + |g| + |s|)
  {
    hide WordAt, RunEnd;
    AtChar(data, j + |g|, s, 0);
    assert InClass(s[0], cl) && !IsSpace(s[0]) && (IsText(s[0]) <==> cl == Text);
    RunEndOver(data, j, g, Space);
    RunEndOver(data, j + |g|, s, cl);
    AtSlice(data, j + |g|, s);
    hide At, WordOf, AllSpaces, InClass, IsText, IsSpace;
    WordOfRuns(data, j, j + |g|, j + |g| + |s|, cl);
  }

  /** `word` reads the run of class `cl` that starts after the spaces. */
  lemma WordOfRuns(data: string, i: nat, j: nat, q: nat, cl: CharClass)
    requires i <= j < q <= |data| && RunEnd(data, i, Space) == j
    requires cl == (if IsText(data[j]) then Text else Code) && RunEnd(data, j, cl) == q
    ensures WordAt(data, i) == Step(Ok(ScannedWord(data[j..q], IsText(data[j]), q - i)), q)
  {
    hide RunEnd;
  }

  lemma EntryStarts(e: Entry)
    requires ValidEntry(e)
    ensures |EntryText(e)| > 0
    ensures !IsSpace(EntryText(e)[0]) && !IsSpecial(EntryText(e)[0])
  {
    if e.Negated? {
      assert EntryText(e)[0] == e.word[0];
    }
  }

  /** A valid entry at `i`, followed by the end or by a character that is
      not a letter or digit, is read by `atom` as its name and value. */
  lemma EntryAt(data: string, i: nat, e: Entry)
    requires ValidEntry(e) && At(data, i, EntryText(e))
    requires i + |EntryText(e)| == |data| || !IsText(data[i + |EntryText(e)|])
    ensures AtomAt(data, i) == Step(Ok((e.name, EntryValue(e))), i + |EntryText(e)|)
  {
    match e
    case Bare(n) =>
      GapWordAt(data, i, "", n, Text);
    case Negated(w, g, n) =>
      NegatedAt(data, i, w, g, n);
  }

  lemma NegatedAt(data: string, i: nat, w: string, g: string, n: string)
    requires ValidEntry(Negated(w, g, n)) && At(data, i, w + g + n)
    requires i + |w + g + n| == |data| || !IsText(data[i + |w + g + n|])
    ensures AtomAt(data, i) == Step(Ok((n, false)), i + |w + g + n|)
  {
    hide AtomAt, NegatedAtomAt, WordAt, RunEnd, Lower, At;
    NegatedLayout(data, i, w, g, n);
    if WordOf(w, Text) {
      TextWordAt(data, i, w);
    } else {
      CodeWordAt(data, i, w);
    }
    GapWordAt(data, i + |w|, g, n, Text);
    AtomAfterNot(data, i);
    NegatedName(data, i + |w|);
  }

  /** Where the pieces of a negated entry lie, and that the NOT word ends
      where the gap or the name starts. */
  lemma {:induction false} NegatedLayout(data: string, i: nat, w: string, g: string, n: string)
    requires ValidEntry(Negated(w, g, n)) && At(data, i, w + g + n)
    ensures At(data, i, w) && At(data, i + |w|, g) && At(data, i + |w| + |g|, n)
    ensures i + |w| + |g| + |n| <= |data|
    ensures !InClass(data[i + |w|], if WordOf(w, Text) then Text else Code)
    ensures !IsText(data[i + |w|]) || WordOf(w, Code)
  {
    hide At;
    AtConcat(data, i, w + g, n);
    AtConcat(data, i, w, g);
    AtChar(data, i + |w| + |g|, n, 0);
    if g != [] {
      AtChar(data, i + |w|, g, 0);
    } else {
      assert i + |w| + |g| == i + |w|;
    }
  }

  /** `atom` after a NOT word reads the name that follows. */
  lemma AtomAfterNot(data: string, i: nat)
    requires i <= |data| && WordAt(data, i).result.Ok?
    requires Lower(WordAt(data, i).result.value.text) in NotWords
    ensures AtomAt(data, i) == NegatedAtomAt(data, WordAt(data, i).pos)
  {
    hide NegatedAtomAt, WordAt, Lower;
  }

  lemma NegatedName(data: string, j: nat)
    requires j <= |data| && WordAt(data, j).result.Ok?
    requires WordAt(data, j).result.value.isText && IsLetter(WordAt(data, j).result.value.text[0])
    ensures NegatedAtomAt(data, j) == Step(Ok((WordAt(data, j).result.value.text, false)), WordAt(data, j).pos)
  {
    hide WordAt, Lower;
  }

  lemma JoinStarts(es: seq<Entry>, sep: string)
    requires es != [] && ValidEntries(es)
    ensures |Join(es, sep)| > 0 && Join(es, sep)[0] == EntryText(es[0])[0]
  {
    EntryStarts(es[0]);
  }

  lemma ValidRest(es: seq<Entry>)
    requires es != [] && ValidEntries(es)
    ensures ValidEntry(es[0]) && ValidEntries(es[1..])
  {
    forall j | 0 <= j < |es[1..]|
      ensures ValidEntry(es[1..][j])
    {
      assert es[1..][j] == es[j + 1];
    }
  }

  /** Entries one after the other from `i`, with `sep` between neighbours;
      the last one ends at `end`. */
  predicate LaidOut(data: string, i: nat, es: seq<Entry>, sep: string, end: nat)
    decreases |es|
  {
    if es == [] then i == end
    else
      var t := EntryText(es[0]);
      && At(data, i, t)
      && if |es| == 1 then i + |t| == end
         else At(data, i + |t|, sep) && LaidOut(data, i + |t| + |sep|, es[1..], sep, end)
  }

  /** The joined text of the entries lays them out. */
  lemma {:induction false} JoinLaidOut(data: string, i: nat, es: seq<Entry>, sep: string, end: nat)
    requires At(data, i, Join(es, sep)) && end == i + |Join(es, sep)|
    ensures LaidOut(data, i, es, sep, end)
    decreases |es|
  {
    hide At;
    if |es| == 1 {
      assert Join(es, sep) == EntryText(es[0]);
    } else if |es| > 1 {
      var t, rest := EntryText(es[0]), Join(es[1..], sep);
      assert Join(es, sep) == t + sep + rest;
      assert end == i + |t| + |sep| + |rest|;
      hide Join, EntryText;
      AtConcat3(data, i, t, sep, rest);
      JoinLaidOut(data, i + |t| + |sep|, es[1..], sep, end);
    }
  }

  /** The loop of `atom_values` over laid-out entries stores every entry in
      turn, and goes on after the spaces that follow the last one. */
  lemma {:induction false} EntriesFrom(data: string, i: nat, es: seq<Entry>, sep: string, acc: Assignment, end: nat)
    requires es != [] && ValidEntries(es) && |sep| > 0 && AllSpaces(sep)
    requires LaidOut(data, i, es, sep, end) && end <= |data|
    requires end == |data| || !IsText(data[end])
    ensures AtomValuesFrom(data, i, acc) == AtomValuesFrom(data, RunEnd(data, end, Space), Apply(acc, es))
    decreases |es|
  {
    if |es| == 1 {
      LastStored(data, i, es, sep, acc, end);
    } else {
      ValidRest(es);
      var acc' := acc[es[0].name := EntryValue(es[0])];
      assert Apply(acc, es) == Apply(acc', es[1..]);
      var p := NextStored(data, i, es, sep, acc, acc', end);
      hide At, AtomValuesFrom, AtomAt, WordAt, Lower, RunEnd, LaidOut, Apply, EntryText, EntryValue, ValidEntry, ValidEntries;
      EntriesFrom(data, p, es[1..], sep, acc', end);
    }
  }

  /** The last entry: one round of the loop, up to the spaces after it. */
  lemma LastStored(data: string, i: nat, es: seq<Entry>, sep: string, acc: Assignment, end: nat)
    requires |es| == 1 && ValidEntries(es) && LaidOut(data, i, es, sep, end) && end <= |data|
    requires end == |data| || !IsText(data[end])
    ensures AtomValuesFrom(data, i, acc) == AtomValuesFrom(data, RunEnd(data, end, Space), Apply(acc, es))
  {
    var e, t := es[0], EntryText(es[0]);
    var acc' := acc[e.name := EntryValue(e)];
    assert Apply(acc, es) == acc' by {
      assert Apply(acc, es) == Apply(acc', es[1..]);
      assert es[1..] == [];
    }
    hide AtomValuesFrom, AtomAt, WordAt, Lower, RunEnd, LaidOut, Apply, EntryText, ValidEntries;
    LastLaidOut(data, i, es, t, sep, end);
    EntryRead(data, i, e, t);
    hide At, ValidEntry, IsText, IsSpecial;
    AtomValuesStore(data, i, acc, e.name, EntryValue(e), end);
  }

  /** An entry that more entries follow: one round of the loop, after which
      the rest of the entries are laid out where the loop goes on. */
  lemma NextStored(data: string, i: nat, es: seq<Entry>, sep: string, acc: Assignment, acc': Assignment, end: nat) returns (p: nat)
    requires |es| > 1 && ValidEntries(es) && |sep| > 0 && AllSpaces(sep) && LaidOut(data, i, es, sep, end)
    requires acc' == acc[es[0].name := EntryValue(es[0])]
    ensures p <= |data| && LaidOut(data, p, es[1..], sep, end)
    ensures AtomValuesFrom(data, i, acc) == AtomValuesFrom(data, p, acc')
  {
    assert ValidEntry(es[1]) by {
      assert es[1] in es;
    }
    var t := EntryText(es[0]);
    hide At, AtomValuesFrom, AtomAt, WordAt, Lower, RunEnd, Apply;
    NextLaidOut(data, i, es, t, sep, end);
    StoreEntry(data, i, acc, es[0], t, sep);
    p := i + |t| + |sep|;
  }

  lemma LastLaidOut(data: string, i: nat, es: seq<Entry>, t: string, sep: string, end: nat)
    requires |es| == 1 && t == EntryText(es[0]) && LaidOut(data, i, es, sep, end)
    ensures At(data, i, t) && i + |t| == end
  {
  }

  lemma NextLaidOut(data: string, i: nat, es: seq<Entry>, t: string, sep: string, end: nat)
    requires |es| > 1 && ValidEntry(es[1]) && t == EntryText(es[0]) && LaidOut(data, i, es, sep, end)
    ensures At(data, i, t) && At(data, i + |t|, sep)
    ensures i + |t| + |sep| < |data| && !IsSpace(data[i + |t| + |sep|])
    ensures LaidOut(data, i + |t| + |sep|, es[1..], sep, end)
  {
    var p := i + |t| + |sep|;
    assert es[1..][0] == es[1];
    EntryStarts(es[1]);
    AtChar(data, p, EntryText(es[1]), 0);
  }

  /** A valid entry and the spaces after it, followed by the end of the text
      or by a character that is not a space, make one round of the loop. */
  lemma StoreEntry(data: string, i: nat, acc: Assignment, e: Entry, t: string, sep: string)
    requires ValidEntry(e) && t == EntryText(e) && AllSpaces(sep)
    requires At(data, i, t) && i + |t| + |sep| <= |data| && At(data, i + |t|, sep) && |sep| > 0
    requires i + |t| + |sep| == |data| || !IsSpace(data[i + |t| + |sep|])
    ensures AtomValuesFrom(data, i, acc) == AtomValuesFrom(data, i + |t| + |sep|, acc[e.name := EntryValue(e)])
  {
    hide AtomAt, AtomValuesFrom, WordAt, Lower, RunEnd, EntryText, ValidEntry, IsSpace, IsSpecial, InClass, At, AllSpaces, EntryValue;
    EntryRound(data, i, e, t, sep);
    AtomValuesStore(data, i, acc, e.name, EntryValue(e), i + |t|);
  }

  /** What one round of the loop reads: the entry, then the spaces. */
  lemma EntryRound(data: string, i: nat, e: Entry, t: string, sep: string)
    requires ValidEntry(e) && t == EntryText(e) && AllSpaces(sep)
    requires At(data, i, t) && i + |t| + |sep| <= |data| && At(data, i + |t|, sep) && |sep| > 0
    requires i + |t| + |sep| == |data| || !IsSpace(data[i + |t| + |sep|])
    ensures i < |data| && !IsSpecial(data[i])
    ensures AtomAt(data, i) == Step(Ok((e.name, EntryValue(e))), i + |t|)
    ensures RunEnd(data, i + |t|, Space) == i + |t| + |sep|
  {
    hide AtomAt, AtomValuesFrom, WordAt, Lower, RunEnd, ValidEntry, EntryValue, EntryText;
    AtChar(data, i + |t|, sep, 0);
    EntryRead(data, i, e, t);
    hide IsSpecial, AllSpaces;
    SpacesRunEnd(data, i + |t|, sep);
  }

  /** The entry at `i`, ended by a character that is not a letter or digit
      (or by the end), is what `atom` reads there. */
  lemma EntryRead(data: string, i: nat, e: Entry, t: string)
    requires ValidEntry(e) && t == EntryText(e) && At(data, i, t)
    requires i + |t| == |data| || !IsText(data[i + |t|])
    ensures i < |data| && !IsSpecial(data[i])
    ensures AtomAt(data, i) == Step(Ok((e.name, EntryValue(e))), i + |t|)
  {
    EntryStarts(e);
    hide AtomAt, AtomValuesFrom, WordAt, Lower, RunEnd, ValidEntry, EntryValue, EntryText;
    assert i + |EntryText(e)| == |data| || !IsText(data[i + |EntryText(e)|]);
    EntryAt(data, i, e);
    AtChar(data, i, t, 0);
  }

  /** The spaces after an entry are one run, up to the next word. */
  lemma SpacesRunEnd(data: string, j: nat, sep: string)
    requires AllSpaces(sep) && At(data, j, sep)
    requires j + |sep| == |data| || !IsSpace(data[j + |sep|])
    ensures RunEnd(data, j, Space) == j + |sep|
  {
    RunEndOver(data, j, sep, Space);
  }

  /** One round of the loop of `atom_values` that reads an atom. */
  lemma AtomValuesStore(data: string, i: nat, acc: Assignment, name: string, value: bool, q: nat)
    requires i < |data| && !IsSpecial(data[i])
    requires AtomAt(data, i) == Step(Ok((name, value)), q)
    ensures AtomValuesFrom(data, i, acc) == AtomValuesFrom(data, RunEnd(data, q, Space), acc[name := value])
  {
    hide AtomAt, RunEnd;
  }

  /** `parse_atom_values` of the joined entries is the map built by storing
      them in order. Together with `ApplyKeys` and `ApplyLastWins`: the
      names mentioned, each with the value of its last entry. */
  lemma AtomValuesOfEntries(es: seq<Entry>, sep: string)
    requires ValidEntries(es) && |sep| > 0 && AllSpaces(sep)
    ensures AtomValues(Join(es, sep)) == Ok(Apply(map[], es))
  {
    var data := Join(es, sep);
    AtWhole(data);
    RunEndStops(data, |data|, Space);
    AtomValuesStep(data, |data|, Apply(map[], es));
    if es != [] {
      JoinStarts(es, sep);
      EntryStarts(es[0]);
      RunEndStops(data, 0, Space);
      JoinLaidOut(data, 0, es, sep, |Join(es, sep)|);
      EntriesFrom(data, 0, es, sep, map[], |data|);
    }
  }

  /** A parenthesis where the loop expects the next atom is refused: after
      any valid entries (none, or several joined by `sep`) and the spaces
      `g`, the error is reported at the parenthesis. */
  lemma SpecialRefused(es: seq<Entry>, sep: string, g: string, c: char, rest: string)
    requires ValidEntries(es) && |sep| > 0 && AllSpaces(sep) && AllSpaces(g) && IsSpecial(c)
    ensures AtomValues(Join(es, sep) + g + [c] + rest)
      == Err(ParseError("You can't use special characters in atom values string", |Join(es, sep)| + |g| + 1))
  {
    hide *;
    var lead := Join(es, sep);
    var data := lead + g + [c] + rest;
    SpecialLayout(data, lead, g, c, rest);
    SpecialAfterLead(data, es, sep, lead, g);
  }

  /** The two cases of `SpecialRefused`, on a text whose layout is known. */
  lemma SpecialAfterLead(data: string, es: seq<Entry>, sep: string, lead: string, g: string)
    requires ValidEntries(es) && |sep| > 0 && AllSpaces(sep) && AllSpaces(g)
    requires lead == Join(es, sep) && At(data, 0, lead) && At(data, |lead|, g)
    requires |lead| + |g| < |data| && IsSpecial(data[|lead| + |g|]) && !IsText(data[|lead|])
    ensures AtomValues(data)
      == Err(ParseError("You can't use special characters in atom values string", |lead| + |g| + 1))
  {
    if es == [] {
      assert |lead| == 0;
      hide *;
      SpacesThenSpecial(data, lead, g);
    } else {
      hide *;
      EntriesThenSpecial(data, es, sep, lead, g);
    }
  }

  /** Spaces at the start of the text, then a parenthesis. */
  lemma SpacesThenSpecial(data: string, lead: string, g: string)
    requires |lead| == 0 && AllSpaces(g) && At(data, |lead|, g)
    requires |lead| + |g| < |data| && IsSpecial(data[|lead| + |g|])
    ensures AtomValues(data)
      == Err(ParseError("You can't use special characters in atom values string", |lead| + |g| + 1))
  {
    assert !IsSpace(data[|g|]);
    SpacesRunEnd(data, 0, g);
    hide AtomValuesFrom, AtomAt, WordAt, RunEnd, At, AllSpaces, IsSpace, IsSpecial;
    SpecialStep(data, |g|, map[]);
  }

  /** Valid entries at the start of the text, then spaces and a
      parenthesis. */
  lemma EntriesThenSpecial(data: string, es: seq<Entry>, sep: string, lead: string, g: string)
    requires es != [] && ValidEntries(es) && |sep| > 0 && AllSpaces(sep) && AllSpaces(g)
    requires lead == Join(es, sep) && At(data, 0, lead) && At(data, |lead|, g)
    requires |lead| + |g| < |data| && IsSpecial(data[|lead| + |g|]) && !IsText(data[|lead|])
    ensures AtomValues(data)
      == Err(ParseError("You can't use special characters in atom values string", |lead| + |g| + 1))
  {
    hide *;
    SpecialNotSpace(data[|lead| + |g|]);
    JoinedAtStart(data, es, sep, lead);
    EntriesThenSpaces(data, es, sep, lead, g);
    SpecialAfter(data, |lead| + |g|, Apply(map[], es));
  }

  lemma SpecialNotSpace(c: char)
    requires IsSpecial(c)
    ensures !IsSpace(c)
  {
  }

  /** A parenthesis at `q` stops the loop with the error at `q + 1`. */
  lemma SpecialStep(data: string, q: nat, acc: Assignment)
    requires q < |data| && IsSpecial(data[q])
    ensures AtomValuesFrom(data, q, acc)
      == Step(Err(ParseError("You can't use special characters in atom values string", q + 1)), q)
  {
  }

  /** The loop reaches the parenthesis at `q` from the start of the text. */
  lemma SpecialAfter(data: string, q: nat, m: Assignment)
    requires q < |data| && IsSpecial(data[q]) && RunEnd(data, 0, Space) == 0
    requires AtomValuesFrom(data, 0, map[]) == AtomValuesFrom(data, q, m)
    ensures AtomValues(data)
      == Err(ParseError("You can't use special characters in atom values string", q + 1))
  {
    SpecialStep(data, q, m);
  }

  /** Where the pieces of `lead + g + [c] + rest` lie. */
  lemma SpecialLayout(data: string, lead: string, g: string, c: char, rest: string)
    requires data == lead + g + [c] + rest && IsSpecial(c) && AllSpaces(g)
    ensures At(data, 0, lead) && At(data, |lead|, g)
    ensures |lead| + |g| < |data| && data[|lead| + |g|] == c && IsSpecial(data[|lead| + |g|])
    ensures |lead| < |data| && !IsText(data[|lead|])
  {
    assert data == lead + (g + [c] + rest);
    assert data[|lead|] == (if g == [] then c else g[0]);
  }

  /** Valid entries, then spaces: the loop stores the entries and reaches the
      character after the spaces. */
  lemma EntriesThenSpaces(data: string, es: seq<Entry>, sep: string, lead: string, g: string)
    requires es != [] && ValidEntries(es) && |sep| > 0 && AllSpaces(sep) && AllSpaces(g)
    requires lead == Join(es, sep) && At(data, 0, lead) && At(data, |lead|, g)
    requires |lead| + |g| < |data| && !IsSpace(data[|lead| + |g|]) && !IsText(data[|lead|])
    ensures AtomValuesFrom(data, 0, map[]) == AtomValuesFrom(data, |lead| + |g|, Apply(map[], es))
  {
    hide AtomValuesFrom, AtomAt, WordAt, Apply, ValidEntries, ValidEntry, Join, IsText, RunEnd, LaidOut, EntryText, At, AllSpaces, IsSpace;
    SpacesRunEnd(data, |lead|, g);
    var p := |lead| + |g|;
    var m := Apply(map[], es);
    assert RunEnd(data, |Join(es, sep)|, Space) == p;
    JoinedEntries(data, es, sep);
    assert AtomValuesFrom(data, RunEnd(data, |Join(es, sep)|, Space), m) == AtomValuesFrom(data, p, m);
  }

  /** Joined entries at the start of the text, not followed by a letter or
      digit: the loop stores them all and goes on after the spaces. */
  lemma JoinedEntries(data: string, es: seq<Entry>, sep: string)
    requires es != [] && ValidEntries(es) && |sep| > 0 && AllSpaces(sep)
    requires At(data, 0, Join(es, sep))
    requires |Join(es, sep)| == |data| || !IsText(data[|Join(es, sep)|])
    ensures AtomValuesFrom(data, 0, map[])
      == AtomValuesFrom(data, RunEnd(data, |Join(es, sep)|, Space), Apply(map[], es))
  {
    JoinLaidOut(data, 0, es, sep, |Join(es, sep)|);
    assert |Join(es, sep)| <= |data|;
    hide AtomValuesFrom, AtomAt, WordAt, RunEnd, Apply, ValidEntries, ValidEntry, AllSpaces, IsText, At;
    EntriesFrom(data, 0, es, sep, map[], |Join(es, sep)|);
  }

  /** Joined entries at the start of the text: the loop starts at the first
      entry. */
  lemma JoinedAtStart(data: string, es: seq<Entry>, sep: string, lead: string)
    requires es != [] && ValidEntries(es) && lead == Join(es, sep) && At(data, 0, lead)
    ensures RunEnd(data, 0, Space) == 0
  {
    JoinStarts(es, sep);
    EntryStarts(es[0]);
    AtChar(data, 0, lead, 0);
    RunEndStops(data, 0, Space);
  }
}
