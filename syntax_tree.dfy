/** The formula tree: constants, atoms, negation and the five binary
    connectives, with evaluation against an assignment, the set of atoms a
    formula mentions, and its fully parenthesised text. */
module SyntaxTree {
  import opened Results

  /** The five two-argument connectives. */
  datatype Kind = Conjunction | Disjunction | ExclusiveDisjunction | Implication | Equivalence

  /** The parser only ever builds two-child connective nodes and one-child
      negations, so the node shapes are fixed here. */
  datatype Formula =
    | Constant(value: bool)
    | Atom(name: string)
    | Negation(child: Formula)
    | Binary(kind: Kind, left: Formula, right: Formula)

  /** Evaluation of an atom that the assignment does not define. */
  datatype KeyError = KeyError(name: string)

  type Assignment = map<string, bool>

  /** The names of the atoms that occur in `f` (`resolve`): the classical
      truth value of `f` depends on no other name. */
  function Atoms(f: Formula): (r: set<string>)
    ensures forall v1: string -> bool, v2: string -> bool
      | forall n | n in r :: v1(n) == v2(n) :: Holds(f, v1) == Holds(f, v2)
  {
    match f
    case Constant(_) => {}
    case Atom(n) => {n}
    case Negation(x) => Atoms(x)
    case Binary(_, l, r) => Atoms(l) + Atoms(r)
  }

  /** Evaluation as the toolkit performs it: children left to right,
      conjunction and disjunction stopping at the first child that decides
      the result, and a missing atom raising `KeyError`. A raised error always
      names an atom of `f` that the assignment lacks. */
  function Eval(f: Formula, env: Assignment): (r: Result<bool, KeyError>)
    ensures r.Err? ==> r.error.name in Atoms(f) && r.error.name !in env
  {
    match f
    case Constant(v) => Ok(v)
    case Atom(n) => if n in env then Ok(env[n]) else Err(KeyError(n))
    case Negation(x) =>
      var v :- Eval(x, env);
      Ok(!v)
    case Binary(Conjunction, l, r) =>
      var a :- Eval(l, env);
      if !a then Ok(false) else Eval(r, env)
    case Binary(Disjunction, l, r) =>
      var a :- Eval(l, env);
      if a then Ok(true) else Eval(r, env)
    case Binary(Implication, l, r) =>
      var a :- Eval(l, env);
      var b :- Eval(r, env);
      if a && !b then Ok(false) else Ok(true)
    case Binary(Equivalence, l, r) =>
      var a :- Eval(l, env);
      var b :- Eval(r, env);
      Ok(a == b)
    case Binary(ExclusiveDisjunction, l, r) =>
      var a :- Eval(l, env);
      var b :- Eval(r, env);
      Ok(a != b)
  }

  /** Classical two-valued semantics under a total valuation, the reference
      that `Eval` is measured against. */
  ghost function Holds(f: Formula, v: string -> bool): bool {
    match f
    case Constant(b) => b
    case Atom(n) => v(n)
    case Negation(x) => !Holds(x, v)
    case Binary(Conjunction, l, r) => Holds(l, v) && Holds(r, v)
    case Binary(Disjunction, l, r) => Holds(l, v) || Holds(r, v)
    case Binary(ExclusiveDisjunction, l, r) => Holds(l, v) != Holds(r, v)
    case Binary(Implication, l, r) => Holds(l, v) ==> Holds(r, v)
    case Binary(Equivalence, l, r) => Holds(l, v) <==> Holds(r, v)
  }

  /** The total valuation that reads an assignment (absent atoms are false). */
  ghost function Valuation(env: Assignment): string -> bool {
    n => n in env && env[n]
  }

  /** When the assignment covers the formula's atoms, evaluation never
      raises and computes the classical truth value. */
  lemma {:induction false} EvalMatchesHolds(f: Formula, env: Assignment)
    requires Atoms(f) <= env.Keys
    ensures Eval(f, env) == Ok(Holds(f, Valuation(env)))
  {
    match f
    case Constant(_) =>
    case Atom(n) =>
    case Negation(x) =>
      EvalMatchesHolds(x, env);
    case Binary(_, l, r) =>
      EvalMatchesHolds(l, env);
      EvalMatchesHolds(r, env);
  }

  /** Two assignments that agree on the formula's atoms (on presence as well
      as on value) give the same result, error included. */
  lemma {:induction false} EvalDependsOnlyOnAtoms(f: Formula, e1: Assignment, e2: Assignment)
    requires forall n :: n in Atoms(f) ==> (n in e1 <==> n in e2)
    requires forall n :: n in Atoms(f) && n in e1 && n in e2 ==> e1[n] == e2[n]
    ensures Eval(f, e1) == Eval(f, e2)
  {
    match f
    case Constant(_) =>
    case Atom(n) =>
    case Negation(x) =>
      EvalDependsOnlyOnAtoms(x, e1, e2);
    case Binary(k, l, r) =>
      EvalDependsOnlyOnAtoms(l, e1, e2);
      EvalDependsOnlyOnAtoms(r, e1, e2);
      EvalBinaryCongruent(k, l, r, e1, e2);
  }

  /** A binary node evaluates alike under two assignments under which both
      children do. */
  lemma EvalBinaryCongruent(k: Kind, l: Formula, r: Formula, e1: Assignment, e2: Assignment)
    requires Eval(l, e1) == Eval(l, e2) && Eval(r, e1) == Eval(r, e2)
    ensures Eval(Binary(k, l, r), e1) == Eval(Binary(k, l, r), e2)
  {
  }

  /** Conjunction and disjunction stop at a deciding left child, so the
      right child's atoms need not be assigned then. */
  lemma ShortCircuit(l: Formula, r: Formula, env: Assignment)
    ensures Eval(l, env) == Ok(false) ==> Eval(Binary(Conjunction, l, r), env) == Ok(false)
    ensures Eval(l, env) == Ok(true) ==> Eval(Binary(Disjunction, l, r), env) == Ok(true)
  {
  }

  /** The truth-functional cases of the three strict connectives: implication
      is false exactly for a true left and a false right side, and exclusive
      disjunction is the negation of equivalence (they raise alike). */
  lemma StrictConnectives(l: Formula, r: Formula, env: Assignment)
    ensures Eval(Binary(Implication, l, r), env) == Ok(false)
        <==> Eval(l, env) == Ok(true) && Eval(r, env) == Ok(false)
    ensures Eval(Binary(ExclusiveDisjunction, l, r), env).Ok?
        <==> Eval(Binary(Equivalence, l, r), env).Ok?
    ensures Eval(Binary(ExclusiveDisjunction, l, r), env).Ok? ==>
      Eval(Binary(ExclusiveDisjunction, l, r), env).value
        == !Eval(Binary(Equivalence, l, r), env).value
  {
  }

  /** The operator symbol each connective prints with. */
  function Symbol(k: Kind): string {
    match k
    case Conjunction => "/\\"
    case Disjunction => "\\/"
    case ExclusiveDisjunction => "^"
    case Implication => "->"
    case Equivalence => "<->"
  }

  /** The fully parenthesised text of a formula (`__str__`). When no atom
      name holds a parenthesis, every `(` it writes is matched by a `)`. */
  function Show(f: Formula): (r: string)
    ensures (forall n | n in Atoms(f) :: '(' !in n && ')' !in n) ==> Balanced(r)
  {
    match f
    case Constant(b) =>
      Unbracketed("T");
      Unbracketed("F");
      if b then "T" else "F"
    case Atom(n) =>
      Unbracketed(n);
      n
    case Negation(x) =>
      var s := Show(x);
      NegationBalanced(s);
      "!(" + s + ")"
    case Binary(k, a, b) =>
      var s, t := Show(a), Show(b);
      BinaryBalanced(s, k, t);
      "(" + s + ")" + Symbol(k) + "(" + t + ")"
  }

  /** As many `(` as `)`. */
  predicate Balanced(s: string) {
    multiset(s)['('] == multiset(s)[')']
  }

  lemma Unbracketed(s: string)
    ensures '(' !in s && ')' !in s ==> Balanced(s)
  {
    assert '(' in s <==> '(' in multiset(s);
    assert ')' in s <==> ')' in multiset(s);
  }

  lemma NegationBalanced(s: string)
    ensures Balanced(s) ==> Balanced("!(" + s + ")")
  {
    assert "!(" + s + ")" == ['!', '('] + s + [')'];
    assert multiset(['!', '('] + s + [')']) == multiset(['!', '(']) + multiset(s) + multiset([')']);
  }

  lemma BinaryBalanced(s: string, k: Kind, t: string)
    ensures Balanced(s) && Balanced(t) ==> Balanced("(" + s + ")" + Symbol(k) + "(" + t + ")")
  {
    var m := Symbol(k);
    assert '(' !in m && ')' !in m;
    Unbracketed(m);
    assert '(' !in multiset(m) && ')' !in multiset(m);
    var u := "(" + s + ")" + m + "(" + t + ")";
    assert multiset(u) == multiset("(") + multiset(s) + multiset(")") + multiset(m) + multiset("(") + multiset(t) + multiset(")");
  }
}
