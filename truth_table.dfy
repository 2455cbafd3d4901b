/** Truth-table enumeration and the tautology/contradiction decision of the
    command-line tool. */
module TruthTable {
  import opened Results
  import opened SyntaxTree

  function Pow2(n: nat): (p: nat)
    ensures p >= 1
  {
    if n == 0 then 1 else 2 * Pow2(n - 1)
  }

  /** `s` shifted right by `i` bits. */
  function Shift(s: nat, i: nat): nat {
    if i == 0 then s else Shift(s / 2, i - 1)
  }

  /** Bit `i` of `s`, the least significant bit being bit 0. */
  function Bit(s: nat, i: nat): bool {
    Shift(s, i) % 2 == 1
  }

  predicate Distinct(xs: seq<string>) {
    forall i, j | 0 <= i < j < |xs| :: xs[i] != xs[j]
  }

  /** The assignment of row `state` to the first `n` atoms: atom `i` gets
      bit `i` of the state. */
  function RowPrefix(atoms: seq<string>, state: nat, n: nat): Assignment
    requires n <= |atoms|
  {
    if n == 0 then map[] else RowPrefix(atoms, state, n - 1)[atoms[n - 1] := Bit(state, n - 1)]
  }

  /** The assignment of row `state`. */
  function Row(atoms: seq<string>, state: nat): Assignment {
    RowPrefix(atoms, state, |atoms|)
  }

  // ---------------------------------------------------------------------
  // The bit decoding

  /** One more shift halves the shifted state, as `bits = bits // 2` does. */
  lemma {:induction false} ShiftStep(s: nat, i: nat)
    ensures Shift(s, i + 1) == Shift(s, i) / 2
  {
    if i > 0 {
      ShiftStep(s / 2, i - 1);
    }
  }

  // ---------------------------------------------------------------------
  // Rows

  /** Row `state` assigns exactly the atoms. */
  lemma {:induction false} RowPrefixKeys(atoms: seq<string>, state: nat, n: nat)
    requires n <= |atoms|
    ensures RowPrefix(atoms, state, n).Keys == set i | 0 <= i < n :: atoms[i]
  {
    if n > 0 {
      RowPrefixKeys(atoms, state, n - 1);
      assert (set i | 0 <= i < n :: atoms[i]) == (set i | 0 <= i < n - 1 :: atoms[i]) + {atoms[n - 1]};
    }
  }

  lemma RowKeys(atoms: seq<string>, state: nat)
    ensures forall a :: a in Row(atoms, state) <==> a in atoms
  {
    RowPrefixKeys(atoms, state, |atoms|);
    forall a | a in atoms
      ensures a in Row(atoms, state)
    {
      var i :| 0 <= i < |atoms| && atoms[i] == a;
    }
  }

  /** With distinct atoms, atom `i` of row `state` holds bit `i`. */
  lemma {:induction false} RowPrefixBit(atoms: seq<string>, state: nat, n: nat, i: nat)
    requires Distinct(atoms) && i < n <= |atoms|
    ensures atoms[i] in RowPrefix(atoms, state, n)
    ensures RowPrefix(atoms, state, n)[atoms[i]] == Bit(state, i)
  {
    if i < n - 1 {
      RowPrefixBit(atoms, state, n - 1, i);
    }
  }

  /** Two different states below 2^k differ in one of their first k bits. */
  lemma {:induction false} BitsDiffer(s1: nat, s2: nat, k: nat) returns (i: nat)
    requires s1 != s2 && s1 < Pow2(k) && s2 < Pow2(k)
    ensures i < k && Bit(s1, i) != Bit(s2, i)
  {
    assert k > 0;
    if s1 % 2 != s2 % 2 {
      i := 0;
    } else {
      var j := BitsDiffer(s1 / 2, s2 / 2, k - 1);
      i := j + 1;
    }
  }

  /** Distinct atoms give a different assignment to every state below 2^k. */
  lemma RowsDistinct(atoms: seq<string>, s1: nat, s2: nat)
    requires Distinct(atoms)
    requires s1 != s2 && s1 < Pow2(|atoms|) && s2 < Pow2(|atoms|)
    ensures Row(atoms, s1) != Row(atoms, s2)
  {
    var i := BitsDiffer(s1, s2, |atoms|);
    RowPrefixBit(atoms, s1, |atoms|, i);
    RowPrefixBit(atoms, s2, |atoms|, i);
  }

  /** The state whose bit `i` is `bits[i]`. */
  function Encode(bits: seq<bool>): nat {
    if bits == [] then 0 else (if bits[0] then 1 else 0) + 2 * Encode(bits[1..])
  }

  lemma {:induction false} EncodeBits(bits: seq<bool>)
    ensures Encode(bits) < Pow2(|bits|)
    ensures forall i | 0 <= i < |bits| :: Bit(Encode(bits), i) == bits[i]
  {
    if bits != [] {
      var e := Encode(bits);
      EncodeBits(bits[1..]);
      assert e / 2 == Encode(bits[1..]);
      forall i | 0 < i < |bits|
        ensures Bit(e, i) == bits[i]
      {
        assert Bit(e, i) == Bit(e / 2, i - 1);
        assert bits[1..][i - 1] == bits[i];
      }
    }
  }

  /** Every assignment of exactly the (distinct) atoms is some row below
      2^k. */
  lemma RowsCover(atoms: seq<string>, env: Assignment) returns (state: nat)
    requires Distinct(atoms)
    requires forall a :: a in env <==> a in atoms
    ensures state < Pow2(|atoms|) && Row(atoms, state) == env
  {
    var bits := seq(|atoms|, i requires 0 <= i < |atoms| => env[atoms[i]]);
    state := Encode(bits);
    EncodeBits(bits);
    RowKeys(atoms, state);
    forall a | a in env
      ensures Row(atoms, state)[a] == env[a]
    {
      var i :| 0 <= i < |atoms| && atoms[i] == a;
      RowPrefixBit(atoms, state, |atoms|, i);
    }
  }

  // ---------------------------------------------------------------------
  // The table

  /** `list(formula.resolve())`: the atoms in an unspecified order, each once. */
  method AtomList(atoms: set<string>) returns (xs: seq<string>)
    ensures Distinct(xs) && |xs| == |atoms|
    ensures forall a :: a in xs <==> a in atoms
  {
    xs := [];
    var rest := atoms;
    while rest != {}
      invariant Distinct(xs) && |xs| + |rest| == |atoms|
      invariant forall a :: a in atoms <==> a in xs || a in rest
      invariant forall a :: a in xs ==> a !in rest
      decreases |rest|
    {
      var a :| a in rest;
      xs := xs + [a];
      rest := rest - {a};
    }
  }

  /** `create_truth_table`: for every state below 2^k in increasing order,
      the assignment giving atom `i` bit `i` of the state, and the formula's
      value under it. */
  method CreateTruthTable(f: Formula) returns (atoms: seq<string>, table: seq<(Assignment, bool)>)
    ensures Distinct(atoms) && forall a :: a in atoms <==> a in Atoms(f)
    ensures |table| == Pow2(|atoms|)
    ensures forall s | 0 <= s < |table| ::
      table[s].0 == Row(atoms, s) && Eval(f, table[s].0) == Ok(table[s].1)
  {
    hide Eval, Pow2, Atoms, Distinct;
    atoms := AtomList(Atoms(f));
    table := [];
    for state := 0 to Pow2(|atoms|)
      invariant |table| == state
      invariant forall s | 0 <= s < state ::
        table[s].0 == Row(atoms, s) && Eval(f, table[s].0) == Ok(table[s].1)
    {
      var bits := state;
      var values: Assignment := map[];
      for i := 0 to |atoms|
        invariant bits == Shift(state, i)
        invariant values == RowPrefix(atoms, state, i)
      {
        values := values[atoms[i] := bits % 2 == 1];
        ShiftStep(state, i);
        bits := bits / 2;
      }
      RowKeys(atoms, state);
      var result := Eval(f, values);
      table := table + [(values, result.value)];
    }
  }

  /** The `is-tautology` decision: false as soon as a row's result equals
      `inverted`. So it holds when the formula is true under every
      assignment of its atoms (a tautology), or, with `inverted`, false under
      every one (a contradiction). */
  method IsTautology(f: Formula, inverted: bool) returns (holds: bool)
    ensures holds <==> forall env: Assignment :: env.Keys == Atoms(f) ==> Eval(f, env) == Ok(!inverted)
  {
    var atoms, table := CreateTruthTable(f);
    for i := 0 to |table|
      invariant forall j | 0 <= j < i :: table[j].1 != inverted
    {
      if table[i].1 == inverted {
        var env := table[i].0;
        assert env == Row(atoms, i) && Eval(f, env) == Ok(inverted);
        RowKeys(atoms, i);
        assert env.Keys == Atoms(f);
        return false;
      }
    }
    forall env: Assignment | env.Keys == Atoms(f)
      ensures Eval(f, env) == Ok(!inverted)
    {
      var s := RowsCover(atoms, env);
      assert table[s].0 == env;
    }
    return true;
  }
}
