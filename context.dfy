/** The symbol table of the SMT side (`Context` in `src/context/mod.rs`):
    a multimap from names to overloaded signatures, a table of function
    bodies, and the logic flags. The sorts, terms and logic come from files
    that are not part of this model; they appear here only as far as this
    file uses them. */
module SmtContext {
  import opened Wrappers
  import opened Numerals

  /** `Sort`: the model names the two sorts this file uses; `Named`
      stands for any other. */
  datatype Sort = Bool | Int | Named(name: string)

  /** A term, as `peek_name` and `peek_args` see it. */
  datatype Term = Term(name: string, args: seq<Term>)

  /** The logic flags: quantifiers, linear integer arithmetic and
      uninterpreted functions. `Logic::new` is taken to clear all three. */
  datatype Logic = Logic(q: bool, lia: bool, uf: bool)

  const NoLogic := Logic(false, false, false)

  /** `Sig`: named, sorted parameters and a return sort. */
  datatype Sig = Sig(params: seq<(string, Sort)>, rsort: Sort)

  /** The `MultiMap`: each name with its signatures, oldest first. A name
      is a key only while it has a signature. */
  type Table = map<string, seq<Sig>>

  /** The signatures of `name`, none when it is not a key. */
  function Lookup(tbl: Table, name: string): seq<Sig> {
    if name in tbl then tbl[name] else []
  }

  /** Every key has a signature. */
  ghost predicate NonEmpty(tbl: Table) {
    forall name :: name in tbl ==> |tbl[name]| > 0
  }

  /** `MultiMap::insert`: the signature joins the end of the name's list. */
  function Insert(tbl: Table, name: string, sig: Sig): (t: Table)
    ensures Lookup(t, name) == Lookup(tbl, name) + [sig]
    ensures forall k :: k != name ==> Lookup(t, k) == Lookup(tbl, k)
    ensures t.Keys == tbl.Keys + {name}
    ensures NonEmpty(tbl) ==> NonEmpty(t)
  {
    tbl[name := Lookup(tbl, name) + [sig]]
  }

  /** The entries inserted one after another, in order. */
  function InsertAll(tbl: Table, entries: seq<(string, Sig)>): (t: Table)
    ensures NonEmpty(tbl) ==> NonEmpty(t)
  {
    if entries == [] then tbl
    else
      var e := entries[|entries| - 1];
      Insert(InsertAll(tbl, entries[..|entries| - 1]), e.0, e.1)
  }

  /** The signatures that `entries` holds for `name`, in order. */
  function SigsFor(entries: seq<(string, Sig)>, name: string): seq<Sig> {
    if entries == [] then []
    else
      var e := entries[|entries| - 1];
      SigsFor(entries[..|entries| - 1], name) + (if e.0 == name then [e.1] else [])
  }

  /** The multimap keeps each name's signatures in insertion order: after
      a run of insertions, a name has its old signatures followed by the
      new ones for it. */
  lemma {:induction false} InsertAllLookup(tbl: Table, entries: seq<(string, Sig)>, name: string)
    ensures Lookup(InsertAll(tbl, entries), name) == Lookup(tbl, name) + SigsFor(entries, name)
    decreases |entries|
  {
    if entries != [] {
      InsertAllLookup(tbl, entries[..|entries| - 1], name);
    }
  }

  /** The names `entries` inserts. */
  function EntryNames(entries: seq<(string, Sig)>): set<string> {
    if entries == [] then {} else EntryNames(entries[..|entries| - 1]) + {entries[|entries| - 1].0}
  }

  /** The keys after a run of insertions: the old ones and the inserted
      names. */
  lemma {:induction false} InsertAllKeys(tbl: Table, entries: seq<(string, Sig)>)
    ensures InsertAll(tbl, entries).Keys == tbl.Keys + EntryNames(entries)
    decreases |entries|
  {
    if entries != [] {
      InsertAllKeys(tbl, entries[..|entries| - 1]);
    }
  }

  /** Inserting two runs is inserting their concatenation. */
  lemma {:induction false} InsertAllAppend(tbl: Table, a: seq<(string, Sig)>, b: seq<(string, Sig)>)
    ensures InsertAll(tbl, a + b) == InsertAll(InsertAll(tbl, a), b)
    decreases |b|
  {
    if b == [] {
      assert a + b == a;
    } else {
      var front := b[..|b| - 1];
      assert (a + b)[..|a + b| - 1] == a + front;
      assert (a + b)[|a + b| - 1] == b[|b| - 1];
      InsertAllAppend(tbl, a, front);
    }
  }

  /** A list of parameter names, each with the sort `s`
      (`names.into_iter().map(|n| (n.to_owned(), s))`). */
  function Params(names: seq<string>, s: Sort): (ps: seq<(string, Sort)>)
    ensures |ps| == |names| && forall i :: 0 <= i < |names| ==> ps[i] == (names[i], s)
  {
    seq(|names|, i requires 0 <= i < |names| => (names[i], s))
  }

  /** One signature of `op` per list of parameter names, in order. */
  function Overloads(op: string, arities: seq<seq<string>>, psort: Sort, rsort: Sort): seq<(string, Sig)> {
    if arities == [] then []
    else Overloads(op, arities[..|arities| - 1], psort, rsort) + [(op, Sig(Params(arities[|arities| - 1], psort), rsort))]
  }

  /** What a nested loop of `add_booleans` or `add_integers` inserts: for
      each operator in turn, its overloads. */
  function Family(ops: seq<string>, arities: seq<seq<string>>, psort: Sort, rsort: Sort): seq<(string, Sig)> {
    if ops == [] then []
    else Family(ops[..|ops| - 1], arities, psort, rsort) + Overloads(ops[|ops| - 1], arities, psort, rsort)
  }

  /** The parameter names of the two- to four-ary overloads. */
  const UpToFour: seq<seq<string>> := [["a", "b"], ["a", "b", "c"], ["a", "b", "c", "d"]]

  const NotSig := Sig([("a", Bool)], Bool)
  const ImpliesSig := Sig([("a", Bool), ("b", Bool)], Bool)
  const BoolIteSig := Sig([("a", Bool), ("b", Bool), ("c", Bool)], Bool)
  const NegSig := Sig([("a", Int)], Int)
  const IntIteSig := Sig([("a", Bool), ("b", Int), ("c", Int)], Int)

  /** The operators of the nested loop of `add_booleans`, and the
      signatures it inserts one by one after the loop. */
  const BoolOps: seq<string> := ["and", "or", "="]
  const BoolRest: seq<(string, Sig)> := [("not", NotSig), ("=>", ImpliesSig), ("ite", BoolIteSig)]

  /** The operators of the three nested loops of `add_integers`, and the
      signatures it inserts one by one after them. */
  const IntEqOps: seq<string> := ["="]
  const IntCmpOps: seq<string> := ["<", "<=", ">", ">="]
  const IntArithOps: seq<string> := ["+", "*", "-"]
  const Binary: seq<seq<string>> := [["a", "b"]]
  const IntRest: seq<(string, Sig)> := [("-", NegSig), ("ite", IntIteSig)]

  /** What `add_booleans` inserts, in order. */
  function BooleanEntries(): seq<(string, Sig)> {
    Family(BoolOps, UpToFour, Bool, Bool) + BoolRest
  }

  /** What `add_integers` inserts, in order. */
  function IntegerEntries(): seq<(string, Sig)> {
    Family(IntEqOps, UpToFour, Int, Bool) + Family(IntCmpOps, Binary, Int, Bool)
      + Family(IntArithOps, UpToFour, Int, Int) + IntRest
  }

  predicate DistinctNames(ops: seq<string>) {
    forall i, j :: 0 <= i < j < |ops| ==> ops[i] != ops[j]
  }

  /** The signatures `Overloads` gives an operator. */
  function OverloadSigs(arities: seq<seq<string>>, psort: Sort, rsort: Sort): (sigs: seq<Sig>)
    ensures |sigs| == |arities|
    ensures forall i :: 0 <= i < |arities| ==> sigs[i] == Sig(Params(arities[i], psort), rsort)
  {
    seq(|arities|, i requires 0 <= i < |arities| => Sig(Params(arities[i], psort), rsort))
  }

  lemma {:induction false} SigsForAppend(a: seq<(string, Sig)>, b: seq<(string, Sig)>, name: string)
    ensures SigsFor(a + b, name) == SigsFor(a, name) + SigsFor(b, name)
    ensures EntryNames(a + b) == EntryNames(a) + EntryNames(b)
    decreases |b|
  {
    if b == [] {
      assert a + b == a;
    } else {
      var front := b[..|b| - 1];
      assert (a + b)[..|a + b| - 1] == a + front;
      assert (a + b)[|a + b| - 1] == b[|b| - 1];
      SigsForAppend(a, front, name);
    }
  }

  lemma {:induction false} SigsForOverloads(op: string, arities: seq<seq<string>>, psort: Sort, rsort: Sort, name: string)
    ensures SigsFor(Overloads(op, arities, psort, rsort), name) == if op == name then OverloadSigs(arities, psort, rsort) else []
    decreases |arities|
  {
    if arities != [] {
      var front := arities[..|arities| - 1];
      var sig := Sig(Params(arities[|arities| - 1], psort), rsort);
      var before := Overloads(op, front, psort, rsort);
      var all := before + [(op, sig)];
      assert all[..|all| - 1] == before;
      SigsForOverloads(op, front, psort, rsort, name);
      if op == name {
        assert OverloadSigs(arities, psort, rsort) == OverloadSigs(front, psort, rsort) + [sig];
      }
    }
  }

  lemma {:induction false} OverloadsNames(op: string, arities: seq<seq<string>>, psort: Sort, rsort: Sort)
    ensures EntryNames(Overloads(op, arities, psort, rsort)) == if arities == [] then {} else {op}
    decreases |arities|
  {
    if arities != [] {
      var front := arities[..|arities| - 1];
      var sig := Sig(Params(arities[|arities| - 1], psort), rsort);
      var before := Overloads(op, front, psort, rsort);
      var all := before + [(op, sig)];
      assert all[..|all| - 1] == before;
      OverloadsNames(op, front, psort, rsort);
    }
  }

  /** A family of distinct operators gives each of them the overloads,
      and every other name none. */
  lemma {:induction false} SigsForFamily(ops: seq<string>, arities: seq<seq<string>>, psort: Sort, rsort: Sort, name: string)
    requires DistinctNames(ops)
    ensures SigsFor(Family(ops, arities, psort, rsort), name) == if name in ops then OverloadSigs(arities, psort, rsort) else []
    decreases |ops|
  {
    if ops != [] {
      var front := ops[..|ops| - 1];
      var op := ops[|ops| - 1];
      SigsForFamily(front, arities, psort, rsort, name);
      SigsForOverloads(op, arities, psort, rsort, name);
      SigsForAppend(Family(front, arities, psort, rsort), Overloads(op, arities, psort, rsort), name);
      assert ops == front + [op];
      assert name in front ==> name != op;
    }
  }

  /** The names a family inserts are its operators. */
  lemma {:induction false} FamilyNames(ops: seq<string>, arities: seq<seq<string>>, psort: Sort, rsort: Sort)
    requires arities != []
    ensures forall x :: x in EntryNames(Family(ops, arities, psort, rsort)) <==> x in ops
    decreases |ops|
  {
    if ops != [] {
      var front := ops[..|ops| - 1];
      var op := ops[|ops| - 1];
      FamilyNames(front, arities, psort, rsort);
      OverloadsNames(op, arities, psort, rsort);
      SigsForAppend(Family(front, arities, psort, rsort), Overloads(op, arities, psort, rsort), op);
      assert ops == front + [op];
    }
  }

  lemma {:induction false} SigsForAbsent(entries: seq<(string, Sig)>, name: string)
    requires forall i :: 0 <= i < |entries| ==> entries[i].0 != name
    ensures SigsFor(entries, name) == []
    decreases |entries|
  {
    if entries != [] {
      SigsForAbsent(entries[..|entries| - 1], name);
    }
  }

  /** A name that occurs once among the entries has exactly its own
      signature. */
  lemma {:induction false} SigsForUnique(entries: seq<(string, Sig)>, i: nat)
    requires i < |entries|
    requires forall j, k :: 0 <= j < k < |entries| ==> entries[j].0 != entries[k].0
    ensures SigsFor(entries, entries[i].0) == [entries[i].1]
    decreases |entries|
  {
    var front := entries[..|entries| - 1];
    if i == |entries| - 1 {
      SigsForAbsent(front, entries[i].0);
    } else {
      SigsForUnique(front, i);
      assert front[i] == entries[i];
    }
  }

  lemma InsertAllTwo(tbl: Table, a: (string, Sig), b: (string, Sig))
    ensures InsertAll(tbl, [a, b]) == Insert(Insert(tbl, a.0, a.1), b.0, b.1)
  {
    assert [a, b][..1] == [a];
    assert [a][..0] == [];
    assert InsertAll(tbl, [a]) == Insert(tbl, a.0, a.1);
  }

  lemma InsertAllThree(tbl: Table, a: (string, Sig), b: (string, Sig), c: (string, Sig))
    ensures InsertAll(tbl, [a, b, c]) == Insert(Insert(Insert(tbl, a.0, a.1), b.0, b.1), c.0, c.1)
  {
    assert [a, b, c][..2] == [a, b];
    InsertAllTwo(tbl, a, b);
  }

  /** A run followed by three more entries. */
  lemma InsertAllThenThree(tbl: Table, run: seq<(string, Sig)>, a: (string, Sig), b: (string, Sig), c: (string, Sig))
    ensures InsertAll(tbl, run + [a, b, c]) == Insert(Insert(Insert(InsertAll(tbl, run), a.0, a.1), b.0, b.1), c.0, c.1)
  {
    InsertAllAppend(tbl, run, [a, b, c]);
    InsertAllThree(InsertAll(tbl, run), a, b, c);
  }

  /** A run followed by two more entries. */
  lemma InsertAllThenTwo(tbl: Table, run: seq<(string, Sig)>, a: (string, Sig), b: (string, Sig))
    ensures InsertAll(tbl, run + [a, b]) == Insert(Insert(InsertAll(tbl, run), a.0, a.1), b.0, b.1)
  {
    InsertAllAppend(tbl, run, [a, b]);
    InsertAllTwo(InsertAll(tbl, run), a, b);
  }

  lemma InsertAllSnoc(tbl: Table, entries: seq<(string, Sig)>, e: (string, Sig))
    ensures InsertAll(tbl, entries + [e]) == Insert(InsertAll(tbl, entries), e.0, e.1)
  {
    assert (entries + [e])[..|entries|] == entries;
  }

  // -------------------------------------------------------------------
  // The signatures `add_booleans` and `add_integers` install

  lemma SigsForTriple(a: (string, Sig), b: (string, Sig), c: (string, Sig), name: string)
    ensures SigsFor([a, b, c], name)
      == (if a.0 == name then [a.1] else []) + (if b.0 == name then [b.1] else []) + (if c.0 == name then [c.1] else [])
    ensures EntryNames([a, b, c]) == {a.0, b.0, c.0}
  {
    assert [a, b, c][..2] == [a, b];
    assert [a, b][..1] == [a];
    assert [a][..0] == [];
    assert SigsFor([a], name) == SigsFor([], name) + (if a.0 == name then [a.1] else []);
    assert EntryNames([a]) == {a.0};
    assert EntryNames([a, b]) == {a.0, b.0};
  }

  lemma BoolRestSigs(name: string)
    ensures SigsFor(BoolRest, name)
      == (if name == "not" then [NotSig] else []) + (if name == "=>" then [ImpliesSig] else []) + (if name == "ite" then [BoolIteSig] else [])
    ensures EntryNames(BoolRest) == {"not", "=>", "ite"}
  {
    SigsForTriple(("not", NotSig), ("=>", ImpliesSig), ("ite", BoolIteSig), name);
  }

  /** Inserting two runs of entries one after another. */
  lemma LookupAfterTwoRuns(tbl: Table, e1: seq<(string, Sig)>, e2: seq<(string, Sig)>, name: string)
    ensures Lookup(InsertAll(tbl, e1 + e2), name) == Lookup(tbl, name) + SigsFor(e1, name) + SigsFor(e2, name)
  {
    InsertAllAppend(tbl, e1, e2);
    InsertAllLookup(tbl, e1, name);
    InsertAllLookup(InsertAll(tbl, e1), e2, name);
  }

  /** After `add_booleans`, a name has its old signatures, then the
      overloads of the loop if it is one of its operators, then the
      signatures inserted after the loop. */
  lemma BooleanLookup(tbl: Table, name: string)
    ensures Lookup(InsertAll(tbl, BooleanEntries()), name)
      == Lookup(tbl, name) + (if name in BoolOps then OverloadSigs(UpToFour, Bool, Bool) else []) + SigsFor(BoolRest, name)
  {
    LookupAfterTwoRuns(tbl, Family(BoolOps, UpToFour, Bool, Bool), BoolRest, name);
    assert DistinctNames(BoolOps);
    SigsForFamily(BoolOps, UpToFour, Bool, Bool, name);
  }

  /** `and`, `or` and `=` gain the Boolean overloads with two, three and
      four parameters. */
  lemma BooleanOperatorSigs(tbl: Table, name: string)
    requires name in BoolOps
    ensures Lookup(InsertAll(tbl, BooleanEntries()), name) == Lookup(tbl, name) + OverloadSigs(UpToFour, Bool, Bool)
  {
    BooleanLookup(tbl, name);
    BoolRestSigs(name);
  }

  /** `not`, `=>` and `ite` gain one signature each. */
  lemma BooleanConnectiveSigs(tbl: Table, i: nat)
    requires i < |BoolRest|
    ensures Lookup(InsertAll(tbl, BooleanEntries()), BoolRest[i].0) == Lookup(tbl, BoolRest[i].0) + [BoolRest[i].1]
  {
    var name := BoolRest[i].0;
    BoolRestOwnSig(i);
    BooleanLookup(tbl, name);
  }

  /** Each connective after the loop has exactly its own signature in
      that run, and is not one of the loop's operators. */
  lemma BoolRestOwnSig(i: nat)
    requires i < |BoolRest|
    ensures SigsFor(BoolRest, BoolRest[i].0) == [BoolRest[i].1]
    ensures BoolRest[i].0 !in BoolOps
  {
    BoolRestSigs(BoolRest[i].0);
    if i == 0 {
      assert BoolRest[i].0 == "not";
    } else if i == 1 {
      assert BoolRest[i].0 == "=>";
    } else {
      assert BoolRest[i].0 == "ite";
    }
  }

  /** `add_booleans` declares these six names and no other. */
  lemma BooleanNames(tbl: Table)
    ensures InsertAll(tbl, BooleanEntries()).Keys == tbl.Keys + {"and", "or", "=", "not", "=>", "ite"}
  {
    InsertAllKeys(tbl, BooleanEntries());
    BooleanEntryNames();
  }

  lemma BooleanEntryNames()
    ensures EntryNames(BooleanEntries()) == {"and", "or", "=", "not", "=>", "ite"}
  {
    var fam := Family(BoolOps, UpToFour, Bool, Bool);
    SigsForAppend(fam, BoolRest, "");
    BoolFamilyNames();
    BoolRestSigs("");
  }

  lemma BoolFamilyNames()
    ensures EntryNames(Family(BoolOps, UpToFour, Bool, Bool)) == {"and", "or", "="}
  {
    FamilyNames(BoolOps, UpToFour, Bool, Bool);
    assert forall x :: x in BoolOps <==> x in {"and", "or", "="};
  }

  /** Inserting four runs of entries one after another. */
  lemma LookupAfterRuns(tbl: Table, e1: seq<(string, Sig)>, e2: seq<(string, Sig)>, e3: seq<(string, Sig)>, e4: seq<(string, Sig)>, name: string)
    ensures Lookup(InsertAll(tbl, e1 + e2 + e3 + e4), name)
      == Lookup(tbl, name) + SigsFor(e1, name) + SigsFor(e2, name) + SigsFor(e3, name) + SigsFor(e4, name)
  {
    var t1 := InsertAll(tbl, e1);
    var t2 := InsertAll(t1, e2);
    var t3 := InsertAll(t2, e3);
    InsertAllAppend(tbl, e1, e2);
    InsertAllAppend(tbl, e1 + e2, e3);
    InsertAllAppend(tbl, e1 + e2 + e3, e4);
    InsertAllLookup(tbl, e1, name);
    InsertAllLookup(t1, e2, name);
    InsertAllLookup(t2, e3, name);
    InsertAllLookup(t3, e4, name);
  }

  lemma IntegerDistinct()
    ensures DistinctNames(IntEqOps) && DistinctNames(IntCmpOps) && DistinctNames(IntArithOps)
  {
  }

  /** After `add_integers`, a name has its old signatures, then the
      overloads of each loop that has it as an operator, then the
      signatures inserted after the loops. */
  lemma IntegerLookup(tbl: Table, name: string)
    ensures Lookup(InsertAll(tbl, IntegerEntries()), name)
      == Lookup(tbl, name)
         + (if name in IntEqOps then OverloadSigs(UpToFour, Int, Bool) else [])
         + (if name in IntCmpOps then OverloadSigs(Binary, Int, Bool) else [])
         + (if name in IntArithOps then OverloadSigs(UpToFour, Int, Int) else [])
         + SigsFor(IntRest, name)
  {
    LookupAfterRuns(tbl, Family(IntEqOps, UpToFour, Int, Bool), Family(IntCmpOps, Binary, Int, Bool),
      Family(IntArithOps, UpToFour, Int, Int), IntRest, name);
    IntegerDistinct();
    SigsForFamily(IntEqOps, UpToFour, Int, Bool, name);
    SigsForFamily(IntCmpOps, Binary, Int, Bool, name);
    SigsForFamily(IntArithOps, UpToFour, Int, Int, name);
  }

  /** The operator groups of `add_integers` are disjoint. */
  lemma IntegerGroups(name: string)
    ensures name in IntCmpOps ==> name !in IntEqOps && name !in IntArithOps && name != "ite"
    ensures name in IntArithOps ==> name !in IntEqOps && name !in IntCmpOps && name != "ite"
    ensures name in IntEqOps ==> name !in IntCmpOps && name !in IntArithOps && name != "ite" && name != "-"
  {
  }

  lemma SigsForPair(a: (string, Sig), b: (string, Sig), name: string)
    ensures SigsFor([a, b], name) == (if a.0 == name then [a.1] else []) + (if b.0 == name then [b.1] else [])
  {
    assert [a, b][..1] == [a];
    assert [a][..0] == [];
    assert SigsFor([a], name) == SigsFor([], name) + (if a.0 == name then [a.1] else []);
  }

  lemma IntRestSigs(name: string)
    ensures SigsFor(IntRest, name) == (if name == "-" then [NegSig] else []) + (if name == "ite" then [IntIteSig] else [])
  {
    SigsForPair(("-", NegSig), ("ite", IntIteSig), name);
  }

  /** Integer `+`, `*` and `-` take two to four integers; `-` is also unary. */
  lemma IntegerArithmeticSigs(tbl: Table, name: string)
    requires name in IntArithOps
    ensures Lookup(InsertAll(tbl, IntegerEntries()), name)
      == Lookup(tbl, name) + OverloadSigs(UpToFour, Int, Int) + (if name == "-" then [NegSig] else [])
  {
    IntegerLookup(tbl, name);
    IntegerGroups(name);
    IntRestSigs(name);
  }

  /** `ite` gains the integer branch signature. */
  lemma IntegerIteSigs(tbl: Table)
    ensures Lookup(InsertAll(tbl, IntegerEntries()), "ite") == Lookup(tbl, "ite") + [IntIteSig]
  {
    IntegerLookup(tbl, "ite");
    IntRestSigs("ite");
  }

  /** Integer `=` joins the Boolean ones, with two to four parameters. */
  lemma IntegerEqualitySigs(tbl: Table)
    ensures Lookup(InsertAll(tbl, IntegerEntries()), "=") == Lookup(tbl, "=") + OverloadSigs(UpToFour, Int, Bool)
  {
    IntegerLookup(tbl, "=");
    IntegerGroups("=");
    IntRestSigs("=");
  }

  /** `<`, `<=`, `>` and `>=` are binary. */
  lemma IntegerComparisonSigs(tbl: Table, name: string)
    requires name in IntCmpOps
    ensures Lookup(InsertAll(tbl, IntegerEntries()), name) == Lookup(tbl, name) + OverloadSigs(Binary, Int, Bool)
  {
    IntegerLookup(tbl, name);
    IntegerGroups(name);
    IntRestSigs(name);
  }

  // -------------------------------------------------------------------
  // Sort resolution (`get_sort`)

  /** An argument whose sort cannot be resolved: `get_sort` panics with
      "term not well-formed!". */
  datatype SortError = IllSortedArgument

  /** The sorts of a parameter list, in order. */
  function ParamSorts(params: seq<(string, Sort)>): (ss: seq<Sort>)
    ensures |ss| == |params| && forall i :: 0 <= i < |params| ==> ss[i] == params[i].1
  {
    seq(|params|, i requires 0 <= i < |params| => params[i].1)
  }

  /** A signature accepts arguments of exactly these sorts, in order. */
  predicate Matches(sig: Sig, sorts: seq<Sort>) {
    ParamSorts(sig.params) == sorts
  }

  /** The return sort of the first signature that accepts `sorts`. */
  function FirstMatch(sigs: seq<Sig>, sorts: seq<Sort>): Option<Sort> {
    if sigs == [] then None
    else if Matches(sigs[0], sorts) then Some(sigs[0].rsort)
    else FirstMatch(sigs[1..], sorts)
  }

  /** A result of `FirstMatch` comes from the earliest accepting
      signature. */
  lemma {:induction false} FirstMatchIndex(sigs: seq<Sig>, sorts: seq<Sort>) returns (i: nat)
    requires FirstMatch(sigs, sorts).Some?
    ensures i < |sigs| && Matches(sigs[i], sorts)
    ensures FirstMatch(sigs, sorts) == Some(sigs[i].rsort)
    ensures forall j :: 0 <= j < i ==> !Matches(sigs[j], sorts)
  {
    if Matches(sigs[0], sorts) {
      i := 0;
    } else {
      var k := FirstMatchIndex(sigs[1..], sorts);
      i := k + 1;
      assert forall j :: 1 <= j < i ==> sigs[j] == sigs[1..][j - 1];
    }
  }

  /** The earliest accepting signature is the one `FirstMatch` picks. */
  lemma {:induction false} FirstMatchEarliest(sigs: seq<Sig>, sorts: seq<Sort>, i: nat)
    requires i < |sigs| && Matches(sigs[i], sorts)
    requires forall j :: 0 <= j < i ==> !Matches(sigs[j], sorts)
    ensures FirstMatch(sigs, sorts) == Some(sigs[i].rsort)
    decreases i
  {
    if i > 0 {
      assert !Matches(sigs[0], sorts);
      assert forall j :: 0 <= j < i - 1 ==> sigs[1..][j] == sigs[j + 1];
      FirstMatchEarliest(sigs[1..], sorts, i - 1);
    }
  }

  /** No result means no signature accepts the sorts. */
  lemma {:induction false} FirstMatchNone(sigs: seq<Sig>, sorts: seq<Sort>)
    ensures FirstMatch(sigs, sorts) == None <==> forall i :: 0 <= i < |sigs| ==> !Matches(sigs[i], sorts)
    decreases |sigs|
  {
    if sigs != [] {
      FirstMatchNone(sigs[1..], sorts);
      assert forall i :: 1 <= i < |sigs| ==> sigs[i] == sigs[1..][i - 1];
    }
  }

  /** `get_sort`: the sorts of the arguments first (an unresolvable one is
      an error); then the first signature of a declared name that accepts
      them, or `Int` for an undeclared name that reads as an `i64`. */
  function SortOf(tbl: Table, t: Term): Result<Option<Sort>, SortError>
    decreases t, |t.args| + 1
  {
    match ArgSorts(tbl, t, |t.args|)
    case Err(e) => Err(e)
    case Ok(sorts) =>
      if t.name in tbl then Ok(FirstMatch(tbl[t.name], sorts))
      else if ParseI64(t.name).Some? then Ok(Some(Int))
      else Ok(None)
  }

  /** The sorts of the first `k` arguments of `t`. */
  function ArgSorts(tbl: Table, t: Term, k: nat): Result<seq<Sort>, SortError>
    requires k <= |t.args|
    decreases t, k
  {
    if k == 0 then Ok([])
    else
      match ArgSorts(tbl, t, k - 1)
      case Err(e) => Err(e)
      case Ok(sorts) =>
        match SortOf(tbl, t.args[k - 1])
        case Ok(Some(s)) => Ok(sorts + [s])
        case _ => Err(IllSortedArgument)
  }

  /** The argument sorts resolve exactly when every argument has a sort,
      and they are then those sorts in order. */
  lemma {:induction false} ArgSortsOk(tbl: Table, t: Term, k: nat)
    requires k <= |t.args|
    ensures ArgSorts(tbl, t, k).Ok? <==> forall i :: 0 <= i < k ==> SortOf(tbl, t.args[i]).Ok? && SortOf(tbl, t.args[i]).value.Some?
    ensures ArgSorts(tbl, t, k).Ok? ==>
      && |ArgSorts(tbl, t, k).value| == k
      && forall i :: 0 <= i < k ==> SortOf(tbl, t.args[i]) == Ok(Some(ArgSorts(tbl, t, k).value[i]))
    ensures ArgSorts(tbl, t, k).Err? ==> ArgSorts(tbl, t, k) == Err(IllSortedArgument)
    decreases k
  {
    if k > 0 {
      ArgSortsOk(tbl, t, k - 1);
    }
  }

  /** A term has no sort, or fails, as soon as one argument fails. */
  lemma ArgumentFailurePropagates(tbl: Table, t: Term, i: nat)
    requires i < |t.args|
    requires !(SortOf(tbl, t.args[i]).Ok? && SortOf(tbl, t.args[i]).value.Some?)
    ensures SortOf(tbl, t) == Err(IllSortedArgument)
  {
    ArgSortsOk(tbl, t, |t.args|);
  }

  /** A declared name takes the return sort of its earliest signature that
      accepts the argument sorts, and has none when no signature does. */
  lemma DeclaredSort(tbl: Table, t: Term, i: nat)
    requires t.name in tbl && ArgSorts(tbl, t, |t.args|).Ok?
    requires i < |tbl[t.name]| && Matches(tbl[t.name][i], ArgSorts(tbl, t, |t.args|).value)
    requires forall j :: 0 <= j < i ==> !Matches(tbl[t.name][j], ArgSorts(tbl, t, |t.args|).value)
    ensures SortOf(tbl, t) == Ok(Some(tbl[t.name][i].rsort))
  {
    FirstMatchEarliest(tbl[t.name], ArgSorts(tbl, t, |t.args|).value, i);
  }

  /** A declared name none of whose signatures accepts the argument sorts
      has no sort. */
  lemma DeclaredWithoutMatch(tbl: Table, t: Term)
    requires t.name in tbl && ArgSorts(tbl, t, |t.args|).Ok?
    requires forall j :: 0 <= j < |tbl[t.name]| ==> !Matches(tbl[t.name][j], ArgSorts(tbl, t, |t.args|).value)
    ensures SortOf(tbl, t) == Ok(None)
  {
    FirstMatchNone(tbl[t.name], ArgSorts(tbl, t, |t.args|).value);
  }

  /** An undeclared name is an integer numeral exactly when it reads as an
      `i64`; otherwise it has no sort. A declaration shadows the numeral
      reading. */
  lemma UndeclaredSort(tbl: Table, t: Term)
    requires t.name !in tbl && ArgSorts(tbl, t, |t.args|).Ok?
    ensures SortOf(tbl, t) == Ok(Some(Int)) <==> ParseI64(t.name).Some?
    ensures SortOf(tbl, t) != Ok(Some(Int)) ==> SortOf(tbl, t) == Ok(None)
  {
  }

  /** An undeclared decimal constant within the `i64` range is an `Int`. */
  lemma NumeralIsInt(tbl: Table, n: int)
    requires 0 <= n <= MaxI64 && Render(n, 10) !in tbl
    ensures SortOf(tbl, Term(Render(n, 10), [])) == Ok(Some(Int))
  {
    SignedRoundTrip(n);
  }

  // -------------------------------------------------------------------
  // The symbol table object

  class Context {
    var symbols: Table
    var bodies: map<string, Term>
    var logic: Logic

    /** Every declared name has a signature, and only declared names have
        bodies. */
    ghost predicate Valid()
      reads this
    {
      NonEmpty(symbols) && bodies.Keys <= symbols.Keys
    }

    /** `Context::new`: the Boolean operators, no bodies, no logic. */
    constructor ()
      ensures Valid()
      ensures symbols == InsertAll(map[], BooleanEntries())
      ensures bodies == map[] && logic == NoLogic
    {
      symbols := map[];
      bodies := map[];
      logic := NoLogic;
      new;
      AddBooleans();
    }

    /** `get_decl`: the name's signatures, oldest first. */
    function GetDecl(name: string): (r: Option<seq<Sig>>)
      reads this
      requires Valid()
      ensures r.Some? <==> name in symbols
      ensures r.Some? ==> |r.value| > 0 && r.value == Lookup(symbols, name)
    {
      if name in symbols then Some(symbols[name]) else None
    }

    /** `add_decl`: a new name with its one signature. A name is declared
        at most once, and only uninterpreted functions take parameters. */
    method AddDecl(name: string, params: seq<(string, Sort)>, rsort: Sort)
      requires Valid()
      requires name !in symbols && (logic.uf || |params| == 0)
      modifies this
      ensures Valid()
      ensures symbols == old(symbols)[name := [Sig(params, rsort)]]
      ensures bodies == old(bodies) && logic == old(logic)
    {
      InsertSig(name, Sig(params, rsort));
      assert Lookup(old(symbols), name) + [Sig(params, rsort)] == [Sig(params, rsort)];
    }

    /** `get_body`: the body of a defined function. */
    function GetBody(name: string): (r: Option<Term>)
      reads this
      requires Valid()
      ensures r.Some? <==> name in bodies
      ensures r.Some? ==> name in symbols && r.value == bodies[name]
    {
      if name in bodies then Some(bodies[name]) else None
    }

    /** `add_body`: a body for a name with exactly one signature. */
    method AddBody(name: string, body: Term)
      requires Valid()
      requires name in symbols && |symbols[name]| == 1
      modifies this
      ensures Valid()
      ensures bodies == old(bodies)[name := body]
      ensures symbols == old(symbols) && logic == old(logic)
    {
      bodies := bodies[name := body];
    }

    /** `set_logic`: quantifiers are refused; linear integer arithmetic
        adds the integer operators; each flag the logic sets stays set. */
    method SetLogic(l: Logic)
      requires Valid()
      requires !l.q
      modifies this
      ensures Valid()
      ensures logic == Logic(old(logic).q, old(logic).lia || l.lia, old(logic).uf || l.uf)
      ensures symbols == if l.lia then InsertAll(old(symbols), IntegerEntries()) else old(symbols)
      ensures bodies == old(bodies)
    {
      if l.lia {
        logic := logic.(lia := true);
        AddIntegers();
      }
      if l.uf {
        logic := logic.(uf := true);
      }
    }

    /** `get_sort`, by recursion on the term and loops over the arguments
        and the signatures. */
    method GetSort(t: Term) returns (r: Result<Option<Sort>, SortError>)
      ensures r == SortOf(symbols, t)
      decreases t
    {
      var argSorts: seq<Sort> := [];
      var k := 0;
      while k < |t.args|
        invariant k <= |t.args|
        invariant ArgSorts(symbols, t, k) == Ok(argSorts)
      {
        var a := GetSort(t.args[k]);
        if !(a.Ok? && a.value.Some?) {
          ArgumentFailurePropagates(symbols, t, k);
          return Err(IllSortedArgument);
        }
        argSorts := argSorts + [a.value.value];
        k := k + 1;
      }
      if t.name !in symbols {
        if ParseI64(t.name).Some? {
          return Ok(Some(Int));
        }
        return Ok(None);
      }
      var v := symbols[t.name];
      var j := 0;
      while j < |v|
        invariant j <= |v|
        invariant FirstMatch(v[j..], argSorts) == FirstMatch(v, argSorts)
      {
        assert v[j..][1..] == v[j + 1..];
        var expSorts := ParamSorts(v[j].params);
        if |expSorts| != |argSorts| {
          j := j + 1;
          continue;
        }
        var result := true;
        for i := 0 to |argSorts|
          invariant result <==> forall m :: 0 <= m < i ==> expSorts[m] == argSorts[m]
        {
          result := result && expSorts[i] == argSorts[i];
        }
        if result {
          assert expSorts == argSorts;
          return Ok(Some(v[j].rsort));
        }
        j := j + 1;
      }
      return Ok(None);
    }

    /** The inner loop of `add_booleans` and `add_integers`: one
        signature of `op` per list of parameter names. */
    method AddOverloads(op: string, arities: seq<seq<string>>, psort: Sort, rsort: Sort)
      requires Valid()
      modifies this
      ensures Valid()
      ensures symbols == InsertAll(old(symbols), Overloads(op, arities, psort, rsort))
      ensures bodies == old(bodies) && logic == old(logic)
    {
      for n := 0 to |arities|
        invariant Valid() && bodies == old(bodies) && logic == old(logic)
        invariant symbols == InsertAll(old(symbols), Overloads(op, arities[..n], psort, rsort))
      {
        var sig := Sig(Params(arities[n], psort), rsort);
        ghost var done := Overloads(op, arities[..n], psort, rsort);
        assert arities[..n + 1][..n] == arities[..n];
        assert Overloads(op, arities[..n + 1], psort, rsort) == done + [(op, sig)];
        InsertAllSnoc(old(symbols), done, (op, sig));
        InsertSig(op, sig);
      }
      assert arities[..|arities|] == arities;
    }

    /** One nested loop of `add_booleans` or `add_integers`: every operator
        gets one signature per list of parameter names. */
    method AddFamily(ops: seq<string>, arities: seq<seq<string>>, psort: Sort, rsort: Sort)
      requires Valid()
      modifies this
      ensures Valid()
      ensures symbols == InsertAll(old(symbols), Family(ops, arities, psort, rsort))
      ensures bodies == old(bodies) && logic == old(logic)
    {
      for m := 0 to |ops|
        invariant Valid() && bodies == old(bodies) && logic == old(logic)
        invariant symbols == InsertAll(old(symbols), Family(ops[..m], arities, psort, rsort))
      {
        InsertAllAppend(old(symbols), Family(ops[..m], arities, psort, rsort), Overloads(ops[m], arities, psort, rsort));
        AddOverloads(ops[m], arities, psort, rsort);
        assert ops[..m + 1][..m] == ops[..m];
      }
      assert ops[..|ops|] == ops;
    }

    /** `MultiMap::insert` on the table. */
    method InsertSig(name: string, sig: Sig)
      requires Valid()
      modifies this
      ensures Valid()
      ensures symbols == Insert(old(symbols), name, sig)
      ensures bodies == old(bodies) && logic == old(logic)
    {
      symbols := Insert(symbols, name, sig);
    }

    /** `add_booleans`. */
    method AddBooleans()
      requires Valid()
      modifies this
      ensures Valid()
      ensures symbols == InsertAll(old(symbols), BooleanEntries())
      ensures bodies == old(bodies) && logic == old(logic)
    {
      AddFamily(BoolOps, UpToFour, Bool, Bool);
      InsertSig("not", NotSig);
      InsertSig("=>", ImpliesSig);
      InsertSig("ite", BoolIteSig);
      InsertAllThenThree(old(symbols), Family(BoolOps, UpToFour, Bool, Bool), ("not", NotSig), ("=>", ImpliesSig), ("ite", BoolIteSig));
    }

    /** `add_integers`. */
    method AddIntegers()
      requires Valid()
      modifies this
      ensures Valid()
      ensures symbols == InsertAll(old(symbols), IntegerEntries())
      ensures bodies == old(bodies) && logic == old(logic)
    {
      var f1 := Family(IntEqOps, UpToFour, Int, Bool);
      var f2 := Family(IntCmpOps, Binary, Int, Bool);
      var f3 := Family(IntArithOps, UpToFour, Int, Int);
      AddFamily(IntEqOps, UpToFour, Int, Bool);
      AddFamily(IntCmpOps, Binary, Int, Bool);
      AddFamily(IntArithOps, UpToFour, Int, Int);
      InsertSig("-", NegSig);
      InsertSig("ite", IntIteSig);
      InsertAllAppend(old(symbols), f1, f2);
      InsertAllAppend(old(symbols), f1 + f2, f3);
      InsertAllThenTwo(old(symbols), f1 + f2 + f3, ("-", NegSig), ("ite", IntIteSig));
    }
  }
}
