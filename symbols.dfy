/**
  The symbol trees handed to the extension by the editor's symbol provider, the
  table of symbol-kind names, and the counting functions the rest of the model is
  specified against.

  The source keys its counter objects by the name `SymbolKinds[kind]`. The model
  keys them by the kind itself: `SymbolKindsDistinct` shows the table gives every
  kind its own name, so a map keyed by kind and the source's map keyed by name
  correspond one to one, and the name `constructor` is the kind `ConstructorKind`.
 */
module Symbols {

  /** The `SymbolKinds` name table: one name per kind, indexed by the numeric
      `kind` of a document symbol (the order of the editor's SymbolKind enum). */
  const SymbolKinds: seq<string> := [
    "file", "module", "namespace", "package", "class", "method", "property",
    "field", "constructor", "enum", "interface", "function", "variable",
    "constant", "string", "number", "boolean", "array", "object", "key",
    "null", "enumMember", "struct", "event", "operator", "typeParameter"
  ]

  /** A numeric symbol kind; only kinds that index `SymbolKinds` occur. */
  type SymbolKind = k: nat | k < |SymbolKinds|

  /** The key that snapshot merging leaves out, and the kind it names. */
  const ConstructorKey: string := "constructor"
  const ConstructorKind: SymbolKind := 8

  /** A document symbol: its kind and its nested symbols (an absent `children`
      list is the empty sequence). */
  datatype Sym = Sym(kind: SymbolKind, children: seq<Sym>)

  predicate Distinct(keys: seq<string>)
  {
    forall i, j :: 0 <= i < j < |keys| ==> keys[i] != keys[j]
  }

  /** A number computed from a name's length and its first and last characters:
      names with different tags are different. */
  function Tag(name: string): int
    requires name != []
  {
    |name| * 0x1_0000 + name[0] as int * 0x100 + name[|name| - 1] as int
  }

  /** The tag values of the table, as computed. */
  const TagValues: seq<int> := [288357, 421221, 618085, 487525, 353139, 421220, 553081, 353892, 746354, 288109, 616805, 550510, 554597, 549748, 422759, 421490, 483950, 352633, 421748, 224121, 290412, 681330, 422772, 353652, 552818, 881778]

  /** The tags of the first and of the second half of the table. */
  lemma TagsLow()
    ensures forall i :: 0 <= i < 13 ==> Tag(SymbolKinds[i]) == TagValues[i]
  {
  }

  lemma TagsHigh()
    ensures forall i :: 13 <= i < |SymbolKinds| ==> Tag(SymbolKinds[i]) == TagValues[i]
  {
  }

  lemma TagValuesApart()
    ensures forall i, j :: 0 <= i < j < |TagValues| ==> TagValues[i] != TagValues[j]
  {
  }

  /** No two kinds share a name, and `constructor` is the name of `ConstructorKind`. */
  lemma SymbolKindsDistinct()
    ensures Distinct(SymbolKinds)
    ensures SymbolKinds[ConstructorKind] == ConstructorKey
  {
    TagsLow();
    TagsHigh();
    TagValuesApart();
  }

  /** Testing a kind's name against `"constructor"` is testing the kind against
      `ConstructorKind`. */
  lemma ConstructorByName(k: SymbolKind)
    ensures SymbolKinds[k] == ConstructorKey <==> k == ConstructorKind
  {
    SymbolKindsDistinct();
    if k < ConstructorKind {
      assert SymbolKinds[k] != SymbolKinds[ConstructorKind];
    } else if k > ConstructorKind {
      assert SymbolKinds[ConstructorKind] != SymbolKinds[k];
    }
  }

  /** Number of symbols, at any depth of the forest `ts`, of kind `kind`. */
  function Count(ts: seq<Sym>, kind: SymbolKind): nat
    decreases ts
  {
    if ts == [] then 0
    else (if ts[0].kind == kind then 1 else 0) + Count(ts[0].children, kind) + Count(ts[1..], kind)
  }

  /** Number of symbols, at any depth, in the forest `ts`. */
  function Size(ts: seq<Sym>): nat
    decreases ts
  {
    if ts == [] then 0 else 1 + Size(ts[0].children) + Size(ts[1..])
  }

  /** Counting a concatenation of forests adds up the counts of the parts. */
  lemma {:induction false} CountAppend(a: seq<Sym>, b: seq<Sym>, kind: SymbolKind)
    ensures Count(a + b, kind) == Count(a, kind) + Count(b, kind)
    decreases a
  {
    if a == [] {
      assert a + b == b;
    } else {
      assert (a + b)[0] == a[0];
      assert (a + b)[1..] == a[1..] + b;
      CountAppend(a[1..], b, kind);
    }
  }

  /** The count of a single symbol: itself, if it has that kind, plus its subtree. */
  lemma CountSingle(s: Sym, kind: SymbolKind)
    ensures Count([s], kind) == (if s.kind == kind then 1 else 0) + Count(s.children, kind)
  {
    assert [s][1..] == [];
  }

  /** The counts of a forest summed over the kinds below `n`. */
  function CountBelow(ts: seq<Sym>, n: nat): nat
    requires n <= |SymbolKinds|
  {
    if n == 0 then 0 else CountBelow(ts, n - 1) + Count(ts, n - 1)
  }

  lemma {:induction false} CountBelowSplit(ts: seq<Sym>, n: nat)
    requires ts != [] && n <= |SymbolKinds|
    ensures CountBelow(ts, n) ==
      (if ts[0].kind < n then 1 else 0) + CountBelow(ts[0].children, n) + CountBelow(ts[1..], n)
  {
    if n > 0 {
      CountBelowSplit(ts, n - 1);
    }
  }

  lemma {:induction false} CountBelowEmpty(n: nat)
    requires n <= |SymbolKinds|
    ensures CountBelow([], n) == 0
  {
    if n > 0 {
      CountBelowEmpty(n - 1);
    }
  }

  /** Summed over every kind, the per-kind counts of a forest add up to its
      number of symbols: each symbol is counted under exactly one kind. */
  lemma {:induction false} CountAllIsSize(ts: seq<Sym>)
    ensures CountBelow(ts, |SymbolKinds|) == Size(ts)
    decreases ts
  {
    if ts == [] {
      CountBelowEmpty(|SymbolKinds|);
    } else {
      CountBelowSplit(ts, |SymbolKinds|);
      CountAllIsSize(ts[0].children);
      CountAllIsSize(ts[1..]);
    }
  }
}
