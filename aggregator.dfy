/**
  The symbol aggregator `processDocumentEntry`: a depth-first walk over a file's
  symbol forest that increments, in place, a per-kind counter map filled with 0
  for every kind when the entry is created.
 */
module Aggregator {
  import opened Symbols

  /** The per-file record: the file's path and its counter per kind. */
  class DocumentNodeEntry {
    var path: string
    var documentNodes: map<SymbolKind, int>

    /** The object literal `{ path, documentNodes: {} }`. */
    constructor (path: string)
      ensures this.path == path && documentNodes == map[]
    {
      this.path := path;
      documentNodes := map[];
    }
  }

  /** Every kind holds a counter. */
  predicate HasAllKinds(nodes: map<SymbolKind, int>)
  {
    forall k: SymbolKind :: k in nodes
  }

  /** The counter map with the kinds below `n` at 0, as `forEach` fills it. */
  function ZeroBelow(n: nat): map<SymbolKind, int>
    requires n <= |SymbolKinds|
  {
    if n == 0 then map[] else ZeroBelow(n - 1)[n - 1 := 0]
  }

  /** The fresh counter map: every kind at 0. */
  function ZeroFilled(): map<SymbolKind, int>
  {
    ZeroBelow(|SymbolKinds|)
  }

  /** The counters after walking `ts`: every counter grows by the number of
      symbols of its kind anywhere in the forest; no key is added or removed. */
  function Aggregate(nodes: map<SymbolKind, int>, ts: seq<Sym>): map<SymbolKind, int>
  {
    map k | k in nodes :: nodes[k] + Count(ts, k)
  }

  /** Sum of the counters of the kinds below `n`. */
  function SumBelow(nodes: map<SymbolKind, int>, n: nat): int
    requires n <= |SymbolKinds| && HasAllKinds(nodes)
  {
    if n == 0 then 0 else SumBelow(nodes, n - 1) + nodes[n - 1]
  }

  /** `processDocumentEntry(path, symbols, depth, documentNodeEntry)`. Without an
      entry it creates one for `path` with every kind's counter at 0; with one it
      updates and returns that same object. An empty symbol list returns the entry
      as it is; otherwise each symbol increments its kind's counter and then its
      children are walked with the same entry, one level deeper. */
  method ProcessDocumentEntry(path: string, symbols: seq<Sym>, depth: nat, documentNodeEntry: DocumentNodeEntry?)
    returns (r: DocumentNodeEntry)
    requires documentNodeEntry != null ==> HasAllKinds(documentNodeEntry.documentNodes)
    modifies documentNodeEntry
    ensures documentNodeEntry != null ==> r == documentNodeEntry && r.path == old(r.path)
    ensures documentNodeEntry == null ==> fresh(r) && r.path == path
    ensures documentNodeEntry == null ==> r.documentNodes == Aggregate(ZeroFilled(), symbols)
    ensures documentNodeEntry != null ==> r.documentNodes == Aggregate(old(documentNodeEntry.documentNodes), symbols)
    decreases symbols
  {
    var entry: DocumentNodeEntry;
    if documentNodeEntry == null {
      entry := NewEntry(path);
      ZeroFilledFacts();
    } else {
      entry := documentNodeEntry;
    }
    ghost var start := entry.documentNodes;
    ghost var entryPath := entry.path;
    if |symbols| == 0 {
      return entry;
    }
    for i := 0 to |symbols|
      invariant entry.path == entryPath
      invariant HasAllKinds(entry.documentNodes)
      invariant entry.documentNodes == Aggregate(start, symbols[..i])
    {
      var symbol := symbols[i];
      entry.documentNodes := entry.documentNodes[symbol.kind := entry.documentNodes[symbol.kind] + 1];
      assert symbol in symbols;
      var _ := ProcessDocumentEntry(path, symbol.children, depth + 1, entry);
      AggregateStep(start, symbols, i);
    }
    assert symbols[..|symbols|] == symbols;
    r := entry;
  }

  /** The fresh entry of the top call: `{ path, documentNodes: {} }` followed by
      `SymbolKinds.forEach(s => documentNodes[s] = 0)`. */
  method NewEntry(path: string) returns (entry: DocumentNodeEntry)
    ensures fresh(entry) && entry.path == path && entry.documentNodes == ZeroFilled()
  {
    entry := new DocumentNodeEntry(path);
    for i := 0 to |SymbolKinds|
      invariant entry.path == path
      invariant entry.documentNodes == ZeroBelow(i)
    {
      entry.documentNodes := entry.documentNodes[i := 0];
    }
  }

  /** One turn of the walk: incrementing the symbol's own counter and then
      walking its children equals aggregating one more symbol of the list. */
  lemma AggregateStep(start: map<SymbolKind, int>, symbols: seq<Sym>, i: nat)
    requires HasAllKinds(start) && i < |symbols|
    ensures var before, s := Aggregate(start, symbols[..i]), symbols[i];
      Aggregate(before[s.kind := before[s.kind] + 1], s.children) == Aggregate(start, symbols[..i + 1])
  {
    var done, s := symbols[..i], symbols[i];
    assert symbols[..i + 1] == done + [s];
    var before := Aggregate(start, done);
    var after := Aggregate(before[s.kind := before[s.kind] + 1], s.children);
    forall k | k in start
      ensures after[k] == Aggregate(start, done + [s])[k]
    {
      CountAppend(done, [s], k);
      CountSingle(s, k);
    }
  }

  /** A fresh entry has every kind and nothing else, each at 0. */
  lemma ZeroFilledFacts()
    ensures HasAllKinds(ZeroFilled())
    ensures forall k :: k in ZeroFilled() ==> ZeroFilled()[k] == 0
  {
    ZeroBelowFacts(|SymbolKinds|);
  }

  lemma {:induction false} ZeroBelowFacts(n: nat)
    requires n <= |SymbolKinds|
    ensures forall k: SymbolKind :: k in ZeroBelow(n) <==> k < n
    ensures forall k :: k in ZeroBelow(n) ==> ZeroBelow(n)[k] == 0
  {
    if n > 0 {
      ZeroBelowFacts(n - 1);
    }
  }

  /** Walking an empty list changes no counter. */
  lemma AggregateNothing(nodes: map<SymbolKind, int>)
    ensures Aggregate(nodes, []) == nodes
  {
  }

  /** Aggregation adds no key, removes none, and never lowers a counter. */
  lemma AggregateNeverDecreases(nodes: map<SymbolKind, int>, ts: seq<Sym>)
    ensures Aggregate(nodes, ts).Keys == nodes.Keys
    ensures forall k :: k in nodes ==> Aggregate(nodes, ts)[k] >= nodes[k]
  {
  }

  /** Each symbol, at any depth, adds exactly one to its own kind's counter:
      aggregating one symbol adds one to its kind plus what its subtree adds. */
  lemma AggregateOneSymbol(nodes: map<SymbolKind, int>, s: Sym)
    requires HasAllKinds(nodes)
    ensures forall k :: k in nodes ==>
      Aggregate(nodes, [s])[k] == Aggregate(nodes, s.children)[k] + (if k == s.kind then 1 else 0)
  {
    forall k | k in nodes ensures Aggregate(nodes, [s])[k] == Aggregate(nodes, s.children)[k] + (if k == s.kind then 1 else 0) {
      CountSingle(s, k);
    }
  }

  /** Summed over all kinds, the counters grow by exactly the number of symbols
      in the forest. */
  lemma AggregateSum(nodes: map<SymbolKind, int>, ts: seq<Sym>)
    requires HasAllKinds(nodes)
    ensures HasAllKinds(Aggregate(nodes, ts))
    ensures SumBelow(Aggregate(nodes, ts), |SymbolKinds|) == SumBelow(nodes, |SymbolKinds|) + Size(ts)
  {
    SumBelowAggregate(nodes, ts, |SymbolKinds|);
    CountAllIsSize(ts);
  }

  lemma {:induction false} SumBelowAggregate(nodes: map<SymbolKind, int>, ts: seq<Sym>, n: nat)
    requires n <= |SymbolKinds| && HasAllKinds(nodes)
    ensures HasAllKinds(Aggregate(nodes, ts))
    ensures SumBelow(Aggregate(nodes, ts), n) == SumBelow(nodes, n) + CountBelow(ts, n)
  {
    if n > 0 {
      SumBelowAggregate(nodes, ts, n - 1);
    }
  }

  /** Starting from the fresh entry, each kind's counter is the number of symbols
      of that kind in the whole tree, children included. */
  lemma FreshEntryCounts(ts: seq<Sym>)
    ensures HasAllKinds(Aggregate(ZeroFilled(), ts))
    ensures forall k: SymbolKind :: Aggregate(ZeroFilled(), ts)[k] == Count(ts, k)
  {
    ZeroFilledFacts();
  }
}
