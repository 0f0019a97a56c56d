/** Stock derivation (lib/stock.ts): a product's stock is the sum of its IN
    quantities minus the sum of its OUT quantities, recomputed from the ledger
    on every read. The database groups the product's entries by type; a type
    with no entries has no group and counts as 0. */
module Stock {
  import opened Common
  import opened Entities
  import opened Sql

  /** The quantities in the group of `kind` for the product, in ledger order. */
  function Quantities(ledger: seq<Transaction>, productId: int, kind: TxType): seq<int>
  {
    if ledger == [] then []
    else
      var t := ledger[|ledger| - 1];
      Quantities(ledger[..|ledger| - 1], productId, kind)
        + (if t.productId == productId && t.txType == kind then [t.quantity] else [])
  }

  /** `_sum.quantity` of the group found for `kind`; None when no group exists. */
  function GroupQuantity(ledger: seq<Transaction>, productId: int, kind: TxType): Option<int>
  {
    SqlSum(Quantities(ledger, productId, kind))
  }

  function CalculateProductStock(ledger: seq<Transaction>, productId: int): (stock: int)
    ensures stock == Sum(Quantities(ledger, productId, IN)) - Sum(Quantities(ledger, productId, OUT))
  {
    var inputs := GroupQuantity(ledger, productId, IN).GetOr(0);
    var outputs := GroupQuantity(ledger, productId, OUT).GetOr(0);
    inputs - outputs
  }

  predicate HasEnoughStock(ledger: seq<Transaction>, productId: int, requestedQuantity: int)
  {
    CalculateProductStock(ledger, productId) >= requestedQuantity
  }

  /** The entry's signed contribution, `CASE WHEN type = 'IN' THEN quantity ELSE -quantity END`. */
  function Signed(t: Transaction): int
  {
    if t.txType == IN then t.quantity else -t.quantity
  }

  /** Reference definition: a running signed sum over the product's entries. */
  function SignedStock(ledger: seq<Transaction>, productId: int): int
  {
    if ledger == [] then 0
    else
      var t := ledger[|ledger| - 1];
      SignedStock(ledger[..|ledger| - 1], productId) + (if t.productId == productId then Signed(t) else 0)
  }

  /** The grouped derivation and the signed running sum agree. */
  lemma {:induction false} StockIsSignedSum(ledger: seq<Transaction>, productId: int)
    ensures CalculateProductStock(ledger, productId) == SignedStock(ledger, productId)
  {
    if ledger != [] {
      var init := ledger[..|ledger| - 1];
      StockIsSignedSum(init, productId);
      SumAppend(Quantities(init, productId, IN),
        var t := ledger[|ledger| - 1]; if t.productId == productId && t.txType == IN then [t.quantity] else []);
      SumAppend(Quantities(init, productId, OUT),
        var t := ledger[|ledger| - 1]; if t.productId == productId && t.txType == OUT then [t.quantity] else []);
    }
  }

  lemma {:induction false} QuantitiesAppend(a: seq<Transaction>, b: seq<Transaction>, productId: int, kind: TxType)
    ensures Quantities(a + b, productId, kind) == Quantities(a, productId, kind) + Quantities(b, productId, kind)
    decreases |b|
  {
    if b == [] {
      assert a + b == a;
    } else {
      assert (a + b)[..|a + b| - 1] == a + b[..|b| - 1];
      QuantitiesAppend(a, b[..|b| - 1], productId, kind);
    }
  }

  /** Stock is additive over a split of the ledger. */
  lemma StockAppend(a: seq<Transaction>, b: seq<Transaction>, productId: int)
    ensures CalculateProductStock(a + b, productId)
         == CalculateProductStock(a, productId) + CalculateProductStock(b, productId)
  {
    QuantitiesAppend(a, b, productId, IN);
    QuantitiesAppend(a, b, productId, OUT);
    SumAppend(Quantities(a, productId, IN), Quantities(b, productId, IN));
    SumAppend(Quantities(a, productId, OUT), Quantities(b, productId, OUT));
  }

  /** Appending one IN entry for the product raises its stock by exactly the
      entry's quantity, one OUT lowers it by exactly that; an entry for another
      product leaves it as it was. */
  lemma StockAfterAppend(ledger: seq<Transaction>, t: Transaction, productId: int)
    ensures CalculateProductStock(ledger + [t], productId) ==
      if t.productId != productId then CalculateProductStock(ledger, productId)
      else if t.txType == IN then CalculateProductStock(ledger, productId) + t.quantity
      else CalculateProductStock(ledger, productId) - t.quantity
  {
    StockAppend(ledger, [t], productId);
    StockOfOne(t, productId);
  }

  lemma StockOfOne(t: Transaction, productId: int)
    ensures CalculateProductStock([t], productId) == if t.productId == productId then Signed(t) else 0
  {
    assert [t][..0] == [];
    assert [t.quantity][..0] == [];
    assert Sum([t.quantity]) == t.quantity;
    assert Quantities([t], productId, IN) == if t.productId == productId && t.txType == IN then [t.quantity] else [];
    assert Quantities([t], productId, OUT) == if t.productId == productId && t.txType == OUT then [t.quantity] else [];
  }

  /** A product with no entries, of either type, has stock 0. */
  lemma {:induction false} NoHistoryStockZero(ledger: seq<Transaction>, productId: int)
    requires forall t :: t in ledger ==> t.productId != productId
    ensures GroupQuantity(ledger, productId, IN).None?
    ensures GroupQuantity(ledger, productId, OUT).None?
    ensures CalculateProductStock(ledger, productId) == 0
  {
    if ledger != [] {
      var init := ledger[..|ledger| - 1];
      assert forall t :: t in init ==> t in ledger;
      NoHistoryStockZero(init, productId);
    }
  }

  /** A type with no entries for the product contributes nothing. */
  lemma {:induction false} NoEntriesOfKind(ledger: seq<Transaction>, productId: int, kind: TxType)
    requires forall t :: t in ledger && t.productId == productId ==> t.txType != kind
    ensures GroupQuantity(ledger, productId, kind).None?
    ensures CalculateProductStock(ledger, productId) ==
      if kind == IN then -Sum(Quantities(ledger, productId, OUT)) else Sum(Quantities(ledger, productId, IN))
  {
    if ledger != [] {
      var init := ledger[..|ledger| - 1];
      assert forall t :: t in init ==> t in ledger;
      NoEntriesOfKind(init, productId, kind);
    }
  }

  /** Only the product's own entries matter. */
  lemma {:induction false} OtherProductsIrrelevant(ledger: seq<Transaction>, other: seq<Transaction>, productId: int)
    requires forall t :: t in other ==> t.productId != productId
    ensures CalculateProductStock(ledger + other, productId) == CalculateProductStock(ledger, productId)
    ensures CalculateProductStock(other + ledger, productId) == CalculateProductStock(ledger, productId)
  {
    NoHistoryStockZero(other, productId);
    StockAppend(ledger, other, productId);
    StockAppend(other, ledger, productId);
  }

  /** The order of the ledger does not matter: any permutation of it derives
      the same stock for every product. */
  lemma {:induction false} StockPermutationInvariant(a: seq<Transaction>, b: seq<Transaction>, productId: int)
    requires multiset(a) == multiset(b)
    ensures CalculateProductStock(a, productId) == CalculateProductStock(b, productId)
    decreases |a|
  {
    if a == [] {
      assert b == [] by { assert |multiset(b)| == 0; }
    } else {
      var x := a[|a| - 1];
      var init := a[..|a| - 1];
      assert x in multiset(b);
      var i :| 0 <= i < |b| && b[i] == x;
      var rest := b[..i] + b[i + 1..];
      assert b == b[..i] + [x] + b[i + 1..];
      assert a == init + [x];
      assert multiset(init) == multiset(a) - multiset{x};
      assert multiset(rest) == multiset(b) - multiset{x};
      StockPermutationInvariant(init, rest, productId);
      StockAppend(init, [x], productId);
      StockAppend(b[..i] + [x], b[i + 1..], productId);
      StockAppend(b[..i], [x], productId);
      StockAppend(b[..i], b[i + 1..], productId);
    }
  }

  /** The guard admits a withdrawal exactly when recording it would leave the
      product's stock non-negative. */
  lemma HasEnoughStockIffNonNegativeAfterOut(ledger: seq<Transaction>, t: Transaction)
    requires t.txType == OUT
    ensures HasEnoughStock(ledger, t.productId, t.quantity)
        <==> CalculateProductStock(ledger + [t], t.productId) >= 0
  {
    StockAfterAppend(ledger, t, t.productId);
  }
}
