/** The transactions route (src/app/api/transactions/route.ts). POST admits a
    stock movement in three checks, in this order: the payload schema (400),
    the product's existence (404) and, for OUT only, the stock guard (400);
    then it appends exactly one ledger entry carrying the validated payload.
    GET lists the ledger newest first. */
module TransactionsRoute {
  import opened Common
  import opened Entities
  import opened Stock
  import opened Sql
  import opened Store

  /** The request body, after the route turned `date` into a Date: None
      stands for an Invalid Date. */
  datatype TransactionInput = TransactionInput(
    txType: string,
    quantity: int,
    productId: int,
    unitPrice: Money,
    totalValue: Money,
    date: Option<int>)

  /** What the schema hands on when the body passes. */
  datatype TransactionData = TransactionData(
    txType: TxType,
    quantity: int,
    productId: int,
    unitPrice: Money,
    totalValue: Money,
    date: int)

  function ParseType(s: string): (r: Option<TxType>)
    ensures r == Some(IN) <==> s == "IN"
    ensures r == Some(OUT) <==> s == "OUT"
    ensures r.None? <==> s != "IN" && s != "OUT"
  {
    if s == "IN" then Some(IN) else if s == "OUT" then Some(OUT) else None
  }

  /** The schema's complaints, in field order. The future-date refinement
      only runs on a valid date. */
  function TransactionIssues(input: TransactionInput, now: int): seq<Issue>
  {
    (if ParseType(input.txType).None? then [Issue("type", InvalidEnum)] else [])
    + (if input.quantity < 1 then [Issue("quantity", TooSmall)] else [])
    + (if input.productId < 1 then [Issue("productId", TooSmall)] else [])
    + (if input.unitPrice < 0 then [Issue("unitPrice", TooSmall)] else [])
    + (if input.totalValue < 0 then [Issue("totalValue", TooSmall)] else [])
    + (if input.date.None? then [Issue("date", InvalidDate)]
       else if input.date.value > now then [Issue("date", Custom)]
       else [])
  }

  /** `transactionSchema.parse`: passes exactly when the type is IN or OUT,
      quantity and productId are at least 1, both amounts are non-negative
      and the date is valid and not after `now`; the data passed on is the
      payload itself. */
  function ValidateTransaction(input: TransactionInput, now: int): (r: Result<TransactionData, seq<Issue>>)
    ensures r.Success? <==>
      && (input.txType == "IN" || input.txType == "OUT")
      && input.quantity >= 1
      && input.productId >= 1
      && input.unitPrice >= 0
      && input.totalValue >= 0
      && input.date.Some? && input.date.value <= now
    ensures r.Failure? ==> r.error == TransactionIssues(input, now) && r.error != []
    ensures r.Success? ==>
      && (r.value.txType == IN <==> input.txType == "IN")
      && r.value.quantity == input.quantity
      && r.value.productId == input.productId
      && r.value.unitPrice == input.unitPrice
      && r.value.totalValue == input.totalValue
      && r.value.date == input.date.value
  {
    var issues := TransactionIssues(input, now);
    if issues != [] then Failure(issues)
    else
      Success(TransactionData(ParseType(input.txType).value, input.quantity, input.productId,
                              input.unitPrice, input.totalValue, input.date.value))
  }

  /** The outcome of POST on a given store state, check by check. */
  function Admit(products: seq<Product>, ledger: seq<Transaction>, input: TransactionInput, now: int)
    : Result<TransactionData, ApiError>
  {
    match ValidateTransaction(input, now)
    case Failure(issues) => Failure(ValidationFailed(issues))
    case Success(v) =>
      if FindProduct(products, v.productId).None? then Failure(NotFound)
      else if v.txType == OUT && !HasEnoughStock(ledger, v.productId, v.quantity) then Failure(InsufficientStock)
      else Success(v)
  }

  function Record(v: TransactionData, id: nat): Transaction
  {
    Transaction(id, v.txType, v.quantity, v.unitPrice, v.totalValue, v.productId, v.date)
  }

  /** POST /transactions, run sequentially against the store. */
  method Post(db: Database, input: TransactionInput, now: int) returns (r: Result<Transaction, ApiError>)
    requires db.Valid()
    modifies db
    ensures db.Valid()
    ensures db.products == old(db.products) && db.categories == old(db.categories)
    ensures db.suppliers == old(db.suppliers)
    ensures match Admit(old(db.products), old(db.ledger), input, now)
      case Failure(e) => r == Failure(e) && db.ledger == old(db.ledger)
      case Success(v) =>
        && r == Success(Record(v, old(db.nextTransactionId)))
        && db.ledger == old(db.ledger) + [r.value]
    ensures StockNonNegative(old(db.ledger)) ==> StockNonNegative(db.ledger)
  {
    var validated := ValidateTransaction(input, now);
    if validated.Failure? {
      return Failure(ValidationFailed(validated.error));
    }
    var data := validated.value;
    var product := FindProduct(db.products, data.productId);
    if product.None? {
      return Failure(NotFound);
    }
    if data.txType == OUT {
      var hasStock := HasEnoughStock(db.ledger, data.productId, data.quantity);
      if !hasStock {
        return Failure(InsufficientStock);
      }
    }
    ghost var before := db.ledger;
    var t := db.CreateTransaction(data.txType, data.quantity, data.productId, data.unitPrice, data.totalValue, data.date);
    if StockNonNegative(before) {
      AdmitPreservesNonNegativeStock(db.products, before, input, now, t.id);
    }
    return Success(t);
  }

  /** Schema first: an invalid payload is answered 400 even when its product
      does not exist, and whatever the stock. */
  lemma InvalidPayloadIs400(products: seq<Product>, ledger: seq<Transaction>, input: TransactionInput, now: int)
    requires TransactionIssues(input, now) != []
    ensures Admit(products, ledger, input, now) == Failure(ValidationFailed(TransactionIssues(input, now)))
    ensures Status(Admit(products, ledger, input, now).error) == 400
  {
  }

  /** Existence second: a valid payload naming no product is answered 404. */
  lemma MissingProductIs404(products: seq<Product>, ledger: seq<Transaction>, input: TransactionInput, now: int)
    requires ValidateTransaction(input, now).Success?
    requires forall p :: p in products ==> p.id != input.productId
    ensures Admit(products, ledger, input, now) == Failure(NotFound)
    ensures Status(Admit(products, ledger, input, now).error) == 404
  {
  }

  /** Stock last: a valid payload for an existing product is refused for
      insufficient stock exactly when it is an OUT larger than the stock;
      otherwise it is admitted unchanged. An IN is never stock-checked. */
  lemma StockCheckOnlyForOut(products: seq<Product>, ledger: seq<Transaction>, input: TransactionInput, now: int)
    requires ValidateTransaction(input, now).Success?
    requires exists p :: p in products && p.id == input.productId
    ensures Admit(products, ledger, input, now) == Failure(InsufficientStock) <==>
      input.txType == "OUT" && input.quantity > CalculateProductStock(ledger, input.productId)
    ensures input.txType == "IN" ==> Admit(products, ledger, input, now) == Success(ValidateTransaction(input, now).value)
    ensures Admit(products, ledger, input, now).Success? ==>
      Admit(products, ledger, input, now).value == ValidateTransaction(input, now).value
  {
    var p :| p in products && p.id == input.productId;
    assert FindProduct(products, input.productId).Some?;
  }

  /** The stored total is the caller's, not quantity times unit price: this
      admitted entry records 7 for 2 units at 500. */
  lemma TotalValueIsNotRecomputed()
    ensures var products := [Product(1, "Suco", None, None, 400, 600, 1, 1)];
      var input := TransactionInput("IN", 2, 1, 500, 7, Some(0));
      && Admit(products, [], input, 0).Success?
      && Admit(products, [], input, 0).value.totalValue == 7
      && Admit(products, [], input, 0).value.totalValue != input.quantity * input.unitPrice
  {
    var products := [Product(1, "Suco", None, None, 400, 600, 1, 1)];
    assert FindProduct(products, 1).Some?;
  }

  ghost predicate StockNonNegative(ledger: seq<Transaction>)
  {
    forall productId :: CalculateProductStock(ledger, productId) >= 0
  }

  /** Under sequential execution no admitted movement drives any product's
      derived stock below zero. */
  lemma AdmitPreservesNonNegativeStock(products: seq<Product>, ledger: seq<Transaction>,
                                       input: TransactionInput, now: int, id: nat)
    requires StockNonNegative(ledger)
    requires Admit(products, ledger, input, now).Success?
    ensures StockNonNegative(ledger + [Record(Admit(products, ledger, input, now).value, id)])
  {
    var v := Admit(products, ledger, input, now).value;
    var t := Record(v, id);
    assert ValidateTransaction(input, now) == Success(v);
    assert v.quantity > 0;
    assert v.txType == OUT ==> HasEnoughStock(ledger, v.productId, v.quantity);
    forall productId ensures CalculateProductStock(ledger + [t], productId) >= 0 {
      StockAfterAppend(ledger, t, productId);
    }
  }

  /** `ORDER BY date DESC`. */
  function NewestFirst(a: Transaction, b: Transaction): bool
  {
    a.date >= b.date
  }

  /** GET /transactions: the whole ledger, newest first. */
  function ListTransactions(ledger: seq<Transaction>): seq<Transaction>
  {
    SortBy(ledger, NewestFirst)
  }

  lemma ListTransactionsSpec(ledger: seq<Transaction>)
    ensures multiset(ListTransactions(ledger)) == multiset(ledger)
    ensures forall i, j :: 0 <= i < j < |ListTransactions(ledger)| ==>
      ListTransactions(ledger)[i].date >= ListTransactions(ledger)[j].date
  {
    SortBySorted(ledger, NewestFirst);
  }

  /** A worked history: after IN 100 and OUT 30 the stock is 70; an OUT of 80
      is refused, an OUT of 70 is admitted and leaves the stock at 0. */
  lemma RestockAndSellScenario()
    ensures var products := [Product(1, "Suco", None, None, 1000, 1500, 1, 1)];
      var ledger := [Transaction(1, IN, 100, 1000, 100000, 1, 0), Transaction(2, OUT, 30, 1500, 45000, 1, 1)];
      var tooMuch := TransactionInput("OUT", 80, 1, 1500, 120000, Some(2));
      var all := TransactionInput("OUT", 70, 1, 1500, 105000, Some(2));
      && CalculateProductStock(ledger, 1) == 70
      && Admit(products, ledger, tooMuch, 2) == Failure(InsufficientStock)
      && Admit(products, ledger, all, 2).Success?
      && CalculateProductStock(ledger + [Record(Admit(products, ledger, all, 2).value, 3)], 1) == 0
  {
    var products := [Product(1, "Suco", None, None, 1000, 1500, 1, 1)];
    var inEntry := Transaction(1, IN, 100, 1000, 100000, 1, 0);
    var outEntry := Transaction(2, OUT, 30, 1500, 45000, 1, 1);
    var ledger := [inEntry, outEntry];
    assert FindProduct(products, 1).Some?;
    assert ledger == [inEntry] + [outEntry];
    StockOfOne(inEntry, 1);
    StockAfterAppend([inEntry], outEntry, 1);
    var all := TransactionInput("OUT", 70, 1, 1500, 105000, Some(2));
    StockAfterAppend(ledger, Record(Admit(products, ledger, all, 2).value, 3), 1);
  }
}
