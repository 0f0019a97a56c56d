/** The products route (src/app/api/products/route.ts). POST coerces the
    numeric fields with `Number(...)`, validates them against the product
    schema (including the rule that the sell price exceeds the buy price)
    and inserts one product; GET lists every product by name with its stock
    derived from the ledger. */
module ProductsRoute {
  import opened Common
  import opened Entities
  import opened Stock
  import opened Sql
  import opened Text
  import opened Store

  /** The body after the route's `Number(...)` coercions: None stands for
      NaN. `imageUrl` is None when the field is absent. */
  datatype ProductInput = ProductInput(
    name: string,
    description: Option<string>,
    imageUrl: Option<string>,
    buyPrice: Option<Money>,
    sellPrice: Option<Money>,
    categoryId: Option<int>,
    supplierId: Option<int>)

  datatype ProductData = ProductData(
    name: string,
    description: Option<string>,
    imageUrl: Option<string>,
    buyPrice: Money,
    sellPrice: Money,
    categoryId: int,
    supplierId: int)

  /** A product as the routes return it: the record plus its derived stock. */
  datatype ProductWithStock = ProductWithStock(product: Product, quantity: int)

  /** `z.number().min(min)`: NaN is not a number at all. */
  function NumberIssues(path: string, x: Option<int>, min: int): seq<Issue>
  {
    if x.None? then [Issue(path, InvalidType)]
    else if x.value < min then [Issue(path, TooSmall)]
    else []
  }

  /** `z.string().url().optional().or(z.literal(''))`; what a URL is belongs
      to the validation library and is the parameter `isUrl`. */
  predicate ImageUrlOk(imageUrl: Option<string>, isUrl: string -> bool)
  {
    imageUrl.None? || isUrl(imageUrl.value) || imageUrl.value == ""
  }

  /** A NaN aborts the object, and then the sell-price refinement does not
      run; a value below its minimum and a rejected URL only mark the object
      invalid, and the refinement still runs. */
  predicate Aborted(input: ProductInput)
  {
    || input.buyPrice.None? || input.sellPrice.None?
    || input.categoryId.None? || input.supplierId.None?
  }

  function ProductIssues(input: ProductInput, isUrl: string -> bool): seq<Issue>
  {
    (if |input.name| < 1 then [Issue("name", TooSmall)] else [])
    + (if !ImageUrlOk(input.imageUrl, isUrl) then [Issue("imageUrl", InvalidString)] else [])
    + NumberIssues("buyPrice", input.buyPrice, 0)
    + NumberIssues("sellPrice", input.sellPrice, 0)
    + NumberIssues("categoryId", input.categoryId, 1)
    + NumberIssues("supplierId", input.supplierId, 1)
    + (if !Aborted(input) && input.sellPrice.value <= input.buyPrice.value
       then [Issue("sellPrice", Custom)] else [])
  }

  /** `productSchema.parse`: passes exactly when the name is non-empty, the
      image URL is absent, empty or a URL, both prices are non-negative
      numbers, both references are at least 1, and the sell price is
      strictly above the buy price. */
  function ValidateProduct(input: ProductInput, isUrl: string -> bool): (r: Result<ProductData, seq<Issue>>)
    ensures r.Success? <==>
      && |input.name| >= 1
      && ImageUrlOk(input.imageUrl, isUrl)
      && input.buyPrice.Some? && input.buyPrice.value >= 0
      && input.sellPrice.Some? && input.sellPrice.value >= 0
      && input.categoryId.Some? && input.categoryId.value >= 1
      && input.supplierId.Some? && input.supplierId.value >= 1
      && input.sellPrice.value > input.buyPrice.value
    ensures r.Failure? ==> r.error == ProductIssues(input, isUrl) && r.error != []
    ensures r.Success? ==> r.value == ProductData(input.name, input.description, input.imageUrl,
      input.buyPrice.value, input.sellPrice.value, input.categoryId.value, input.supplierId.value)
  {
    var issues := ProductIssues(input, isUrl);
    if issues != [] then Failure(issues)
    else Success(ProductData(input.name, input.description, input.imageUrl,
                             input.buyPrice.value, input.sellPrice.value,
                             input.categoryId.value, input.supplierId.value))
  }

  /** The refinement's complaint is filed under `sellPrice`, and a sell price
      equal to the buy price draws it too. */
  lemma SellPriceRuleIssue(input: ProductInput, isUrl: string -> bool)
    requires !Aborted(input)
    ensures Issue("sellPrice", Custom) in ProductIssues(input, isUrl)
        <==> input.sellPrice.value <= input.buyPrice.value
  {
    var issues := ProductIssues(input, isUrl);
    if input.sellPrice.value > input.buyPrice.value {
      assert forall i :: 0 <= i < |issues| ==> issues[i].code != Custom;
    } else {
      assert issues[|issues| - 1] == Issue("sellPrice", Custom);
    }
  }

  /** Business invariant: every product sells above its cost. */
  predicate PricesConsistent(products: seq<Product>)
  {
    forall p :: p in products ==> p.sellPrice > p.buyPrice
  }

  /** POST /products. A failed validation answers 400 and creates nothing;
      a category or supplier that does not exist makes the insert fail;
      otherwise exactly one product is added, and it is returned with
      quantity 0. */
  method Post(db: Database, input: ProductInput, isUrl: string -> bool) returns (r: Result<ProductWithStock, ApiError>)
    requires db.Valid()
    modifies db
    ensures db.Valid()
    ensures db.ledger == old(db.ledger) && db.categories == old(db.categories)
    ensures db.suppliers == old(db.suppliers)
    ensures match ValidateProduct(input, isUrl)
      case Failure(issues) => r == Failure(ValidationFailed(issues)) && db.products == old(db.products)
      case Success(v) =>
        if FindCategory(db.categories, v.categoryId).None? || FindSupplier(db.suppliers, v.supplierId).None?
        then r == Failure(StorageError) && db.products == old(db.products)
        else
          && r.Success?
          && r.value.product == Product(old(db.nextProductId), v.name, v.description, v.imageUrl,
                                        v.buyPrice, v.sellPrice, v.categoryId, v.supplierId)
          && r.value.quantity == 0
          && db.products == old(db.products) + [r.value.product]
    ensures PricesConsistent(old(db.products)) ==> PricesConsistent(db.products)
  {
    var validated := ValidateProduct(input, isUrl);
    if validated.Failure? {
      return Failure(ValidationFailed(validated.error));
    }
    var v := validated.value;
    var created := db.CreateProduct(v.name, v.description, v.imageUrl, v.buyPrice, v.sellPrice, v.categoryId, v.supplierId);
    if created.None? {
      return Failure(StorageError);
    }
    var product := created.value;
    var quantity := CalculateProductStock(db.ledger, product.id);
    NoHistoryStockZero(db.ledger, product.id);
    r := Success(ProductWithStock(product, quantity));
  }

  /** `orderBy: { name: 'asc' }`. */
  predicate ByName(a: Product, b: Product)
  {
    LexLe(a.name, b.name)
  }

  lemma ByNameTotalPreorder()
    ensures TotalPreorder(ByName)
  {
    forall a: Product, b: Product ensures ByName(a, b) || ByName(b, a) {
      LexLeTotal(a.name, b.name);
    }
    forall a: Product, b: Product, c: Product | ByName(a, b) && ByName(b, c) ensures ByName(a, c) {
      LexLeTransitive(a.name, b.name, c.name);
    }
  }

  /** GET /products. */
  function ListProducts(products: seq<Product>, ledger: seq<Transaction>): seq<ProductWithStock>
  {
    var sorted := SortBy(products, ByName);
    seq(|sorted|, i requires 0 <= i < |sorted| =>
      ProductWithStock(sorted[i], CalculateProductStock(ledger, sorted[i].id)))
  }

  function ProductsOf(rows: seq<ProductWithStock>): seq<Product>
  {
    seq(|rows|, i requires 0 <= i < |rows| => rows[i].product)
  }

  /** The listing holds every product exactly once, ordered by name, each
      with the stock its ledger entries derive. */
  lemma ListProductsSpec(products: seq<Product>, ledger: seq<Transaction>)
    ensures multiset(ProductsOf(ListProducts(products, ledger))) == multiset(products)
    ensures forall i, j :: 0 <= i < j < |ListProducts(products, ledger)| ==>
      LexLe(ListProducts(products, ledger)[i].product.name, ListProducts(products, ledger)[j].product.name)
    ensures forall row :: row in ListProducts(products, ledger) ==>
      row.quantity == CalculateProductStock(ledger, row.product.id)
  {
    var sorted := SortBy(products, ByName);
    assert ProductsOf(ListProducts(products, ledger)) == sorted;
    ByNameTotalPreorder();
    SortBySorted(products, ByName);
  }
}
