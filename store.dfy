/** The relational store the routes talk to, as one object holding its four
    tables. Ids are assigned by autoincrement counters; products, categories
    and suppliers are only ever appended here, and the ledger is append-only.
    The foreign keys (a ledger entry's product, a product's category and
    supplier) are enforced by the store on insert. */
module Store {
  import opened Common
  import opened Entities

  predicate ProductIdsOk(products: seq<Product>, next: nat)
  {
    && next >= 1
    && (forall i :: 0 <= i < |products| ==> 1 <= products[i].id < next)
    && (forall i, j :: 0 <= i < j < |products| ==> products[i].id < products[j].id)
  }

  predicate CategoryIdsOk(categories: seq<Category>, next: nat)
  {
    && next >= 1
    && (forall i :: 0 <= i < |categories| ==> 1 <= categories[i].id < next)
    && (forall i, j :: 0 <= i < j < |categories| ==> categories[i].id < categories[j].id)
  }

  predicate SupplierIdsOk(suppliers: seq<Supplier>, next: nat)
  {
    && next >= 1
    && (forall i :: 0 <= i < |suppliers| ==> 1 <= suppliers[i].id < next)
    && (forall i, j :: 0 <= i < j < |suppliers| ==> suppliers[i].id < suppliers[j].id)
  }

  predicate TransactionIdsOk(ledger: seq<Transaction>, next: nat)
  {
    && next >= 1
    && (forall i :: 0 <= i < |ledger| ==> 1 <= ledger[i].id < next)
    && (forall i, j :: 0 <= i < j < |ledger| ==> ledger[i].id < ledger[j].id)
  }

  predicate HasProductId(products: seq<Product>, id: int)
  {
    exists p :: p in products && p.id == id
  }

  predicate HasCategoryId(categories: seq<Category>, id: int)
  {
    exists c :: c in categories && c.id == id
  }

  predicate HasSupplierId(suppliers: seq<Supplier>, id: int)
  {
    exists s :: s in suppliers && s.id == id
  }

  /** Every ledger entry names an existing product. */
  predicate LedgerReferencesProducts(ledger: seq<Transaction>, products: seq<Product>)
  {
    forall i :: 0 <= i < |ledger| ==> HasProductId(products, ledger[i].productId)
  }

  /** Every product names an existing category and supplier. */
  predicate ProductsReferenceCatalog(products: seq<Product>, categories: seq<Category>, suppliers: seq<Supplier>)
  {
    forall i :: 0 <= i < |products| ==>
      HasCategoryId(categories, products[i].categoryId) && HasSupplierId(suppliers, products[i].supplierId)
  }

  class Database {
    var products: seq<Product>
    var categories: seq<Category>
    var suppliers: seq<Supplier>
    var ledger: seq<Transaction>
    var nextProductId: nat
    var nextCategoryId: nat
    var nextSupplierId: nat
    var nextTransactionId: nat

    ghost predicate Valid()
      reads this
    {
      && ProductIdsOk(products, nextProductId)
      && CategoryIdsOk(categories, nextCategoryId)
      && SupplierIdsOk(suppliers, nextSupplierId)
      && TransactionIdsOk(ledger, nextTransactionId)
      && LedgerReferencesProducts(ledger, products)
      && ProductsReferenceCatalog(products, categories, suppliers)
    }

    constructor ()
      ensures Valid()
      ensures products == [] && categories == [] && suppliers == [] && ledger == []
    {
      products, categories, suppliers, ledger := [], [], [], [];
      nextProductId, nextCategoryId, nextSupplierId, nextTransactionId := 1, 1, 1, 1;
    }

    /** `transaction.create`: appends one entry under a fresh id. */
    method CreateTransaction(txType: TxType, quantity: int, productId: int, unitPrice: Money, totalValue: Money, date: int)
      returns (t: Transaction)
      requires Valid()
      requires FindProduct(products, productId).Some?
      modifies this`ledger, this`nextTransactionId
      ensures Valid()
      ensures t == Transaction(old(nextTransactionId), txType, quantity, unitPrice, totalValue, productId, date)
      ensures ledger == old(ledger) + [t]
      ensures forall u :: u in old(ledger) ==> u.id < t.id
    {
      t := Transaction(nextTransactionId, txType, quantity, unitPrice, totalValue, productId, date);
      TransactionAppendOk(ledger, nextTransactionId, products, t);
      ledger := ledger + [t];
      nextTransactionId := nextTransactionId + 1;
    }

    /** `product.create`: inserts one product under a fresh id, or fails when
        its category or supplier does not exist (a foreign-key violation). */
    method CreateProduct(name: string, description: Option<string>, imageUrl: Option<string>,
                         buyPrice: Money, sellPrice: Money, categoryId: int, supplierId: int)
      returns (r: Option<Product>)
      requires Valid()
      modifies this`products, this`nextProductId
      ensures Valid()
      ensures r.None? <==> FindCategory(categories, categoryId).None? || FindSupplier(suppliers, supplierId).None?
      ensures r.Some? ==> r.value == Product(old(nextProductId), name, description, imageUrl, buyPrice, sellPrice, categoryId, supplierId)
      ensures r.Some? ==> products == old(products) + [r.value]
      ensures r.None? ==> products == old(products)
      ensures r.Some? ==> forall t :: t in ledger ==> t.productId != r.value.id
    {
      if FindCategory(categories, categoryId).None? || FindSupplier(suppliers, supplierId).None? {
        return None;
      }
      var p := Product(nextProductId, name, description, imageUrl, buyPrice, sellPrice, categoryId, supplierId);
      ProductAppendOk(products, nextProductId, ledger, categories, suppliers, p);
      products, nextProductId := products + [p], nextProductId + 1;
      r := Some(p);
    }

    method CreateCategory(name: string, description: Option<string>) returns (c: Category)
      requires Valid()
      modifies this`categories, this`nextCategoryId
      ensures Valid()
      ensures c == Category(old(nextCategoryId), name, description)
      ensures categories == old(categories) + [c]
      ensures forall d :: d in old(categories) ==> d.id < c.id
    {
      c := Category(nextCategoryId, name, description);
      CategoryAppendOk(categories, nextCategoryId, products, suppliers, c);
      categories, nextCategoryId := categories + [c], nextCategoryId + 1;
    }

    method CreateSupplier(name: string, contact: string, phone: string, email: string) returns (s: Supplier)
      requires Valid()
      modifies this`suppliers, this`nextSupplierId
      ensures Valid()
      ensures s == Supplier(old(nextSupplierId), name, contact, phone, email)
      ensures suppliers == old(suppliers) + [s]
      ensures forall d :: d in old(suppliers) ==> d.id < s.id
    {
      s := Supplier(nextSupplierId, name, contact, phone, email);
      SupplierAppendOk(suppliers, nextSupplierId, products, categories, s);
      suppliers, nextSupplierId := suppliers + [s], nextSupplierId + 1;
    }
  }

  /** An entry under the next id, for an existing product, keeps the
      ledger's ids increasing and its references valid. */
  lemma TransactionAppendOk(ledger: seq<Transaction>, next: nat, products: seq<Product>, t: Transaction)
    requires TransactionIdsOk(ledger, next) && LedgerReferencesProducts(ledger, products)
    requires t.id == next && FindProduct(products, t.productId).Some?
    ensures TransactionIdsOk(ledger + [t], next + 1)
    ensures LedgerReferencesProducts(ledger + [t], products)
    ensures forall u :: u in ledger ==> u.id < t.id
  {
    var l := ledger + [t];
    forall i | 0 <= i < |l| ensures 1 <= l[i].id < next + 1 {
      if i < |ledger| {
        assert l[i] == ledger[i];
      }
    }
    forall i, j | 0 <= i < j < |l| ensures l[i].id < l[j].id {
      assert l[i] == ledger[i];
      if j < |ledger| {
        assert l[j] == ledger[j];
      }
    }
    forall i | 0 <= i < |l| ensures HasProductId(products, l[i].productId) {
      if i < |ledger| {
        assert l[i] == ledger[i];
      } else {
        assert FindProduct(products, t.productId).value in products;
      }
    }
  }

  /** A product under the next id, whose category and supplier exist, keeps
      the product ids increasing and every reference valid; no ledger entry
      names it yet. */
  lemma ProductAppendOk(products: seq<Product>, next: nat, ledger: seq<Transaction>,
                        categories: seq<Category>, suppliers: seq<Supplier>, p: Product)
    requires ProductIdsOk(products, next) && LedgerReferencesProducts(ledger, products)
    requires ProductsReferenceCatalog(products, categories, suppliers)
    requires p.id == next
    requires FindCategory(categories, p.categoryId).Some? && FindSupplier(suppliers, p.supplierId).Some?
    ensures ProductIdsOk(products + [p], next + 1)
    ensures LedgerReferencesProducts(ledger, products + [p])
    ensures ProductsReferenceCatalog(products + [p], categories, suppliers)
    ensures forall t :: t in ledger ==> t.productId != p.id
  {
    var ps := products + [p];
    forall i | 0 <= i < |ps| ensures 1 <= ps[i].id < next + 1 {
      if i < |products| {
        assert ps[i] == products[i];
      }
    }
    forall i, j | 0 <= i < j < |ps| ensures ps[i].id < ps[j].id {
      assert ps[i] == products[i];
      if j < |products| {
        assert ps[j] == products[j];
      }
    }
    forall i | 0 <= i < |ps|
      ensures HasCategoryId(categories, ps[i].categoryId) && HasSupplierId(suppliers, ps[i].supplierId)
    {
      if i < |products| {
        assert ps[i] == products[i];
      } else {
        assert FindCategory(categories, p.categoryId).value in categories;
        assert FindSupplier(suppliers, p.supplierId).value in suppliers;
      }
    }
    forall i | 0 <= i < |ledger| ensures HasProductId(ps, ledger[i].productId) && ledger[i].productId != p.id {
      var q :| q in products && q.id == ledger[i].productId;
      assert q in ps;
    }
  }

  lemma CategoryAppendOk(categories: seq<Category>, next: nat, products: seq<Product>,
                         suppliers: seq<Supplier>, c: Category)
    requires CategoryIdsOk(categories, next) && ProductsReferenceCatalog(products, categories, suppliers)
    requires c.id == next
    ensures CategoryIdsOk(categories + [c], next + 1)
    ensures ProductsReferenceCatalog(products, categories + [c], suppliers)
    ensures forall d :: d in categories ==> d.id < c.id
  {
    var cs := categories + [c];
    forall i | 0 <= i < |cs| ensures 1 <= cs[i].id < next + 1 {
      if i < |categories| {
        assert cs[i] == categories[i];
      }
    }
    forall i, j | 0 <= i < j < |cs| ensures cs[i].id < cs[j].id {
      assert cs[i] == categories[i];
      if j < |categories| {
        assert cs[j] == categories[j];
      }
    }
    forall i | 0 <= i < |products| ensures HasCategoryId(cs, products[i].categoryId) {
      assert HasCategoryId(categories, products[i].categoryId);
      var d :| d in categories && d.id == products[i].categoryId;
      assert d in cs;
    }
  }

  lemma SupplierAppendOk(suppliers: seq<Supplier>, next: nat, products: seq<Product>,
                         categories: seq<Category>, s: Supplier)
    requires SupplierIdsOk(suppliers, next) && ProductsReferenceCatalog(products, categories, suppliers)
    requires s.id == next
    ensures SupplierIdsOk(suppliers + [s], next + 1)
    ensures ProductsReferenceCatalog(products, categories, suppliers + [s])
    ensures forall d :: d in suppliers ==> d.id < s.id
  {
    var ss := suppliers + [s];
    forall i | 0 <= i < |ss| ensures 1 <= ss[i].id < next + 1 {
      if i < |suppliers| {
        assert ss[i] == suppliers[i];
      }
    }
    forall i, j | 0 <= i < j < |ss| ensures ss[i].id < ss[j].id {
      assert ss[i] == suppliers[i];
      if j < |suppliers| {
        assert ss[j] == suppliers[j];
      }
    }
    forall i | 0 <= i < |products| ensures HasSupplierId(ss, products[i].supplierId) {
      assert HasSupplierId(suppliers, products[i].supplierId);
      var d :| d in suppliers && d.id == products[i].supplierId;
      assert d in ss;
    }
  }
}
