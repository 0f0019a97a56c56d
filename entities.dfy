/** The records the inventory keeps: products, categories, suppliers and the
    append-only ledger of stock movements. A product's stock is not among its
    fields; it is always derived from the ledger. */
module Entities {
  import opened Common

  datatype TxType = IN | OUT

  /** One ledger entry. `date` is an instant (milliseconds since the epoch). */
  datatype Transaction = Transaction(
    id: nat,
    txType: TxType,
    quantity: int,
    unitPrice: Money,
    totalValue: Money,
    productId: int,
    date: int)

  datatype Product = Product(
    id: nat,
    name: string,
    description: Option<string>,
    imageUrl: Option<string>,
    buyPrice: Money,
    sellPrice: Money,
    categoryId: int,
    supplierId: int)

  datatype Category = Category(id: nat, name: string, description: Option<string>)

  datatype Supplier = Supplier(id: nat, name: string, contact: string, phone: string, email: string)

  /** `findUnique({ where: { id } })` on the products table. */
  function FindProduct(products: seq<Product>, id: int): (r: Option<Product>)
    ensures r.Some? ==> r.value in products && r.value.id == id
    ensures r.None? <==> forall p :: p in products ==> p.id != id
  {
    if products == [] then None
    else if products[0].id == id then Some(products[0])
    else FindProduct(products[1..], id)
  }

  function FindCategory(categories: seq<Category>, id: int): (r: Option<Category>)
    ensures r.Some? ==> r.value in categories && r.value.id == id
    ensures r.None? <==> forall c :: c in categories ==> c.id != id
  {
    if categories == [] then None
    else if categories[0].id == id then Some(categories[0])
    else FindCategory(categories[1..], id)
  }

  function FindSupplier(suppliers: seq<Supplier>, id: int): (r: Option<Supplier>)
    ensures r.Some? ==> r.value in suppliers && r.value.id == id
    ensures r.None? <==> forall s :: s in suppliers ==> s.id != id
  {
    if suppliers == [] then None
    else if suppliers[0].id == id then Some(suppliers[0])
    else FindSupplier(suppliers[1..], id)
  }
}
