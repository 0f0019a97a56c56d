/** The suppliers route (src/app/api/suppliers/route.ts). GET lists the
    suppliers whose name or e-mail contains the search text, ignoring case,
    by name; POST validates and inserts one supplier. */
module SuppliersRoute {
  import opened Common
  import opened Entities
  import opened Text
  import opened Sql
  import opened Store

  datatype SupplierInput = SupplierInput(name: string, contact: string, phone: string, email: string)

  /** The schema's complaints in field order; what an e-mail address is
      belongs to the validation library and is the parameter `isEmail`. */
  function SupplierIssues(input: SupplierInput, isEmail: string -> bool): seq<Issue>
  {
    (if |input.name| < 1 then [Issue("name", TooSmall)] else [])
    + (if |input.contact| < 1 then [Issue("contact", TooSmall)] else [])
    + (if |input.phone| < 1 then [Issue("phone", TooSmall)] else [])
    + (if !isEmail(input.email) then [Issue("email", InvalidString)] else [])
  }

  /** `supplierSchema.parse`: name, contact and phone non-empty and a valid
      e-mail address. */
  function ValidateSupplier(input: SupplierInput, isEmail: string -> bool): (r: Result<SupplierInput, seq<Issue>>)
    ensures r.Success? <==> |input.name| >= 1 && |input.contact| >= 1 && |input.phone| >= 1 && isEmail(input.email)
    ensures r.Success? ==> r.value == input
    ensures r.Failure? ==> r.error == SupplierIssues(input, isEmail) && r.error != []
  {
    var issues := SupplierIssues(input, isEmail);
    if issues != [] then Failure(issues) else Success(input)
  }

  /** POST /suppliers: 400 and nothing created on a validation failure,
      otherwise exactly one supplier appended. */
  method Post(db: Database, input: SupplierInput, isEmail: string -> bool) returns (r: Result<Supplier, ApiError>)
    requires db.Valid()
    modifies db
    ensures db.Valid()
    ensures db.products == old(db.products) && db.categories == old(db.categories)
    ensures db.ledger == old(db.ledger)
    ensures match ValidateSupplier(input, isEmail)
      case Failure(issues) => r == Failure(ValidationFailed(issues)) && db.suppliers == old(db.suppliers)
      case Success(v) =>
        && r == Success(Supplier(old(db.nextSupplierId), v.name, v.contact, v.phone, v.email))
        && db.suppliers == old(db.suppliers) + [r.value]
  {
    var validated := ValidateSupplier(input, isEmail);
    if validated.Failure? {
      return Failure(ValidationFailed(validated.error));
    }
    var v := validated.value;
    var supplier := db.CreateSupplier(v.name, v.contact, v.phone, v.email);
    r := Success(supplier);
  }

  /** Name or e-mail contains the text, ignoring case. */
  predicate Matches(s: Supplier, search: string)
  {
    ContainsIgnoreCase(s.name, search) || ContainsIgnoreCase(s.email, search)
  }

  predicate ByName(a: Supplier, b: Supplier)
  {
    LexLe(a.name, b.name)
  }

  lemma ByNameTotalPreorder()
    ensures TotalPreorder(ByName)
  {
    forall a: Supplier, b: Supplier ensures ByName(a, b) || ByName(b, a) {
      LexLeTotal(a.name, b.name);
    }
    forall a: Supplier, b: Supplier, c: Supplier | ByName(a, b) && ByName(b, c) ensures ByName(a, c) {
      LexLeTransitive(a.name, b.name, c.name);
    }
  }

  /** GET /suppliers?search=…; an absent parameter searches for "". */
  function ListSuppliers(suppliers: seq<Supplier>, search: Option<string>): seq<Supplier>
  {
    var text := search.GetOr("");
    SortBy(Where(suppliers, s => Matches(s, text)), ByName)
  }

  /** The listing is exactly the matching suppliers, each as often as it is
      stored, ordered by name. */
  lemma ListSuppliersSpec(suppliers: seq<Supplier>, search: Option<string>)
    ensures forall s :: multiset(ListSuppliers(suppliers, search))[s] ==
                        (if Matches(s, search.GetOr("")) then multiset(suppliers)[s] else 0)
    ensures forall i, j :: 0 <= i < j < |ListSuppliers(suppliers, search)| ==>
      LexLe(ListSuppliers(suppliers, search)[i].name, ListSuppliers(suppliers, search)[j].name)
  {
    var text := search.GetOr("");
    ByNameTotalPreorder();
    SortBySorted(Where(suppliers, s => Matches(s, text)), ByName);
  }

  /** Without a search parameter every supplier is listed. */
  lemma ListSuppliersNoSearch(suppliers: seq<Supplier>)
    ensures multiset(ListSuppliers(suppliers, None)) == multiset(suppliers)
  {
    forall s | s in suppliers ensures Matches(s, "") {
      ContainsIgnoreCaseEmpty(s.name);
    }
    WhereAll(suppliers, s => Matches(s, ""));
  }
}
