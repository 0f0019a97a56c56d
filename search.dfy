/** The global search route (src/app/api/search/route.ts): for each of
    products, categories and suppliers, the rows matching the text ignoring
    case, ordered by name and cut at five; the answer lists the product hits,
    then the category hits, then the supplier hits. */
module SearchRoute {
  import opened Common
  import opened Entities
  import opened Text
  import opened Sql
  import ProductsRoute
  import CategoriesRoute
  import SuppliersRoute

  datatype ResultType = ProductType | CategoryType | SupplierType

  datatype SearchResult = SearchResult(
    id: nat,
    resultType: ResultType,
    title: string,
    subtitle: Option<string>,
    link: string)

  const PerType: nat := 5

  /** Name or description; a product without a description matches on its name only. */
  predicate ProductMatches(p: Product, q: string)
  {
    ContainsIgnoreCase(p.name, q) || (p.description.Some? && ContainsIgnoreCase(p.description.value, q))
  }

  predicate CategoryMatches(c: Category, q: string)
  {
    ContainsIgnoreCase(c.name, q)
  }

  function MatchingProducts(products: seq<Product>, q: string): seq<Product>
  {
    Where(products, p => ProductMatches(p, q))
  }

  function MatchingCategories(categories: seq<Category>, q: string): seq<Category>
  {
    Where(categories, c => CategoryMatches(c, q))
  }

  function MatchingSuppliers(suppliers: seq<Supplier>, q: string): seq<Supplier>
  {
    Where(suppliers, s => SuppliersRoute.Matches(s, q))
  }

  function ProductHits(products: seq<Product>, q: string): seq<Product>
  {
    Take(SortBy(MatchingProducts(products, q), ProductsRoute.ByName), PerType)
  }

  function CategoryHits(categories: seq<Category>, q: string): seq<Category>
  {
    Take(SortBy(MatchingCategories(categories, q), CategoriesRoute.ByName), PerType)
  }

  function SupplierHits(suppliers: seq<Supplier>, q: string): seq<Supplier>
  {
    Take(SortBy(MatchingSuppliers(suppliers, q), SuppliersRoute.ByName), PerType)
  }

  /** At most five product hits, each a matching product, ordered by name,
      and no matching product left out sorts before a hit. */
  lemma ProductHitsSpec(products: seq<Product>, q: string)
    ensures var m := MatchingProducts(products, q);
      var r := ProductHits(products, q);
      && (forall p :: p in m <==> p in products && ProductMatches(p, q))
      && |r| == (if |m| <= PerType then |m| else PerType)
      && (forall p :: p in r ==> p in m)
      && (forall i, j :: 0 <= i < j < |r| ==> LexLe(r[i].name, r[j].name))
      && (forall p, i :: p in m && p !in r && 0 <= i < |r| ==> LexLe(r[i].name, p.name))
  {
    var m := MatchingProducts(products, q);
    var r := ProductHits(products, q);
    ProductsRoute.ByNameTotalPreorder();
    TopK(m, ProductsRoute.ByName, PerType);
    forall i, j | 0 <= i < j < |r| ensures LexLe(r[i].name, r[j].name) {
      assert ProductsRoute.ByName(r[i], r[j]);
    }
    forall p, i | p in m && p !in r && 0 <= i < |r| ensures LexLe(r[i].name, p.name) {
      assert ProductsRoute.ByName(r[i], p);
    }
  }

  lemma CategoryHitsSpec(categories: seq<Category>, q: string)
    ensures var m := MatchingCategories(categories, q);
      var r := CategoryHits(categories, q);
      && (forall c :: c in m <==> c in categories && CategoryMatches(c, q))
      && |r| == (if |m| <= PerType then |m| else PerType)
      && (forall c :: c in r ==> c in m)
      && (forall i, j :: 0 <= i < j < |r| ==> LexLe(r[i].name, r[j].name))
      && (forall c, i :: c in m && c !in r && 0 <= i < |r| ==> LexLe(r[i].name, c.name))
  {
    var m := MatchingCategories(categories, q);
    var r := CategoryHits(categories, q);
    CategoriesRoute.ByNameTotalPreorder();
    TopK(m, CategoriesRoute.ByName, PerType);
    forall i, j | 0 <= i < j < |r| ensures LexLe(r[i].name, r[j].name) {
      assert CategoriesRoute.ByName(r[i], r[j]);
    }
    forall c, i | c in m && c !in r && 0 <= i < |r| ensures LexLe(r[i].name, c.name) {
      assert CategoriesRoute.ByName(r[i], c);
    }
  }

  lemma SupplierHitsSpec(suppliers: seq<Supplier>, q: string)
    ensures var m := MatchingSuppliers(suppliers, q);
      var r := SupplierHits(suppliers, q);
      && (forall s :: s in m <==> s in suppliers && SuppliersRoute.Matches(s, q))
      && |r| == (if |m| <= PerType then |m| else PerType)
      && (forall s :: s in r ==> s in m)
      && (forall i, j :: 0 <= i < j < |r| ==> LexLe(r[i].name, r[j].name))
      && (forall s, i :: s in m && s !in r && 0 <= i < |r| ==> LexLe(r[i].name, s.name))
  {
    var m := MatchingSuppliers(suppliers, q);
    var r := SupplierHits(suppliers, q);
    SuppliersRoute.ByNameTotalPreorder();
    TopK(m, SuppliersRoute.ByName, PerType);
    forall i, j | 0 <= i < j < |r| ensures LexLe(r[i].name, r[j].name) {
      assert SuppliersRoute.ByName(r[i], r[j]);
    }
    forall s, i | s in m && s !in r && 0 <= i < |r| ensures LexLe(r[i].name, s.name) {
      assert SuppliersRoute.ByName(r[i], s);
    }
  }

  function EditLink(base: string, id: nat): string
  {
    base + "?action=edit&id=" + NatToString(id)
  }

  /** A product's subtitle is the name of its category. */
  function ProductResult(p: Product, categories: seq<Category>): SearchResult
  {
    var category := FindCategory(categories, p.categoryId);
    SearchResult(p.id, ProductType, p.name,
                 if category.Some? then Some(category.value.name) else None,
                 EditLink("/products", p.id))
  }

  function CategoryResult(c: Category): SearchResult
  {
    SearchResult(c.id, CategoryType, c.name, c.description, EditLink("/categories", c.id))
  }

  function SupplierResult(s: Supplier): SearchResult
  {
    SearchResult(s.id, SupplierType, s.name, Some(s.email), EditLink("/suppliers", s.id))
  }

  function ProductResults(ps: seq<Product>, categories: seq<Category>): seq<SearchResult>
  {
    seq(|ps|, i requires 0 <= i < |ps| => ProductResult(ps[i], categories))
  }

  function CategoryResults(cs: seq<Category>): seq<SearchResult>
  {
    seq(|cs|, i requires 0 <= i < |cs| => CategoryResult(cs[i]))
  }

  function SupplierResults(ss: seq<Supplier>): seq<SearchResult>
  {
    seq(|ss|, i requires 0 <= i < |ss| => SupplierResult(ss[i]))
  }

  /** The answer: product hits, then category hits, then supplier hits. */
  function Answer(ps: seq<Product>, cs: seq<Category>, ss: seq<Supplier>, categories: seq<Category>)
    : seq<SearchResult>
  {
    ProductResults(ps, categories) + CategoryResults(cs) + SupplierResults(ss)
  }

  /** GET /search?q=…; an absent `q` searches for "". */
  function Search(products: seq<Product>, categories: seq<Category>, suppliers: seq<Supplier>, q: Option<string>)
    : seq<SearchResult>
  {
    var text := q.GetOr("");
    Answer(ProductHits(products, text), CategoryHits(categories, text), SupplierHits(suppliers, text), categories)
  }

  /** Each result carries its row's id and name, the subtitle fixed for its
      type, and an edit link to its own page and id, in the order products,
      categories, suppliers. */
  lemma AnswerLayout(ps: seq<Product>, cs: seq<Category>, ss: seq<Supplier>, categories: seq<Category>)
    ensures var r := Answer(ps, cs, ss, categories);
      && |r| == |ps| + |cs| + |ss|
      && (forall i :: 0 <= i < |ps| ==>
            && r[i].resultType == ProductType && r[i].id == ps[i].id && r[i].title == ps[i].name
            && r[i].link == EditLink("/products", ps[i].id)
            && (FindCategory(categories, ps[i].categoryId).Some? ==>
                  r[i].subtitle == Some(FindCategory(categories, ps[i].categoryId).value.name)))
      && (forall i :: 0 <= i < |cs| ==>
            && r[|ps| + i].resultType == CategoryType && r[|ps| + i].id == cs[i].id
            && r[|ps| + i].title == cs[i].name && r[|ps| + i].subtitle == cs[i].description
            && r[|ps| + i].link == EditLink("/categories", cs[i].id))
      && (forall i :: 0 <= i < |ss| ==>
            && r[|ps| + |cs| + i].resultType == SupplierType && r[|ps| + |cs| + i].id == ss[i].id
            && r[|ps| + |cs| + i].title == ss[i].name && r[|ps| + |cs| + i].subtitle == Some(ss[i].email)
            && r[|ps| + |cs| + i].link == EditLink("/suppliers", ss[i].id))
  {
    var pr, cr, sr := ProductResults(ps, categories), CategoryResults(cs), SupplierResults(ss);
    var r := Answer(ps, cs, ss, categories);
    forall i | 0 <= i < |ps| ensures r[i] == ProductResult(ps[i], categories) {
      assert r[i] == pr[i];
    }
    forall i | 0 <= i < |cs| ensures r[|ps| + i] == CategoryResult(cs[i]) {
      assert r[|pr| + i] == cr[i];
    }
    forall i | 0 <= i < |ss| ensures r[|ps| + |cs| + i] == SupplierResult(ss[i]) {
      assert r[|pr| + |cr| + i] == sr[i];
    }
  }

  /** At most five results of each type, so at most fifteen in all. */
  lemma SearchBound(products: seq<Product>, categories: seq<Category>, suppliers: seq<Supplier>, q: Option<string>)
    ensures |Search(products, categories, suppliers, q)| <= 3 * PerType
  {
    var text := q.GetOr("");
    ProductHitsSpec(products, text);
    CategoryHitsSpec(categories, text);
    SupplierHitsSpec(suppliers, text);
    AnswerLayout(ProductHits(products, text), CategoryHits(categories, text), SupplierHits(suppliers, text), categories);
  }

  /** The id in a link reads back as the result's id. */
  lemma LinkNamesId(base: string, id: nat)
    ensures var link := EditLink(base, id);
      var prefix := base + "?action=edit&id=";
      IsPrefix(prefix, link) && ParseNat(link[|prefix|..]) == id
  {
    var prefix := base + "?action=edit&id=";
    assert EditLink(base, id)[|prefix|..] == NatToString(id);
    ParseNatToString(id);
  }

  /** An absent `q` matches everything, so each type shows its first five
      rows by name. */
  lemma AbsentQueryMatchesAll(products: seq<Product>, categories: seq<Category>, suppliers: seq<Supplier>)
    ensures MatchingProducts(products, "") == products
    ensures MatchingCategories(categories, "") == categories
    ensures MatchingSuppliers(suppliers, "") == suppliers
  {
    forall p | p in products ensures ProductMatches(p, "") {
      ContainsIgnoreCaseEmpty(p.name);
    }
    forall c | c in categories ensures CategoryMatches(c, "") {
      ContainsIgnoreCaseEmpty(c.name);
    }
    forall s | s in suppliers ensures SuppliersRoute.Matches(s, "") {
      ContainsIgnoreCaseEmpty(s.name);
    }
    WhereAll(products, p => ProductMatches(p, ""));
    WhereAll(categories, c => CategoryMatches(c, ""));
    WhereAll(suppliers, s => SuppliersRoute.Matches(s, ""));
  }
}
