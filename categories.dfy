/** The categories route (src/app/api/categories/route.ts). POST validates
    the name, refuses a name that an existing category already has up to
    letter case (409), and otherwise inserts the category. */
module CategoriesRoute {
  import opened Common
  import opened Entities
  import opened Text
  import opened Sql
  import opened Store

  datatype CategoryInput = CategoryInput(name: string, description: Option<string>)

  /** `categorySchema.parse`: the name must be non-empty. */
  function ValidateCategory(input: CategoryInput): (r: Result<CategoryInput, seq<Issue>>)
    ensures r.Success? <==> |input.name| >= 1
    ensures r.Success? ==> r.value == input
    ensures r.Failure? ==> r.error == [Issue("name", TooSmall)]
  {
    if |input.name| < 1 then Failure([Issue("name", TooSmall)]) else Success(input)
  }

  /** `findFirst` with `equals` in `mode: 'insensitive'`. */
  function FindByNameIgnoringCase(categories: seq<Category>, name: string): (r: Option<Category>)
    ensures r.Some? ==> r.value in categories && EqualsIgnoreCase(r.value.name, name)
    ensures r.None? <==> forall c :: c in categories ==> !EqualsIgnoreCase(c.name, name)
  {
    if categories == [] then None
    else if EqualsIgnoreCase(categories[0].name, name) then Some(categories[0])
    else FindByNameIgnoringCase(categories[1..], name)
  }

  /** Category names are unique up to letter case. */
  predicate NamesDistinctIgnoringCase(categories: seq<Category>)
  {
    forall i, j :: 0 <= i < j < |categories| ==> !EqualsIgnoreCase(categories[i].name, categories[j].name)
  }

  /** Inserting a name that no category has up to case keeps names unique. */
  lemma InsertKeepsNamesDistinct(categories: seq<Category>, c: Category)
    requires NamesDistinctIgnoringCase(categories)
    requires FindByNameIgnoringCase(categories, c.name).None?
    ensures NamesDistinctIgnoringCase(categories + [c])
  {
    var cs := categories + [c];
    forall i, j | 0 <= i < j < |cs| ensures !EqualsIgnoreCase(cs[i].name, cs[j].name) {
      if j == |categories| {
        assert cs[i] in categories;
      }
    }
  }

  /** POST /categories. */
  method Post(db: Database, input: CategoryInput) returns (r: Result<Category, ApiError>)
    requires db.Valid()
    modifies db
    ensures db.Valid()
    ensures db.products == old(db.products) && db.suppliers == old(db.suppliers)
    ensures db.ledger == old(db.ledger)
    ensures |input.name| < 1 ==>
      r == Failure(ValidationFailed([Issue("name", TooSmall)])) && db.categories == old(db.categories)
    ensures |input.name| >= 1 && (exists c :: c in old(db.categories) && EqualsIgnoreCase(c.name, input.name)) ==>
      r == Failure(DuplicateName) && db.categories == old(db.categories)
    ensures |input.name| >= 1 && (forall c :: c in old(db.categories) ==> !EqualsIgnoreCase(c.name, input.name)) ==>
      && r == Success(Category(old(db.nextCategoryId), input.name, input.description))
      && db.categories == old(db.categories) + [r.value]
    ensures NamesDistinctIgnoringCase(old(db.categories)) ==> NamesDistinctIgnoringCase(db.categories)
  {
    var validated := ValidateCategory(input);
    if validated.Failure? {
      return Failure(ValidationFailed(validated.error));
    }
    var data := validated.value;
    var existing := FindByNameIgnoringCase(db.categories, data.name);
    if existing.Some? {
      return Failure(DuplicateName);
    }
    ghost var before := db.categories;
    var category := db.CreateCategory(data.name, data.description);
    if NamesDistinctIgnoringCase(before) {
      InsertKeepsNamesDistinct(before, category);
    }
    r := Success(category);
  }

  /** `orderBy: { name: 'asc' }` on categories. */
  predicate ByName(a: Category, b: Category)
  {
    LexLe(a.name, b.name)
  }

  lemma ByNameTotalPreorder()
    ensures TotalPreorder(ByName)
  {
    forall a: Category, b: Category ensures ByName(a, b) || ByName(b, a) {
      LexLeTotal(a.name, b.name);
    }
    forall a: Category, b: Category, c: Category | ByName(a, b) && ByName(b, c) ensures ByName(a, c) {
      LexLeTransitive(a.name, b.name, c.name);
    }
  }
}
