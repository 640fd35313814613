/** The category handlers (controller/category.js): create and rename under
    the unique name, look up by slug, delete and list. */
module CategoryController {
  import opened Base
  import opened Text
  import opened CategoryModel
  import opened Store

  const NameRequiredMessage := "Category name is required"
  const AlreadyExistsMessage := "Category already exists"
  const NameTakenMessage := "Category name already exists"
  const CreateErrorMessage := "Server error during category creation"
  const UpdateErrorMessage := "Server error during category update"
  const NotFoundMessage := "Category not found"
  const SlugRequiredMessage := "Category slug is required"
  const NoCategoriesMessage := "No categories found"

  /** `categoryModel.findOne({ name })`, the filter passing through the
      name's `trim` setter. */
  function CategoryNamed(cats: map<Id, Category>, name: string): (r: Option<Id>)
    ensures r.Some? ==> r.value in cats && cats[r.value].name == Trim(name)
    ensures r.None? <==> forall id :: id in cats ==> cats[id].name != Trim(name)
  {
    FindKey(cats, (c: Category) => c.name == Trim(name))
  }

  /** Some category already has the slug. */
  predicate SlugHeld(cats: map<Id, Category>, slug: string) {
    exists id :: id in cats && cats[id].slug == slug
  }

  /** `createCategory`. The request's description is not a schema path and
      is dropped. Validation runs before the pre-save hook; the hook then
      derives the slug, and a slug another category already holds breaks
      the unique index: both end in status 500. */
  function CreateCategory(db: Db, name: Option<string>, description: Option<string>, newId: Id,
                          slugify: string -> string): (r: Step<Category>)
    requires newId !in db.categories
    ensures r.reply.Fail? ==> r.db == db
    ensures r.reply == Fail(400, NameRequiredMessage) <==> !TruthyText(name)
    ensures r.reply == Fail(409, AlreadyExistsMessage) <==>
      TruthyText(name) && CategoryNamed(db.categories, name.value).Some?
    ensures r.reply == Fail(ServerError, CreateErrorMessage) <==>
      && TruthyText(name) && CategoryNamed(db.categories, name.value).None?
      && (!ValidCategory(Category(Trim(name.value), ""))
          || SlugHeld(db.categories, SlugSetter(slugify(Trim(name.value)))))
    ensures r.reply.Ok? <==>
      && TruthyText(name) && CategoryNamed(db.categories, name.value).None?
      && ValidCategory(Category(Trim(name.value), ""))
      && !SlugHeld(db.categories, SlugSetter(slugify(Trim(name.value))))
    ensures r.reply.Ok? ==>
      && r.reply == Ok(201, Category(Trim(name.value), SlugSetter(slugify(Trim(name.value)))))
      && r.db == db.(categories := db.categories[newId := r.reply.value])
  {
    if !TruthyText(name) then Refuse(400, NameRequiredMessage, db)
    else if CategoryNamed(db.categories, name.value).Some? then Refuse(409, AlreadyExistsMessage, db)
    else
      var c := Category(Trim(name.value), "");
      if !ValidCategory(c) then Refuse(ServerError, CreateErrorMessage, db)
      else
        var saved := PreSave(c, true, slugify);
        if SlugHeld(db.categories, saved.slug) then Refuse(ServerError, CreateErrorMessage, db)
        else Done(201, saved, db.(categories := db.categories[newId := saved]))
  }

  /** What the schema keeps true of the stored categories: names unique,
      trimmed and within their bounds, slugs unique and in setter form. */
  predicate CategoriesConsistent(cats: map<Id, Category>) {
    && NamesUnique(cats) && SlugsUnique(cats) && SlugsNormal(cats)
    && forall id :: id in cats ==> ValidCategory(cats[id]) && Trimmed(cats[id].name)
  }

  /** Writing a category under `id` whose name no other category holds
      keeps names unique. */
  lemma StoreKeepsNamesUnique(cats: map<Id, Category>, id: Id, c: Category)
    requires NamesUnique(cats)
    requires forall k :: k in cats && k != id ==> cats[k].name != c.name
    ensures NamesUnique(cats[id := c])
  {
    var next := cats[id := c];
    forall a, b | a in next && b in next && next[a].name == next[b].name ensures a == b {
      if a != id && b != id {
        assert next[a] == cats[a] && next[b] == cats[b];
      }
    }
  }

  /** The same for slugs. */
  lemma StoreKeepsSlugsUnique(cats: map<Id, Category>, id: Id, c: Category)
    requires SlugsUnique(cats)
    requires forall k :: k in cats && k != id ==> cats[k].slug != c.slug
    ensures SlugsUnique(cats[id := c])
  {
    var next := cats[id := c];
    forall a, b | a in next && b in next && next[a].slug == next[b].slug ensures a == b {
      if a != id && b != id {
        assert next[a] == cats[a] && next[b] == cats[b];
      }
    }
  }

  /** Writing a category whose name and slug no other category holds
      keeps the stored categories consistent. */
  lemma StoreKeepsConsistent(cats: map<Id, Category>, id: Id, c: Category)
    requires CategoriesConsistent(cats)
    requires ValidCategory(c) && Trimmed(c.name) && SlugForm(c.slug)
    requires forall k :: k in cats && k != id ==> cats[k].name != c.name && cats[k].slug != c.slug
    ensures CategoriesConsistent(cats[id := c])
  {
    StoreKeepsNamesUnique(cats, id, c);
    StoreKeepsSlugsUnique(cats, id, c);
  }

  /** A create keeps the stored categories consistent. */
  lemma CreateCategoryKeepsInvariants(db: Db, name: Option<string>, description: Option<string>, newId: Id,
                                      slugify: string -> string)
    requires newId !in db.categories
    requires CategoriesConsistent(db.categories)
    ensures CategoriesConsistent(CreateCategory(db, name, description, newId, slugify).db.categories)
  {
    var r := CreateCategory(db, name, description, newId, slugify);
    if r.reply.Ok? {
      SlugSetterForm(slugify(Trim(name.value)));
      StoreKeepsConsistent(db.categories, newId, r.reply.value);
    }
  }

  /** Some category other than `id` is named `n`. */
  predicate NameHeldByOther(cats: map<Id, Category>, id: Id, n: string) {
    exists other :: other in cats && other != id && cats[other].name == n
  }

  /** `updateCategory`. A truthy name already held by a different category
      is refused with 409; the category's own current name is allowed. The
      update validators run before the query (status 500 for a name out of
      bounds, even for an unknown id). `findByIdAndUpdate` runs no save
      hook, so the slug is left as it was; the description is dropped. */
  function UpdateCategory(db: Db, id: Id, name: Option<string>, description: Option<string>): (r: Step<Category>)
    ensures r.reply.Fail? ==> r.db == db
    ensures r.reply == Fail(409, NameTakenMessage) <==>
      TruthyText(name) && NameHeldByOther(db.categories, id, Trim(name.value))
    ensures r.reply.Ok? ==>
      && id in db.categories
      && r.reply.code == 200
      && r.reply.value.slug == db.categories[id].slug
      && r.reply.value.name == (if TruthyText(name) then Trim(name.value) else db.categories[id].name)
      && r.db == db.(categories := db.categories[id := r.reply.value])
    ensures r.reply == Fail(ServerError, UpdateErrorMessage) <==>
      && !(TruthyText(name) && NameHeldByOther(db.categories, id, Trim(name.value)))
      && TruthyText(name) && !ValidCategory(Category(Trim(name.value), ""))
    ensures r.reply == Fail(404, NotFoundMessage) <==>
      && !(TruthyText(name) && NameHeldByOther(db.categories, id, Trim(name.value)))
      && !(TruthyText(name) && !ValidCategory(Category(Trim(name.value), "")))
      && id !in db.categories
    ensures r.reply.Ok? <==>
      && !(TruthyText(name) && NameHeldByOther(db.categories, id, Trim(name.value)))
      && !(TruthyText(name) && !ValidCategory(Category(Trim(name.value), "")))
      && id in db.categories
  {
    if TruthyText(name) && NameHeldByOther(db.categories, id, Trim(name.value)) then
      Refuse(409, NameTakenMessage, db)
    else if TruthyText(name) && !ValidCategory(Category(Trim(name.value), "")) then
      Refuse(ServerError, UpdateErrorMessage, db)
    else if id !in db.categories then Refuse(404, NotFoundMessage, db)
    else
      var c := db.categories[id];
      var u := if TruthyText(name) then c.(name := Trim(name.value)) else c;
      Done(200, u, db.(categories := db.categories[id := u]))
  }

  /** Renames keep the category invariants, and renaming a category to the
      name it already has is never refused as taken. */
  lemma UpdateCategoryKeepsInvariants(db: Db, id: Id, name: Option<string>, description: Option<string>)
    requires CategoriesConsistent(db.categories)
    ensures CategoriesConsistent(UpdateCategory(db, id, name, description).db.categories)
    ensures id in db.categories && TruthyText(name) && Trim(name.value) == db.categories[id].name ==>
      UpdateCategory(db, id, name, description).reply == Ok(200, db.categories[id])
  {
    var r := UpdateCategory(db, id, name, description);
    if r.reply.Ok? {
      StoreKeepsConsistent(db.categories, id, r.reply.value);
    }
  }

  /** `getCategoryBySlug`: the slug parameter passes through the slug
      setters before the lookup. */
  function GetCategoryBySlug(db: Db, slug: Option<string>): (r: Reply<Category>)
    ensures r == Fail(400, SlugRequiredMessage) <==> !TruthyText(slug)
    ensures r == Fail(404, NotFoundMessage) <==>
      TruthyText(slug) && forall id :: id in db.categories ==> db.categories[id].slug != SlugSetter(slug.value)
    ensures r.Ok? ==>
      && r.code == 200
      && r.value.slug == SlugSetter(slug.value)
      && exists id :: id in db.categories && db.categories[id] == r.value
  {
    if !TruthyText(slug) then Fail(400, SlugRequiredMessage)
    else match FindKey(db.categories, (c: Category) => c.slug == SlugSetter(slug.value))
      case None => Fail(404, NotFoundMessage)
      case Some(id) => Ok(200, db.categories[id])
  }

  /** Looking a category up by its own non-empty slug finds exactly that
      category. */
  lemma SlugLookupFindsCategory(db: Db, id: Id)
    requires CategoriesConsistent(db.categories)
    requires id in db.categories && db.categories[id].slug != ""
    ensures GetCategoryBySlug(db, Some(db.categories[id].slug)) == Ok(200, db.categories[id])
  {
    SlugFormFixed(db.categories[id].slug);
  }

  /** `deleteCategory`: removes exactly that category and answers with it.
      Products that name it are left as they are. */
  function DeleteCategory(db: Db, id: Id): (r: Step<Category>)
    ensures r.reply.Ok? <==> id in db.categories
    ensures r.reply.Ok? ==>
      && r.reply == Ok(200, db.categories[id])
      && r.db == db.(categories := db.categories - {id})
    ensures r.reply.Fail? ==> r.reply == Fail(404, NotFoundMessage) && r.db == db
  {
    if id in db.categories then Done(200, db.categories[id], db.(categories := db.categories - {id}))
    else Refuse(404, NotFoundMessage, db)
  }

  /** Deleting keeps the category invariants and frees the name: a create
      under the deleted category's name is no longer refused as a
      duplicate. */
  lemma DeleteFreesName(db: Db, id: Id, newId: Id, slugify: string -> string)
    requires CategoriesConsistent(db.categories)
    requires id in db.categories && newId !in db.categories
    ensures
      var d := DeleteCategory(db, id);
      && CategoriesConsistent(d.db.categories)
      && CreateCategory(d.db, Some(db.categories[id].name), None, newId, slugify).reply
         != Fail(409, AlreadyExistsMessage)
  {
    var d := DeleteCategory(db, id);
    var n := db.categories[id].name;
    TrimFixed(n);
    assert forall k :: k in d.db.categories ==> d.db.categories[k].name != n;
  }

  /** `getAllCategories`: every category, in the collection's order, which
      the model does not fix; none at all is answered with 404. */
  function GetAllCategories(db: Db): (r: Reply<set<Id>>)
    ensures r.Fail? <==> |db.categories| == 0
    ensures r.Fail? ==> r == Fail(404, NoCategoriesMessage)
    ensures r.Ok? ==> r.code == 200 && r.value == db.categories.Keys && |r.value| == |db.categories|
  {
    if |db.categories| == 0 then Fail(404, NoCategoriesMessage) else Ok(200, db.categories.Keys)
  }
}
