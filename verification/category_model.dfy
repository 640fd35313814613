/** The Category schema (model/category.js): a unique, trimmed name of 2 to
    50 characters and a unique, lower-case slug that a pre-save hook derives
    from the name. The schema has no description path, so a description in
    a request is dropped by strict mode. */
module CategoryModel {
  import opened Base
  import opened Text

  datatype Category = Category(name: string, slug: string)

  /** The path validators of the name (`required`, `minlength`, `maxlength`). */
  predicate ValidCategory(c: Category) {
    2 <= |c.name| <= 50
  }

  /** The unique index on name. */
  predicate NamesUnique(cats: map<Id, Category>) {
    forall a, b :: a in cats && b in cats && cats[a].name == cats[b].name ==> a == b
  }

  /** The unique index on slug. */
  predicate SlugsUnique(cats: map<Id, Category>) {
    forall a, b :: a in cats && b in cats && cats[a].slug == cats[b].slug ==> a == b
  }

  /** The setters of the slug path (`lowercase`, then `trim`), also applied
      to a slug used as a query filter. */
  function SlugSetter(s: string): string {
    Trim(Lower(s))
  }

  /** The pre-save hook: when the name was modified the slug becomes
      `slugify(name, {lower: true})`, passed through the slug setters;
      otherwise the document is saved as it is. `slugify` is a library
      function and stays a parameter. */
  function PreSave(c: Category, nameModified: bool, slugify: string -> string): (r: Category)
    ensures r.name == c.name
    ensures nameModified ==> r.slug == SlugSetter(slugify(c.name))
    ensures !nameModified ==> r == c
  {
    if nameModified then c.(slug := SlugSetter(slugify(c.name))) else c
  }

  /** `s` is already in the form the slug setters produce: lower case and
      trimmed. */
  predicate SlugForm(s: string) {
    Trimmed(s) && forall i :: 0 <= i < |s| ==> LowerChar(s[i]) == s[i]
  }

  /** Every slug the setters produce is in slug form, whatever `slugify`
      returned. */
  lemma {:induction false} SlugSetterForm(s: string)
    ensures SlugForm(SlugSetter(s))
  {
    var l := Lower(s);
    LowerIsLower(s);
    var r := Trim(l);
    var a :| CutAt(l, r, a);
    SliceStaysLower(l, r, a);
  }

  /** Every character of a lowered string is already lower case. */
  lemma LowerIsLower(s: string)
    ensures forall i :: 0 <= i < |Lower(s)| ==> LowerChar(Lower(s)[i]) == Lower(s)[i]
  {
    forall i | 0 <= i < |Lower(s)| ensures LowerChar(Lower(s)[i]) == Lower(s)[i] {
      LowerCharIdempotent(s[i]);
    }
  }

  /** A slice of an all-lower-case string is all lower case. */
  lemma SliceStaysLower(l: string, r: string, a: int)
    requires forall i :: 0 <= i < |l| ==> LowerChar(l[i]) == l[i]
    requires CutAt(l, r, a)
    ensures forall i :: 0 <= i < |r| ==> LowerChar(r[i]) == r[i]
  {
    forall i | 0 <= i < |r| ensures LowerChar(r[i]) == r[i] {
      assert r[i] == l[a + i];
    }
  }

  /** A slug in slug form passes through the setters unchanged, so looking a
      category up by its stored slug finds it. */
  lemma SlugFormFixed(s: string)
    requires SlugForm(s)
    ensures SlugSetter(s) == s
  {
    assert Lower(s) == s;
    TrimFixed(s);
  }

  /** Every stored slug is in slug form. */
  predicate SlugsNormal(cats: map<Id, Category>) {
    forall id :: id in cats ==> SlugForm(cats[id].slug)
  }
}
