/** src/hooks/useCategories.ts: the category list, initialised from the store
    (or the defaults) and written back to the store after every change. */
module UseCategories {

  import opened Wrappers
  import opened TaskTypes
  import opened Seqs
  import opened TaskStorage

  const CategoriesStorageKey: string := "task-manager-categories"

  /** The `useState` initialiser: the stored list when present and parseable, else the defaults. */
  function InitialCategories(items: map<string, Stored>): (cs: seq<Category>)
    ensures CategoriesStorageKey in items && items[CategoriesStorageKey].CategoryList? ==> cs == items[CategoriesStorageKey].cs
    ensures !(CategoriesStorageKey in items && items[CategoriesStorageKey].CategoryList?) ==> cs == DefaultCategories
  {
    match Get<string, Stored>(items, CategoriesStorageKey)
    case Some(CategoryList(cs)) => cs
    case _ => DefaultCategories
  }

  /** `{ ...cat, ...updates }`: each field present in the update wins. */
  function Merge(c: Category, u: CategoryUpdate): (r: Category)
    ensures r.id == (if u.id.Some? then u.id.value else c.id)
    ensures r.name == (if u.name.Some? then u.name.value else c.name)
    ensures r.color == (if u.color.Some? then u.color.value else c.color)
  {
    Category(
      match u.id case Some(v) => v case None => c.id,
      match u.name case Some(v) => v case None => c.name,
      match u.color case Some(v) => v case None => c.color)
  }

  /** The spread laws: an empty update changes nothing, merging the same update
      twice is merging it once, and a later update overrides an earlier one in
      every field it sets. */
  lemma MergeLaws(c: Category, u: CategoryUpdate, v: CategoryUpdate)
    ensures Merge(c, CategoryUpdate(None, None, None)) == c
    ensures Merge(Merge(c, u), u) == Merge(c, u)
    ensures v.id.Some? && v.name.Some? && v.color.Some? ==> Merge(Merge(c, u), v) == Merge(c, v)
  {
  }

  /** `prev.map(cat => cat.id === id ? { ...cat, ...updates } : cat)` */
  function UpdateCategories(cs: seq<Category>, id: string, u: CategoryUpdate): (r: seq<Category>)
    ensures |r| == |cs|
    ensures forall k :: 0 <= k < |cs| ==> r[k] == if cs[k].id == id then Merge(cs[k], u) else cs[k]
  {
    if cs == [] then []
    else [if cs[0].id == id then Merge(cs[0], u) else cs[0]] + UpdateCategories(cs[1..], id, u)
  }

  function IdIsNot(id: string): Category -> bool {
    (c: Category) => c.id != id
  }

  /** `prev.filter(cat => cat.id !== id)` */
  function DeleteCategories(cs: seq<Category>, id: string): (r: seq<Category>)
    ensures forall k :: 0 <= k < |r| ==> r[k].id != id
    ensures forall c :: c in cs && c.id != id ==> c in r
  {
    Filter(cs, IdIsNot(id))
  }

  predicate HasCategory(cs: seq<Category>, id: string) {
    exists k :: 0 <= k < |cs| && cs[k].id == id
  }

  /** Updating or deleting an id that no category has changes nothing. */
  lemma AbsentIdUnchanged(cs: seq<Category>, id: string, u: CategoryUpdate)
    requires !HasCategory(cs, id)
    ensures UpdateCategories(cs, id, u) == cs
    ensures DeleteCategories(cs, id) == cs
  {
    FilterAllPass(cs, IdIsNot(id));
  }

  /** A rename keeps the ids and colours of every category and the names of all other categories. */
  lemma RenameKeepsShape(cs: seq<Category>, id: string, name: string)
    ensures var r := UpdateCategories(cs, id, CategoryUpdate(None, Some(name), None));
      forall k :: 0 <= k < |cs| ==>
        r[k].id == cs[k].id && r[k].color == cs[k].color && r[k].name == (if cs[k].id == id then name else cs[k].name)
  {
  }

  /** Deleting keeps the other categories in order, each as often as before. */
  lemma DeleteKeepsOthers(cs: seq<Category>, id: string)
    ensures IsSubsequence(DeleteCategories(cs, id), cs)
    ensures forall c: Category :: c.id != id ==> multiset(DeleteCategories(cs, id))[c] == multiset(cs)[c]
  {
    FilterIsSubsequence(cs, IdIsNot(id));
    forall c: Category | c.id != id
      ensures multiset(DeleteCategories(cs, id))[c] == multiset(cs)[c]
    {
      FilterMultiplicity(cs, IdIsNot(id), c);
    }
  }

  /** A category list that is missing, or stored as text that does not parse as
      one, starts the hook with the five default categories. */
  lemma UnreadableCategoriesAreDefaults(items: map<string, Stored>, text: string)
    ensures InitialCategories(items[CategoriesStorageKey := Text(text)]) == DefaultCategories
    ensures InitialCategories(items - {CategoriesStorageKey}) == DefaultCategories
  {
  }

  /** What was persisted is what the next initialisation reads. */
  lemma PersistedIsReloaded(items: map<string, Stored>, cs: seq<Category>)
    ensures InitialCategories(items[CategoriesStorageKey := CategoryList(cs)]) == cs
  {
  }

  /** The state of one `useCategories()` instance. */
  class CategoriesState {
    var categories: seq<Category>
    const store: Store

    /** First render: initialise, then the persist effect runs once. */
    constructor (store: Store)
      modifies store
      ensures this.store == store
      ensures categories == InitialCategories(old(store.items))
      ensures store.acceptsWrites == old(store.acceptsWrites)
      ensures store.items == if store.acceptsWrites then old(store.items)[CategoriesStorageKey := CategoryList(categories)] else old(store.items)
    {
      this.store := store;
      categories := InitialCategories(store.items);
      new;
      Persist();
    }

    /** The effect that runs after every change of `categories`. */
    method Persist()
      modifies store
      ensures store.acceptsWrites == old(store.acceptsWrites)
      ensures store.items == if store.acceptsWrites then old(store.items)[CategoriesStorageKey := CategoryList(categories)] else old(store.items)
    {
      var _ := store.SetItem(CategoriesStorageKey, CategoryList(categories));
    }

    /** `addCategory(category)`: append. */
    method AddCategory(category: Category)
      modifies this, store
      ensures categories == old(categories) + [category]
      ensures store.acceptsWrites == old(store.acceptsWrites)
      ensures store.items == if store.acceptsWrites then old(store.items)[CategoriesStorageKey := CategoryList(categories)] else old(store.items)
    {
      categories := categories + [category];
      Persist();
    }

    /** `updateCategory(id, updates)`: merge into every category with that id. */
    method UpdateCategory(id: string, updates: CategoryUpdate)
      modifies this, store
      ensures categories == UpdateCategories(old(categories), id, updates)
      ensures store.acceptsWrites == old(store.acceptsWrites)
      ensures store.items == if store.acceptsWrites then old(store.items)[CategoriesStorageKey := CategoryList(categories)] else old(store.items)
    {
      categories := UpdateCategories(categories, id, updates);
      Persist();
    }

    /** `deleteCategory(id)`: drop every category with that id. */
    method DeleteCategory(id: string)
      modifies this, store
      ensures categories == DeleteCategories(old(categories), id)
      ensures store.acceptsWrites == old(store.acceptsWrites)
      ensures store.items == if store.acceptsWrites then old(store.items)[CategoriesStorageKey := CategoryList(categories)] else old(store.items)
    {
      categories := DeleteCategories(categories, id);
      Persist();
    }
  }
}
