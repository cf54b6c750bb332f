/** Listing and adding categories (categories.py). Which categories a user
    may see is the parameter `canSee`: can_user_see_category is not defined
    in utils.py, so no rule of its own is assumed. */
module Categories {
  import opened Common
  import opened Tables
  import opened Models
  import opened Utils

  /** The response row (`CategorySchema`). */
  datatype CategorySchema = CategorySchema(id: int, name: string, desc: string)

  function VisibleTo(user: User, canSee: (User, Category) -> bool): Category -> bool
  {
    (c: Category) => canSee(user, c)
  }

  /** get_categories: the categories the user may see, in stored order. */
  function GetCategories(categories: seq<Category>, user: User, canSee: (User, Category) -> bool): (r: seq<Category>)
    ensures |r| <= |categories|
    ensures forall i :: 0 <= i < |r| ==> r[i] in categories && canSee(user, r[i])
    ensures forall i :: 0 <= i < |categories| && canSee(user, categories[i]) ==> categories[i] in r
  {
    Filter(categories, VisibleTo(user, canSee))
  }

  /** The listing keeps stored order: listing two runs of rows one after the
      other is listing each run. */
  lemma GetCategoriesKeepsOrder(a: seq<Category>, b: seq<Category>, user: User, canSee: (User, Category) -> bool)
    ensures GetCategories(a + b, user, canSee) == GetCategories(a, user, canSee) + GetCategories(b, user, canSee)
  {
    FilterAppend(a, b, VisibleTo(user, canSee));
  }

  /** A user who may see every category gets all of them, in stored order. */
  lemma GetCategoriesAllVisible(categories: seq<Category>, user: User, canSee: (User, Category) -> bool)
    requires forall i :: 0 <= i < |categories| ==> canSee(user, categories[i])
    ensures GetCategories(categories, user, canSee) == categories
  {
    FilterAll(categories, VisibleTo(user, canSee));
  }

  /** The row add_category builds: visible and unlocked, which are also the
      column defaults. */
  function NewCategory(id: int, name: string, desc: string): (c: Category)
    ensures Truthy(c.visibility) && c.locked == Some(false)
    ensures c.id == id && c.name == name && c.description == desc
    ensures c == DefaultCategory(id, name, desc)
  {
    Category(id, name, desc, Some(true), Some(false))
  }

  function DuplicateName(name: string): string
  {
    "Category with name " + name + " already exists."
  }

  /** No two categories share a name. The database does not enforce this;
      add_category does. */
  ghost predicate NamesDistinct(categories: seq<Category>)
  {
    forall i, j :: 0 <= i < j < |categories| ==> categories[i].name != categories[j].name
  }

  /** The categories table `add_category` inserts into. */
  class CategoryTable {
    var rows: seq<Category>
    /** The next value of the `id` autoincrement. */
    var nextId: int

    ghost predicate Valid()
      reads this
    {
      && (forall i :: 0 <= i < |rows| ==> rows[i].id < nextId)
      && (forall i, j :: 0 <= i < j < |rows| ==> rows[i].id != rows[j].id)
    }

    constructor ()
      ensures Valid() && rows == []
    {
      rows := [];
      nextId := 1;
    }

    /** add_category, behind its get_admin dependency: a non-admin gets 403,
        a taken name gets 400, and in both cases nothing is inserted;
        otherwise one visible, unlocked row is appended and the response
        echoes the form with the new row's id. Distinct names stay distinct. */
    method AddCategory(caller: User, name: string, desc: string) returns (r: Result<CategorySchema, ApiError>)
      requires Valid()
      modifies this
      ensures Valid()
      ensures !IsAdmin(caller) ==> r == Err(Forbidden(NotAnAdmin))
      ensures IsAdmin(caller) && (exists i :: 0 <= i < |old(rows)| && old(rows)[i].name == name)
        ==> r == Err(BadRequest(DuplicateName(name)))
      ensures r.Err? ==> rows == old(rows) && nextId == old(nextId)
      ensures r.Ok? <==> IsAdmin(caller) && forall i :: 0 <= i < |old(rows)| ==> old(rows)[i].name != name
      ensures r.Ok? ==>
        && rows == old(rows) + [NewCategory(old(nextId), name, desc)]
        && r.value == CategorySchema(old(nextId), name, desc)
      ensures NamesDistinct(old(rows)) ==> NamesDistinct(rows)
    {
      var gate := GetAdmin(caller);
      if gate.Err? {
        return Err(gate.error);
      }
      var nameCheck := CategoryByName(rows, name);
      if nameCheck.Some? {
        return Err(BadRequest(DuplicateName(name)));
      }
      var newCategory := NewCategory(nextId, name, desc);
      ghost var before := rows;
      rows := rows + [newCategory];
      nextId := nextId + 1;
      FindAppend(before, [newCategory], CategoryNamed(name));
      var entry := CategoryByName(rows, name);
      r := Ok(CategorySchema(entry.value.id, name, desc));
    }
  }
}
