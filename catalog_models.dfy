/**
 * The catalog's entities (Category, Product, Version) as the database stores
 * them, their field limits and defaults, the order in which versions are
 * returned, and what deleting a row does to the rows that refer to it.
 *
 * The database itself is a value of type Store: categories and products are
 * maps from primary key to row, the version table is a sequence of rows in
 * insertion order that carry their own primary key.
 */
module CatalogModels {
  import opened Common

  type CategoryId = nat
  type ProductId = nat
  type VersionId = nat
  type UserId = nat

  /** A calendar day; the clock is an input of every operation that saves. */
  type Date = nat

  /** max_length of every `name` CharField. */
  const MaxNameLength: nat := 150

  /** The range of the database column behind an IntegerField. */
  const IntegerFieldMin: int := -0x8000_0000
  const IntegerFieldMax: int := 0x7fff_ffff

  datatype Category = Category(name: string, description: Option<string>)

  datatype Product = Product(
    name: string,
    description: Option<string>,
    photo: Option<string>,
    category: Option<CategoryId>,  // on_delete=SET_NULL
    price: int,
    createdAt: Date,               // auto_now_add
    updatedAt: Option<Date>,       // auto_now
    owner: Option<UserId>,         // on_delete=SET_NULL
    isPublished: bool)

  datatype Version = Version(
    id: VersionId,
    versionNumber: nat,            // PositiveIntegerField: zero is allowed
    name: string,
    isCurrentVersion: bool,
    product: Option<ProductId>)    // on_delete=CASCADE, yet nullable

  datatype Store = Store(
    categories: map<CategoryId, Category>,
    products: map<ProductId, Product>,
    versions: seq<Version>,
    nextProductId: ProductId,
    nextVersionId: VersionId)

  // ---------------------------------------------------------------------
  // Field limits and defaults

  predicate ValidCategory(c: Category) {
    |c.name| <= MaxNameLength
  }

  predicate ValidProduct(p: Product) {
    |p.name| <= MaxNameLength && IntegerFieldMin <= p.price <= IntegerFieldMax
  }

  predicate ValidVersion(v: Version) {
    |v.name| <= MaxNameLength && v.versionNumber <= IntegerFieldMax
  }

  /** A product row as first inserted when only the required fields are given. */
  function NewProduct(name: string, price: int, today: Date): (p: Product)
    ensures !p.isPublished
    ensures p.owner == None && p.category == None
    ensures p.description == None && p.photo == None
    ensures p.createdAt == today && p.updatedAt == Some(today)
    ensures p.name == name && p.price == price
  {
    Product(name, None, None, None, price, today, Some(today), None, false)
  }

  /** A version row as inserted when the current-version flag is not given. */
  function NewVersion(id: VersionId, versionNumber: nat, name: string, product: Option<ProductId>): (v: Version)
    ensures !v.isCurrentVersion
    ensures v.id == id && v.versionNumber == versionNumber && v.name == name && v.product == product
  {
    Version(id, versionNumber, name, false, product)
  }

  /** Nothing in the schema restricts how many versions of one product are current. */
  lemma {:induction false} SeveralCurrentVersionsAllowed(pid: ProductId)
    ensures exists s :: Consistent(s) && |CurrentVersionsOf(s.versions, pid)| >= 2
  {
    var p := NewProduct("p", 0, 0);
    var a := Version(0, 1, "a", true, Some(pid));
    var b := Version(1, 2, "b", true, Some(pid));
    var s := Store(map[], map[pid := p], [a, b], pid + 1, 2);
    assert CurrentVersionsOf([b], pid) == [b];
    assert [a, b][1..] == [b];
    assert CurrentVersionsOf(s.versions, pid) == [a, b];
    assert Consistent(s);
  }

  // ---------------------------------------------------------------------
  // Referential consistency of a store

  predicate DistinctIds(vs: seq<Version>) {
    forall i, j | 0 <= i < j < |vs| :: vs[i].id != vs[j].id
  }

  predicate Consistent(s: Store) {
    && (forall c | c in s.categories :: ValidCategory(s.categories[c]))
    && (forall p | p in s.products ::
          && ValidProduct(s.products[p])
          && p < s.nextProductId
          && (s.products[p].category.Some? ==> s.products[p].category.value in s.categories))
    && (forall v | v in s.versions ::
          && ValidVersion(v)
          && v.id < s.nextVersionId
          && (v.product.Some? ==> v.product.value in s.products))
    && DistinctIds(s.versions)
  }

  /** Every product owner is one of the given user ids. */
  predicate OwnersAmong(s: Store, users: set<UserId>) {
    forall p | p in s.products :: s.products[p].owner.Some? ==> s.products[p].owner.value in users
  }

  // ---------------------------------------------------------------------
  // Selecting rows of the version table

  /** The row filters the catalog uses on the version table. */
  datatype Selector =
    | CurrentOf(product: ProductId)      // product_id = p AND is_current_version
    | NotOfProduct(product: ProductId)   // rows that survive deleting product p
    | NotWithId(id: VersionId)           // rows that survive deleting version id

  predicate Selects(sel: Selector, v: Version) {
    match sel
    case CurrentOf(p) => v.product == Some(p) && v.isCurrentVersion
    case NotOfProduct(p) => v.product != Some(p)
    case NotWithId(id) => v.id != id
  }

  /** The rows of `vs` that `sel` selects, in table order. */
  function Select(vs: seq<Version>, sel: Selector): (r: seq<Version>)
    ensures forall v :: v in r <==> v in vs && Selects(sel, v)
    ensures |r| <= |vs|
    ensures DistinctIds(vs) ==> DistinctIds(r)
    decreases |vs|
  {
    if vs == [] then []
    else
      var rest := Select(vs[1..], sel);
      assert DistinctIds(vs) ==> forall v | v in rest :: v.id != vs[0].id by {
        if DistinctIds(vs) {
          forall v | v in rest ensures v.id != vs[0].id {
            var j :| 0 <= j < |vs[1..]| && vs[1..][j] == v;
            assert vs[j + 1] == v;
          }
        }
      }
      if Selects(sel, vs[0]) then [vs[0]] + rest else rest
  }

  function CurrentVersionsOf(vs: seq<Version>, pid: ProductId): seq<Version> {
    Select(vs, CurrentOf(pid))
  }

  // ---------------------------------------------------------------------
  // Meta.ordering = ("version_number",); equal numbers fall back to the
  // primary key, which is the order the table returns them in.

  predicate VersionBefore(a: Version, b: Version) {
    a.versionNumber < b.versionNumber || (a.versionNumber == b.versionNumber && a.id < b.id)
  }

  /** The version order is a strict total order on rows with distinct ids. */
  lemma VersionOrderIsStrictTotal(a: Version, b: Version, c: Version)
    ensures !VersionBefore(a, a)
    ensures VersionBefore(a, b) ==> !VersionBefore(b, a)
    ensures VersionBefore(a, b) && VersionBefore(b, c) ==> VersionBefore(a, c)
    ensures a.id != b.id ==> VersionBefore(a, b) || VersionBefore(b, a)
  {
  }

  predicate OrderedByNumber(vs: seq<Version>) {
    forall i, j | 0 <= i < j < |vs| :: VersionBefore(vs[i], vs[j])
  }

  /** The row a query's `.last()` returns: nothing in `vs` comes after it. */
  function Latest(vs: seq<Version>): (r: Version)
    requires vs != []
    ensures r in vs
    ensures forall v | v in vs :: !VersionBefore(r, v)
    decreases |vs|
  {
    if |vs| == 1 then vs[0]
    else
      var r := Latest(vs[1..]);
      assert forall v | v in vs :: v == vs[0] || v in vs[1..];
      if VersionBefore(vs[0], r) then r else vs[0]
  }

  /**
   * Ordering the selected rows by version number and taking the last one gives
   * Latest, whatever order the rows were selected in.
   */
  lemma {:induction false} LastOfOrderedIsLatest(ordered: seq<Version>, vs: seq<Version>)
    requires vs != []
    requires OrderedByNumber(ordered)
    requires multiset(ordered) == multiset(vs)
    ensures ordered != [] && ordered[|ordered| - 1] == Latest(vs)
  {
    var last := Latest(vs);
    assert last in multiset(ordered);
    var k :| 0 <= k < |ordered| && ordered[k] == last;
    var n := |ordered| - 1;
    assert ordered[n] in multiset(vs);
    assert !VersionBefore(ordered[k], ordered[n]);
    assert k == n;
  }

  // ---------------------------------------------------------------------
  // on_delete rules

  function ClearCategory(p: Product, cid: CategoryId): Product {
    if p.category == Some(cid) then p.(category := None) else p
  }

  function ClearOwner(p: Product, uid: UserId): Product {
    if p.owner == Some(uid) then p.(owner := None) else p
  }

  /** Deleting a category: its products survive with their category set to null. */
  function DeleteCategory(s: Store, cid: CategoryId): (r: Store)
    ensures cid !in r.categories && r.categories == s.categories - {cid}
    ensures r.products.Keys == s.products.Keys
    ensures forall p | p in r.products ::
              r.products[p].category == (if s.products[p].category == Some(cid) then None else s.products[p].category)
    ensures forall p | p in r.products :: r.products[p] == s.products[p].(category := r.products[p].category)
    ensures forall p | p in r.products && s.products[p].category != Some(cid) :: r.products[p] == s.products[p]
    ensures r.versions == s.versions
  {
    s.(categories := s.categories - {cid},
       products := map p | p in s.products :: ClearCategory(s.products[p], cid))
  }

  /** Deleting a user: their products survive with the owner set to null. */
  function DeleteOwner(s: Store, uid: UserId): (r: Store)
    ensures r.products.Keys == s.products.Keys
    ensures forall p | p in r.products ::
              r.products[p].owner == (if s.products[p].owner == Some(uid) then None else s.products[p].owner)
    ensures forall p | p in r.products :: r.products[p] == s.products[p].(owner := r.products[p].owner)
    ensures forall p | p in r.products && s.products[p].owner != Some(uid) :: r.products[p] == s.products[p]
    ensures r.categories == s.categories && r.versions == s.versions
  {
    s.(products := map p | p in s.products :: ClearOwner(s.products[p], uid))
  }

  /** Deleting a product deletes every version that refers to it, and no other row. */
  function DeleteProduct(s: Store, pid: ProductId): (r: Store)
    ensures pid !in r.products && r.products == s.products - {pid}
    ensures forall v :: v in r.versions <==> v in s.versions && v.product != Some(pid)
    ensures r.categories == s.categories
  {
    s.(products := s.products - {pid}, versions := Select(s.versions, NotOfProduct(pid)))
  }

  lemma DeleteCategoryKeepsConsistency(s: Store, cid: CategoryId)
    requires Consistent(s)
    ensures Consistent(DeleteCategory(s, cid))
  {
    var r := DeleteCategory(s, cid);
    forall v | v in r.versions
      ensures v.product.Some? ==> v.product.value in r.products
    {
      assert v in s.versions;
    }
  }

  lemma DeleteOwnerKeepsConsistency(s: Store, uid: UserId, users: set<UserId>)
    requires Consistent(s) && OwnersAmong(s, users)
    ensures Consistent(DeleteOwner(s, uid))
    ensures OwnersAmong(DeleteOwner(s, uid), users - {uid})
  {
    var r := DeleteOwner(s, uid);
    forall v | v in r.versions
      ensures v.product.Some? ==> v.product.value in r.products
    {
      assert v in s.versions;
    }
  }

  lemma DeleteProductKeepsConsistency(s: Store, pid: ProductId)
    requires Consistent(s)
    ensures Consistent(DeleteProduct(s, pid))
  {
  }
}
