/**
 * The catalog's views: who may edit a product and with which form, the
 * "current version" label the product list shows, and the two-stage save of
 * a product together with its version formset.
 *
 * The database is a CatalogModels.Store held by a Catalog object; a request's
 * method, the product form's and the formset's own validity, the requester's
 * permissions and the clock are inputs.
 */
module CatalogViews {
  import opened Common
  import opened CatalogModels

  // ---------------------------------------------------------------------
  // Which form an edit request gets

  const CanCancelPublication: string := "catalog.can_cancel_publication"
  const CanChangeDescription: string := "catalog.can_change_description"
  const CanChangeCategory: string := "catalog.can_change_category"

  const ModeratorPermissions: set<string> := {CanCancelPublication, CanChangeDescription, CanChangeCategory}

  /** ProductForm edits every field; ProductModeratorForm edits publication, description and category. */
  datatype EditForm = FullForm | ModeratorForm

  datatype FormDecision = Allowed(form: EditForm) | PermissionDenied

  /** The form class an edit request by `requester` on a product owned by `owner` is given. */
  function GetFormClass(requester: UserId, owner: Option<UserId>, perms: set<string>): (r: FormDecision)
    ensures r == Allowed(FullForm) <==> owner == Some(requester)
    ensures r == Allowed(ModeratorForm) <==>
              && owner != Some(requester)
              && CanCancelPublication in perms
              && CanChangeDescription in perms
              && CanChangeCategory in perms
    ensures r == PermissionDenied <==>
              owner != Some(requester) && exists p :: p in ModeratorPermissions && p !in perms
  {
    if owner == Some(requester) then Allowed(FullForm)
    else if ModeratorPermissions <= perms then Allowed(ModeratorForm)
    else PermissionDenied
  }

  /** The owner's decision does not depend on the permissions held. */
  lemma OwnerIgnoresPermissions(owner: UserId, perms: set<string>, perms': set<string>)
    ensures GetFormClass(owner, Some(owner), perms) == GetFormClass(owner, Some(owner), perms')
  {
  }

  /** Lacking any one of the three moderator permissions is enough to be refused. */
  lemma MissingPermissionDenies(requester: UserId, owner: Option<UserId>, perms: set<string>, missing: string)
    requires owner != Some(requester)
    requires missing in ModeratorPermissions && missing !in perms
    ensures GetFormClass(requester, owner, perms) == PermissionDenied
  {
  }

  /** Granting more permissions never turns an allowed edit into a refused one. */
  lemma MorePermissionsNeverDeny(requester: UserId, owner: Option<UserId>, perms: set<string>, more: set<string>)
    requires perms <= more
    ensures GetFormClass(requester, owner, perms).Allowed? ==> GetFormClass(requester, owner, more).Allowed?
  {
  }

  // ---------------------------------------------------------------------
  // The product list's "current version" label

  const NoActiveVersion: string := "Активная версия отсутствует"

  /** A product as listed, with the label the list view attaches (None until it does). */
  datatype ListedProduct = ListedProduct(id: ProductId, product: Product, versionLabel: Option<string>)

  predicate IsCurrentOf(v: Version, pid: ProductId) {
    Selects(CurrentOf(pid), v)
  }

  /** `Version.objects.filter(product_id=pid, is_current_version=True).last()`. */
  function ActiveVersion(vs: seq<Version>, pid: ProductId): (r: Option<Version>)
    ensures r.None? <==> forall v | v in vs :: !IsCurrentOf(v, pid)
    ensures r.Some? ==> r.value in vs && IsCurrentOf(r.value, pid)
    ensures r.Some? ==> forall v | v in vs && IsCurrentOf(v, pid) :: !VersionBefore(r.value, v)
  {
    var current := CurrentVersionsOf(vs, pid);
    if current == [] then None else Some(Latest(current))
  }

  /** The label of product `pid`: the name of its last current version, or the placeholder. */
  function CurrentVersionLabel(vs: seq<Version>, pid: ProductId): (text: string)
    ensures text == NoActiveVersion || exists v :: v in vs && text == v.name
  {
    match ActiveVersion(vs, pid)
    case Some(v) => v.name
    case None => NoActiveVersion
  }

  /**
   * What the label means: the placeholder when the product has no current
   * version, otherwise the name of a current version nothing comes after.
   */
  lemma CurrentVersionLabelMeaning(vs: seq<Version>, pid: ProductId)
    ensures (forall v | v in vs :: !IsCurrentOf(v, pid)) ==> CurrentVersionLabel(vs, pid) == NoActiveVersion
    ensures (exists v :: v in vs && IsCurrentOf(v, pid)) ==>
              exists v :: v in vs && IsCurrentOf(v, pid) && CurrentVersionLabel(vs, pid) == v.name &&
                forall w | w in vs && IsCurrentOf(w, pid) :: !VersionBefore(v, w)
  {
    match ActiveVersion(vs, pid)
    case Some(v) =>
      assert v in vs && IsCurrentOf(v, pid) && CurrentVersionLabel(vs, pid) == v.name;
    case None =>
  }

  /** In a table whose ids are distinct, the last current version of a product is unique. */
  lemma {:induction false} LastCurrentVersionIsUnique(vs: seq<Version>, pid: ProductId, a: Version, b: Version)
    requires DistinctIds(vs)
    requires a in vs && IsCurrentOf(a, pid) && b in vs && IsCurrentOf(b, pid)
    requires forall w | w in vs && IsCurrentOf(w, pid) :: !VersionBefore(a, w)
    requires forall w | w in vs && IsCurrentOf(w, pid) :: !VersionBefore(b, w)
    ensures a == b
  {
    var i :| 0 <= i < |vs| && vs[i] == a;
    var j :| 0 <= j < |vs| && vs[j] == b;
    assert a.id == b.id;
  }

  /** A listed product with its label written. */
  function Labelled(p: ListedProduct, vs: seq<Version>): ListedProduct {
    p.(versionLabel := Some(CurrentVersionLabel(vs, p.id)))
  }

  /** The body of the listing loop for one product: query its current versions, pick the label. */
  method LabelFor(versions: seq<Version>, pid: ProductId) returns (text: string)
    ensures text == CurrentVersionLabel(versions, pid)
  {
    var active := ActiveVersion(versions, pid);
    if active.Some? {
      text := active.value.name;
    } else {
      text := NoActiveVersion;
    }
  }

  /**
   * ProductListView.get_context_data: writes the label onto every listed
   * product in place; nothing else in the list changes.
   */
  method AssembleListing(listing: array<ListedProduct>, versions: seq<Version>)
    modifies listing
    ensures forall i | 0 <= i < listing.Length :: listing[i] == Labelled(old(listing[i]), versions)
  {
    for i := 0 to listing.Length
      invariant forall k | 0 <= k < i :: listing[k] == Labelled(old(listing[k]), versions)
      invariant forall k | i <= k < listing.Length :: listing[k] == old(listing[k])
    {
      var product := listing[i];
      var text := LabelFor(versions, product.id);
      listing[i] := product.(versionLabel := Some(text));
    }
  }

  // ---------------------------------------------------------------------
  // Forms

  /** What a submitted product form holds. */
  datatype ProductFields = ProductFields(
    name: string,
    description: Option<string>,
    photo: Option<string>,
    category: Option<CategoryId>,
    price: int,
    isPublished: bool)

  /** The field checks of the chosen product form, on top of its other checks `formOk`. */
  predicate ProductFormValid(s: Store, form: EditForm, e: ProductFields, formOk: bool) {
    && formOk
    && (form == FullForm ==> |e.name| <= MaxNameLength && IntegerFieldMin <= e.price <= IntegerFieldMax)
    && (e.category.Some? ==> e.category.value in s.categories)
  }

  /** The row `form.save()` inserts for a new product. */
  function ProductFromForm(e: ProductFields, today: Date): Product {
    Product(e.name, e.description, e.photo, e.category, e.price, today, Some(today), None, e.isPublished)
  }

  /** The fields of `p` that the chosen form overwrites. */
  function ApplyEdit(p: Product, form: EditForm, e: ProductFields): (r: Product)
    ensures r.owner == p.owner && r.createdAt == p.createdAt && r.updatedAt == p.updatedAt
    ensures r.description == e.description && r.category == e.category && r.isPublished == e.isPublished
    ensures form == FullForm ==> r.name == e.name && r.photo == e.photo && r.price == e.price
    ensures form == ModeratorForm ==> r.name == p.name && r.photo == p.photo && r.price == p.price
  {
    match form
    case FullForm =>
      p.(name := e.name, description := e.description, photo := e.photo,
         category := e.category, price := e.price, isPublished := e.isPublished)
    case ModeratorForm =>
      p.(description := e.description, category := e.category, isPublished := e.isPublished)
  }

  /** One filled row of the version formset. */
  datatype VersionDraft = VersionDraft(versionNumber: nat, name: string, isCurrentVersion: bool)

  datatype VersionRow =
    | AddRow(draft: VersionDraft)
    | ChangeRow(id: VersionId, draft: VersionDraft)
    | RemoveRow(id: VersionId)

  predicate DraftValid(d: VersionDraft) {
    |d.name| <= MaxNameLength && d.versionNumber <= IntegerFieldMax
  }

  predicate RowFieldsValid(row: VersionRow) {
    match row
    case AddRow(d) => DraftValid(d)
    case ChangeRow(_, d) => DraftValid(d)
    case RemoveRow(_) => true
  }

  /** An existing row of the formset must be one of the versions of its instance. */
  predicate BelongsTo(vs: seq<Version>, id: VersionId, instance: Option<ProductId>) {
    instance.Some? && exists v | v in vs :: v.id == id && v.product == instance
  }

  predicate RowValid(s: Store, instance: Option<ProductId>, row: VersionRow) {
    RowFieldsValid(row) && (row.AddRow? || BelongsTo(s.versions, row.id, instance))
  }

  /** `formset.is_valid()`: its own checks `formsetOk` and every row's. */
  predicate FormsetValid(s: Store, instance: Option<ProductId>, rows: seq<VersionRow>, formsetOk: bool) {
    formsetOk && forall i | 0 <= i < |rows| :: RowValid(s, instance, rows[i])
  }

  /** A version with the fields of a formset row written over it. */
  function WithDraft(v: Version, d: VersionDraft): (r: Version)
    ensures r.id == v.id && r.product == v.product
    ensures r.versionNumber == d.versionNumber && r.name == d.name && r.isCurrentVersion == d.isCurrentVersion
  {
    v.(versionNumber := d.versionNumber, name := d.name, isCurrentVersion := d.isCurrentVersion)
  }

  function Replace(vs: seq<Version>, id: VersionId, d: VersionDraft): (r: seq<Version>)
    ensures |r| == |vs|
    ensures forall k | 0 <= k < |vs| :: r[k].id == vs[k].id && r[k].product == vs[k].product
  {
    seq(|vs|, i requires 0 <= i < |vs| => if vs[i].id == id then WithDraft(vs[i], d) else vs[i])
  }

  /** Saving one formset row, its foreign key set to `instance`. */
  function SaveRow(s: Store, row: VersionRow, instance: Option<ProductId>): Store {
    match row
    case AddRow(d) =>
      s.(versions := s.versions + [Version(s.nextVersionId, d.versionNumber, d.name, d.isCurrentVersion, instance)],
         nextVersionId := s.nextVersionId + 1)
    case ChangeRow(id, d) => s.(versions := Replace(s.versions, id, d))
    case RemoveRow(id) => s.(versions := Select(s.versions, NotWithId(id)))
  }

  /** `formset.save()`: only the version table and its id counter change. */
  function SaveFormset(s: Store, rows: seq<VersionRow>, instance: Option<ProductId>): (r: Store)
    ensures r.categories == s.categories && r.products == s.products
    ensures r.nextProductId == s.nextProductId
    ensures r.nextVersionId >= s.nextVersionId
    decreases |rows|
  {
    if rows == [] then s else SaveFormset(SaveRow(s, rows[0], instance), rows[1..], instance)
  }

  predicate OnlyAdditions(rows: seq<VersionRow>) {
    forall i | 0 <= i < |rows| :: rows[i].AddRow?
  }

  /** The rows a formset of new versions appends, numbered from `next`. */
  function Appended(rows: seq<VersionRow>, next: VersionId, instance: Option<ProductId>): (r: seq<Version>)
    requires OnlyAdditions(rows)
    ensures |r| == |rows|
  {
    seq(|rows|, i requires 0 <= i < |rows| =>
      Version(next + i, rows[i].draft.versionNumber, rows[i].draft.name, rows[i].draft.isCurrentVersion, instance))
  }

  /** A formset of new rows appends them, in order, with fresh consecutive ids. */
  lemma {:induction false} SaveAdditions(s: Store, rows: seq<VersionRow>, instance: Option<ProductId>)
    requires OnlyAdditions(rows)
    ensures SaveFormset(s, rows, instance).versions == s.versions + Appended(rows, s.nextVersionId, instance)
    ensures SaveFormset(s, rows, instance).nextVersionId == s.nextVersionId + |rows|
    decreases |rows|
  {
    if rows != [] {
      var s1 := SaveRow(s, rows[0], instance);
      SaveAdditions(s1, rows[1..], instance);
      var all := Appended(rows, s.nextVersionId, instance);
      assert all == [all[0]] + Appended(rows[1..], s1.nextVersionId, instance);
    }
  }

  // What a whole formset does to the version table, stated version by version

  /**
   * What the changed and removed rows, taken in order, leave of version `v`:
   * nothing once a row removes it, otherwise the version with every change
   * naming it written over it.
   */
  function EditOne(v: Version, rows: seq<VersionRow>): (r: seq<Version>)
    ensures |r| <= 1
    decreases |rows|
  {
    if rows == [] then [v]
    else match rows[0]
      case AddRow(_) => EditOne(v, rows[1..])
      case ChangeRow(id, d) => EditOne(if id == v.id then WithDraft(v, d) else v, rows[1..])
      case RemoveRow(id) => if id == v.id then [] else EditOne(v, rows[1..])
  }

  /** The existing versions after a formset, each one's fate taken on its own, in table order. */
  function Edited(vs: seq<Version>, rows: seq<VersionRow>): (r: seq<Version>)
    ensures |r| <= |vs|
    decreases |vs|
  {
    if vs == [] then [] else EditOne(vs[0], rows) + Edited(vs[1..], rows)
  }

  /** The versions a formset's added rows insert, in row order, numbered from `next`. */
  function Added(rows: seq<VersionRow>, next: VersionId, instance: Option<ProductId>): (r: seq<Version>)
    ensures forall v | v in r :: v.id >= next && v.product == instance
    decreases |rows|
  {
    if rows == [] then []
    else match rows[0]
      case AddRow(d) =>
        [Version(next, d.versionNumber, d.name, d.isCurrentVersion, instance)] + Added(rows[1..], next + 1, instance)
      case _ => Added(rows[1..], next, instance)
  }

  /** A version no changed or removed row names comes through unchanged. */
  lemma {:induction false} EditOneUnnamed(v: Version, rows: seq<VersionRow>)
    requires forall i | 0 <= i < |rows| :: rows[i].AddRow? || rows[i].id != v.id
    ensures EditOne(v, rows) == [v]
    decreases |rows|
  {
    if rows != [] {
      assert !rows[0].AddRow? ==> rows[0].id != v.id;
      assert forall i | 0 <= i < |rows[1..]| :: rows[1..][i] == rows[i + 1];
      EditOneUnnamed(v, rows[1..]);
    }
  }

  /** A version that some row removes is gone, whatever the other rows do. */
  lemma {:induction false} EditOneRemoved(v: Version, rows: seq<VersionRow>, i: nat)
    requires i < |rows| && rows[i] == RemoveRow(v.id)
    ensures EditOne(v, rows) == []
    decreases |rows|
  {
    if i > 0 {
      assert rows[1..][i - 1] == rows[i];
      match rows[0]
      case AddRow(_) => EditOneRemoved(v, rows[1..], i - 1);
      case ChangeRow(id, d) =>
        EditOneRemoved(if id == v.id then WithDraft(v, d) else v, rows[1..], i - 1);
      case RemoveRow(id) =>
        if id != v.id {
          EditOneRemoved(v, rows[1..], i - 1);
        }
    }
  }

  /** A version named by exactly one row, a change, carries that row's fields. */
  lemma {:induction false} EditOneChanged(v: Version, rows: seq<VersionRow>, i: nat, d: VersionDraft)
    requires i < |rows| && rows[i] == ChangeRow(v.id, d)
    requires forall j | 0 <= j < |rows| && j != i :: rows[j].AddRow? || rows[j].id != v.id
    ensures EditOne(v, rows) == [WithDraft(v, d)]
    decreases |rows|
  {
    assert forall j | 0 <= j < |rows[1..]| :: rows[1..][j] == rows[j + 1];
    if i == 0 {
      EditOneUnnamed(WithDraft(v, d), rows[1..]);
    } else {
      assert rows[0].AddRow? || rows[0].id != v.id;
      assert rows[1..][i - 1] == rows[i];
      EditOneChanged(v, rows[1..], i - 1, d);
    }
  }

  lemma {:induction false} EditedNoRows(vs: seq<Version>)
    ensures Edited(vs, []) == vs
    decreases |vs|
  {
    if vs != [] {
      EditedNoRows(vs[1..]);
    }
  }

  lemma {:induction false} EditedSkipsAddRow(vs: seq<Version>, rows: seq<VersionRow>)
    requires rows != [] && rows[0].AddRow?
    ensures Edited(vs, rows) == Edited(vs, rows[1..])
    decreases |vs|
  {
    if vs != [] {
      EditedSkipsAddRow(vs[1..], rows);
    }
  }

  lemma {:induction false} EditedChangeRow(vs: seq<Version>, rows: seq<VersionRow>)
    requires rows != [] && rows[0].ChangeRow?
    ensures Edited(vs, rows) == Edited(Replace(vs, rows[0].id, rows[0].draft), rows[1..])
    decreases |vs|
  {
    if vs != [] {
      var r := Replace(vs, rows[0].id, rows[0].draft);
      assert r[1..] == Replace(vs[1..], rows[0].id, rows[0].draft);
      EditedChangeRow(vs[1..], rows);
    }
  }

  lemma {:induction false} EditedRemoveRow(vs: seq<Version>, rows: seq<VersionRow>)
    requires rows != [] && rows[0].RemoveRow?
    ensures Edited(vs, rows) == Edited(Select(vs, NotWithId(rows[0].id)), rows[1..])
    decreases |vs|
  {
    if vs != [] {
      EditedRemoveRow(vs[1..], rows);
      var rest := Select(vs[1..], NotWithId(rows[0].id));
      if vs[0].id != rows[0].id {
        assert ([vs[0]] + rest)[1..] == rest;
      }
    }
  }

  lemma {:induction false} ReplaceSkipsOthers(a: seq<Version>, b: seq<Version>, id: VersionId, d: VersionDraft)
    requires forall v | v in b :: v.id != id
    ensures Replace(a + b, id, d) == Replace(a, id, d) + b
  {
    var r := Replace(a + b, id, d);
    forall k | |a| <= k < |a + b| ensures r[k] == b[k - |a|] {
      assert (a + b)[k] == b[k - |a|];
    }
  }

  lemma {:induction false} SelectKeepsOthers(a: seq<Version>, b: seq<Version>, id: VersionId)
    requires forall v | v in b :: v.id != id
    ensures Select(a + b, NotWithId(id)) == Select(a, NotWithId(id)) + b
    decreases |a|
  {
    if a == [] {
      assert a + b == b;
      SelectKeepsAll(b, NotWithId(id));
    } else {
      assert (a + b)[1..] == a[1..] + b;
      SelectKeepsOthers(a[1..], b, id);
    }
  }

  lemma {:induction false} SelectKeepsAll(vs: seq<Version>, sel: Selector)
    requires forall v | v in vs :: Selects(sel, v)
    ensures Select(vs, sel) == vs
    decreases |vs|
  {
    if vs != [] {
      SelectKeepsAll(vs[1..], sel);
    }
  }

  /** Every version id is below `bound`, and so is every id a changed or removed row names. */
  predicate IdsBelow(vs: seq<Version>, rows: seq<VersionRow>, bound: VersionId) {
    && (forall v | v in vs :: v.id < bound)
    && (forall i | 0 <= i < |rows| :: rows[i].AddRow? || rows[i].id < bound)
  }

  /** The existing part of the table after saving one row. */
  function ExistingAfter(existing: seq<Version>, row: VersionRow): seq<Version> {
    match row
    case AddRow(_) => existing
    case ChangeRow(id, d) => Replace(existing, id, d)
    case RemoveRow(id) => Select(existing, NotWithId(id))
  }

  /** The part of the table this formset has added, after saving one row. */
  function AddedAfter(added: seq<Version>, row: VersionRow, next: VersionId, instance: Option<ProductId>): seq<Version> {
    match row
    case AddRow(d) => added + [Version(next, d.versionNumber, d.name, d.isCurrentVersion, instance)]
    case _ => added
  }

  /** Saving one row keeps the table split into edited existing versions and added ones. */
  lemma {:induction false} SaveRowSplit(s: Store, existing: seq<Version>, added: seq<Version>,
                                       rows: seq<VersionRow>, instance: Option<ProductId>, bound: VersionId)
    requires rows != []
    requires s.versions == existing + added && s.nextVersionId >= bound
    requires IdsBelow(existing, rows, bound)
    requires forall v | v in added :: v.id >= bound
    ensures var s1 := SaveRow(s, rows[0], instance);
      var existing1 := ExistingAfter(existing, rows[0]);
      var added1 := AddedAfter(added, rows[0], s.nextVersionId, instance);
      && s1.versions == existing1 + added1 && s1.nextVersionId >= bound
      && IdsBelow(existing1, rows[1..], bound)
      && (forall v | v in added1 :: v.id >= bound)
      && Edited(existing, rows) + added + Added(rows, s.nextVersionId, instance) ==
           Edited(existing1, rows[1..]) + added1 + Added(rows[1..], s1.nextVersionId, instance)
      && s.nextVersionId + |Added(rows, s.nextVersionId, instance)| ==
           s1.nextVersionId + |Added(rows[1..], s1.nextVersionId, instance)|
  {
    assert forall i | 0 <= i < |rows[1..]| :: rows[1..][i] == rows[i + 1];
    match rows[0]
    case AddRow(d) =>
      EditedSkipsAddRow(existing, rows);
    case ChangeRow(id, d) =>
      assert id < bound;
      ReplaceSkipsOthers(existing, added, id, d);
      var existing1 := Replace(existing, id, d);
      forall v | v in existing1 ensures v.id < bound {
        var k :| 0 <= k < |existing1| && existing1[k] == v;
        assert existing[k] in existing;
      }
      EditedChangeRow(existing, rows);
    case RemoveRow(id) =>
      assert id < bound;
      SelectKeepsOthers(existing, added, id);
      EditedRemoveRow(existing, rows);
  }

  /**
   * Saving rows against a table made of the versions `existing` followed by
   * versions this formset already added (`added`, all with ids from `bound` on).
   */
  lemma {:induction false} SaveFormsetSplit(s: Store, existing: seq<Version>, added: seq<Version>,
                                           rows: seq<VersionRow>, instance: Option<ProductId>, bound: VersionId)
    requires s.versions == existing + added && s.nextVersionId >= bound
    requires IdsBelow(existing, rows, bound)
    requires forall v | v in added :: v.id >= bound
    ensures SaveFormset(s, rows, instance).versions ==
              Edited(existing, rows) + added + Added(rows, s.nextVersionId, instance)
    ensures SaveFormset(s, rows, instance).nextVersionId ==
              s.nextVersionId + |Added(rows, s.nextVersionId, instance)|
    decreases |rows|
  {
    if rows == [] {
      EditedNoRows(existing);
    } else {
      SaveRowSplit(s, existing, added, rows, instance, bound);
      SaveFormsetSplit(SaveRow(s, rows[0], instance), ExistingAfter(existing, rows[0]),
                       AddedAfter(added, rows[0], s.nextVersionId, instance), rows[1..], instance, bound);
    }
  }

  /**
   * `formset.save()` leaves each existing version to its own fate under the
   * changed and removed rows, keeps table order, and appends the added rows
   * with fresh consecutive ids.
   */
  lemma SaveFormsetMeaning(s: Store, rows: seq<VersionRow>, instance: Option<ProductId>)
    requires IdsBelow(s.versions, rows, s.nextVersionId)
    ensures SaveFormset(s, rows, instance).versions ==
              Edited(s.versions, rows) + Added(rows, s.nextVersionId, instance)
    ensures SaveFormset(s, rows, instance).nextVersionId ==
              s.nextVersionId + |Added(rows, s.nextVersionId, instance)|
  {
    assert s.versions == s.versions + [];
    SaveFormsetSplit(s, s.versions, [], rows, instance, s.nextVersionId);
  }

  predicate RowsFieldsValid(rows: seq<VersionRow>) {
    forall i | 0 <= i < |rows| :: RowFieldsValid(rows[i])
  }

  lemma SaveRowKeepsConsistency(s: Store, row: VersionRow, instance: Option<ProductId>)
    requires Consistent(s) && RowFieldsValid(row)
    requires instance.Some? ==> instance.value in s.products
    ensures Consistent(SaveRow(s, row, instance))
  {
    var r := SaveRow(s, row, instance);
    match row
    case AddRow(d) =>
      assert forall v | v in r.versions :: v in s.versions || v == r.versions[|s.versions|];
    case ChangeRow(id, d) =>
      forall v | v in r.versions
        ensures ValidVersion(v) && v.id < r.nextVersionId && (v.product.Some? ==> v.product.value in r.products)
      {
        var k :| 0 <= k < |r.versions| && r.versions[k] == v;
        assert s.versions[k] in s.versions;
      }
    case RemoveRow(id) =>
  }

  lemma {:induction false} SaveFormsetKeepsConsistency(s: Store, rows: seq<VersionRow>, instance: Option<ProductId>)
    requires Consistent(s) && RowsFieldsValid(rows)
    requires instance.Some? ==> instance.value in s.products
    ensures Consistent(SaveFormset(s, rows, instance))
    decreases |rows|
  {
    if rows != [] {
      SaveRowKeepsConsistency(s, rows[0], instance);
      var s1 := SaveRow(s, rows[0], instance);
      assert RowsFieldsValid(rows[1..]) by {
        forall i | 0 <= i < |rows[1..]| ensures RowFieldsValid(rows[1..][i]) {
          assert rows[1..][i] == rows[i + 1];
        }
      }
      SaveFormsetKeepsConsistency(s1, rows[1..], instance);
    }
  }

  /** Every changed or removed row of `rows` names only versions of `pid`. */
  predicate TargetsOnly(vs: seq<Version>, rows: seq<VersionRow>, pid: ProductId) {
    forall i, v | 0 <= i < |rows| && v in vs && !rows[i].AddRow? && v.id == rows[i].id :: v.product == Some(pid)
  }

  lemma SaveRowTouchesOnlyInstance(s: Store, rows: seq<VersionRow>, pid: ProductId)
    requires rows != [] && TargetsOnly(s.versions, rows, pid)
    ensures var r := SaveRow(s, rows[0], Some(pid));
      && TargetsOnly(r.versions, rows[1..], pid)
      && (forall v | v in s.versions && v.product != Some(pid) :: v in r.versions)
      && (forall v | v in r.versions && v.product != Some(pid) :: v in s.versions)
  {
    var r := SaveRow(s, rows[0], Some(pid));
    forall i, v | 0 <= i < |rows[1..]| && v in r.versions && !rows[1..][i].AddRow? && v.id == rows[1..][i].id
      ensures v.product == Some(pid)
    {
      assert rows[1..][i] == rows[i + 1];
      var k :| 0 <= k < |r.versions| && r.versions[k] == v;
      if k < |s.versions| {
        assert s.versions[k] in s.versions;
      }
    }
    match rows[0]
    case AddRow(d) =>
      assert forall v | v in r.versions :: v in s.versions || v == r.versions[|s.versions|];
    case ChangeRow(id, d) =>
      forall v | v in s.versions && v.product != Some(pid) ensures v in r.versions {
        var k :| 0 <= k < |s.versions| && s.versions[k] == v;
        assert r.versions[k] == v;
      }
      forall v | v in r.versions && v.product != Some(pid) ensures v in s.versions {
        var k :| 0 <= k < |r.versions| && r.versions[k] == v;
        assert s.versions[k] in s.versions;
      }
    case RemoveRow(id) =>
  }

  /** Saving an edited product's formset leaves the versions of every other product alone. */
  lemma {:induction false} SaveFormsetTouchesOnlyInstance(s: Store, rows: seq<VersionRow>, pid: ProductId)
    requires TargetsOnly(s.versions, rows, pid)
    ensures forall v | v in s.versions && v.product != Some(pid) :: v in SaveFormset(s, rows, Some(pid)).versions
    ensures forall v | v in SaveFormset(s, rows, Some(pid)).versions && v.product != Some(pid) :: v in s.versions
    decreases |rows|
  {
    if rows != [] {
      SaveRowTouchesOnlyInstance(s, rows, pid);
      SaveFormsetTouchesOnlyInstance(SaveRow(s, rows[0], Some(pid)), rows[1..], pid);
    }
  }

  /** A valid formset of product `pid` only names versions of `pid`. */
  lemma ValidFormsetTargetsOnly(s: Store, rows: seq<VersionRow>, pid: ProductId, formsetOk: bool)
    requires DistinctIds(s.versions)
    requires FormsetValid(s, Some(pid), rows, formsetOk)
    ensures TargetsOnly(s.versions, rows, pid)
  {
    forall i, v | 0 <= i < |rows| && v in s.versions && !rows[i].AddRow? && v.id == rows[i].id
      ensures v.product == Some(pid)
    {
      assert RowValid(s, Some(pid), rows[i]);
      var u :| u in s.versions && u.id == rows[i].id && u.product == Some(pid);
      var a :| 0 <= a < |s.versions| && s.versions[a] == u;
      var b :| 0 <= b < |s.versions| && s.versions[b] == v;
      assert a == b;
    }
  }

  // ---------------------------------------------------------------------
  // ProductCreateView.form_valid

  /** The product row after `form.save()` and the owner assignment with its `save()`. */
  function SaveOwnedProduct(s: Store, requester: UserId, fields: ProductFields, today: Date): (r: Store)
    ensures var pid := s.nextProductId;
      && r.products.Keys == s.products.Keys + {pid} && r.nextProductId == pid + 1
      && r.products[pid].owner == Some(requester)
      && r.products[pid].createdAt == today && r.products[pid].updatedAt == Some(today)
      && r.products[pid].name == fields.name && r.products[pid].description == fields.description
      && r.products[pid].photo == fields.photo && r.products[pid].category == fields.category
      && r.products[pid].price == fields.price && r.products[pid].isPublished == fields.isPublished
      && (forall p | p in s.products && p != pid :: r.products[p] == s.products[p])
    ensures r.categories == s.categories && r.versions == s.versions && r.nextVersionId == s.nextVersionId
  {
    var pid := s.nextProductId;
    s.(products := s.products[pid := ProductFromForm(fields, today).(owner := Some(requester))],
       nextProductId := pid + 1)
  }

  /**
   * The create flow as written: the formset is saved against `self.object`,
   * which is still None at that point, so the new versions get no product.
   */
  function CreatedAsWritten(s: Store, requester: UserId, fields: ProductFields,
                            rows: seq<VersionRow>, formsetOk: bool, today: Date): (r: Store)
    ensures r.categories == s.categories && r.nextProductId == s.nextProductId + 1
    ensures r.products == SaveOwnedProduct(s, requester, fields, today).products
    ensures !FormsetValid(s, None, rows, formsetOk) ==> r.versions == s.versions
  {
    var s2 := SaveOwnedProduct(s, requester, fields, today);
    assert FormsetValid(s2, None, rows, formsetOk) == FormsetValid(s, None, rows, formsetOk);
    if FormsetValid(s2, None, rows, formsetOk) then SaveFormset(s2, rows, None) else s2
  }

  /** The create flow with the formset saved against the product just created. */
  function Created(s: Store, requester: UserId, fields: ProductFields,
                   rows: seq<VersionRow>, formsetOk: bool, today: Date): (r: Store)
    ensures r.categories == s.categories && r.nextProductId == s.nextProductId + 1
    ensures r.products == SaveOwnedProduct(s, requester, fields, today).products
    ensures !FormsetValid(s, None, rows, formsetOk) ==> r.versions == s.versions
  {
    var s2 := SaveOwnedProduct(s, requester, fields, today);
    assert FormsetValid(s2, None, rows, formsetOk) == FormsetValid(s, None, rows, formsetOk);
    if FormsetValid(s2, None, rows, formsetOk) then SaveFormset(s2, rows, Some(s.nextProductId)) else s2
  }

  /** A valid formset of a product that does not exist yet holds new rows only. */
  lemma CreateFormsetOnlyAdds(s: Store, rows: seq<VersionRow>, formsetOk: bool)
    requires FormsetValid(s, None, rows, formsetOk)
    ensures OnlyAdditions(rows) && RowsFieldsValid(rows)
  {
    forall i | 0 <= i < |rows| ensures rows[i].AddRow? && RowFieldsValid(rows[i]) {
      assert RowValid(s, None, rows[i]);
    }
  }

  /**
   * Create always saves the product, owned by the requester; the versions are
   * saved, attached to it, exactly when the formset is valid.
   */
  lemma {:induction false} CreateSavesProductThenVersions(s: Store, requester: UserId, fields: ProductFields,
                                                         rows: seq<VersionRow>, formsetOk: bool, today: Date)
    requires Consistent(s)
    ensures var pid := s.nextProductId;
      var r := Created(s, requester, fields, rows, formsetOk, today);
      && pid !in s.products
      && r.products == s.products[pid := ProductFromForm(fields, today).(owner := Some(requester))]
      && r.categories == s.categories
      && (!FormsetValid(s, None, rows, formsetOk) ==> r.versions == s.versions)
      && (FormsetValid(s, None, rows, formsetOk) ==>
            r.versions == s.versions + Appended(rows, s.nextVersionId, Some(pid)))
  {
    var s2 := SaveOwnedProduct(s, requester, fields, today);
    assert FormsetValid(s2, None, rows, formsetOk) == FormsetValid(s, None, rows, formsetOk);
    if FormsetValid(s, None, rows, formsetOk) {
      CreateFormsetOnlyAdds(s, rows, formsetOk);
      SaveAdditions(s2, rows, Some(s.nextProductId));
    }
  }

  lemma CreatedKeepsConsistency(s: Store, requester: UserId, fields: ProductFields,
                                rows: seq<VersionRow>, formsetOk: bool, today: Date)
    requires Consistent(s) && ProductFormValid(s, FullForm, fields, true)
    ensures Consistent(Created(s, requester, fields, rows, formsetOk, today))
  {
    var s2 := SaveOwnedProduct(s, requester, fields, today);
    assert Consistent(s2) by {
      forall v | v in s2.versions ensures v.product.Some? ==> v.product.value in s2.products {
        assert v in s.versions;
      }
    }
    if FormsetValid(s2, None, rows, formsetOk) {
      CreateFormsetOnlyAdds(s2, rows, formsetOk);
      SaveFormsetKeepsConsistency(s2, rows, Some(s.nextProductId));
    }
  }

  /**
   * As written, create saves the owned product and, when the formset is
   * valid, appends its rows with no product at all.
   */
  lemma {:induction false} CreateAsWrittenSavesUnlinkedVersions(s: Store, requester: UserId, fields: ProductFields,
                                                               rows: seq<VersionRow>, formsetOk: bool, today: Date)
    ensures var r := CreatedAsWritten(s, requester, fields, rows, formsetOk, today);
      && r.products == SaveOwnedProduct(s, requester, fields, today).products
      && (!FormsetValid(s, None, rows, formsetOk) ==> r.versions == s.versions)
      && (FormsetValid(s, None, rows, formsetOk) ==>
            r.versions == s.versions + Appended(rows, s.nextVersionId, None)
            && forall v | v in r.versions && v !in s.versions :: v.product == None)
  {
    var s2 := SaveOwnedProduct(s, requester, fields, today);
    assert FormsetValid(s2, None, rows, formsetOk) == FormsetValid(s, None, rows, formsetOk);
    if FormsetValid(s, None, rows, formsetOk) {
      CreateFormsetOnlyAdds(s, rows, formsetOk);
      SaveAdditions(s2, rows, None);
      var r := CreatedAsWritten(s, requester, fields, rows, formsetOk, today);
      var app := Appended(rows, s.nextVersionId, None);
      forall v | v in r.versions && v !in s.versions ensures v.product == None {
        var k :| 0 <= k < |r.versions| && r.versions[k] == v;
        if k < |s.versions| {
          assert r.versions[k] == s.versions[k];
        } else {
          assert v == app[k - |s.versions|];
        }
      }
    }
  }

  /** As written, a newly created product has no current version even when its formset marks one. */
  lemma {:induction false} CreateAsWrittenLosesCurrentVersion(s: Store, requester: UserId, fields: ProductFields,
                                                             d: VersionDraft, today: Date)
    requires Consistent(s) && DraftValid(d) && d.isCurrentVersion
    ensures CurrentVersionLabel(CreatedAsWritten(s, requester, fields, [AddRow(d)], true, today).versions,
                                s.nextProductId) == NoActiveVersion
  {
    var pid := s.nextProductId;
    var s2 := SaveOwnedProduct(s, requester, fields, today);
    assert FormsetValid(s2, None, [AddRow(d)], true);
    SaveAdditions(s2, [AddRow(d)], None);
    var r := CreatedAsWritten(s, requester, fields, [AddRow(d)], true, today);
    assert r.versions == s.versions + [Version(s.nextVersionId, d.versionNumber, d.name, true, None)];
    forall v | v in r.versions ensures !IsCurrentOf(v, pid) {
      if v in s.versions {
        assert v.product.Some? ==> v.product.value in s.products;
      }
    }
  }

  /** With the formset attached to the new product, its current version is the one submitted. */
  lemma {:induction false} CreateKeepsCurrentVersion(s: Store, requester: UserId, fields: ProductFields,
                                                    d: VersionDraft, today: Date)
    requires Consistent(s) && DraftValid(d) && d.isCurrentVersion
    ensures CurrentVersionLabel(Created(s, requester, fields, [AddRow(d)], true, today).versions,
                                s.nextProductId) == d.name
  {
    var pid := s.nextProductId;
    var s2 := SaveOwnedProduct(s, requester, fields, today);
    assert FormsetValid(s2, None, [AddRow(d)], true);
    SaveAdditions(s2, [AddRow(d)], Some(pid));
    var r := Created(s, requester, fields, [AddRow(d)], true, today);
    var added := Version(s.nextVersionId, d.versionNumber, d.name, true, Some(pid));
    assert r.versions == s.versions + [added];
    assert added in r.versions;
    forall v | v in r.versions && IsCurrentOf(v, pid) ensures v == added {
      assert v !in s.versions;
    }
  }

  // ---------------------------------------------------------------------
  // ProductUpdateView.form_valid

  /** The product is saved first; the formset is saved afterwards only if it is valid. */
  function Updated(s: Store, pid: ProductId, form: EditForm, edit: ProductFields,
                   rows: seq<VersionRow>, formsetOk: bool, today: Date): (r: Store)
    requires pid in s.products
    ensures r.products.Keys == s.products.Keys && r.categories == s.categories
    ensures r.products[pid] == ApplyEdit(s.products[pid], form, edit).(updatedAt := Some(today))
    ensures forall p | p in s.products && p != pid :: r.products[p] == s.products[p]
    ensures !FormsetValid(s, Some(pid), rows, formsetOk) ==> r.versions == s.versions
  {
    var s1 := s.(products := s.products[pid := ApplyEdit(s.products[pid], form, edit).(updatedAt := Some(today))]);
    if FormsetValid(s1, Some(pid), rows, formsetOk) then SaveFormset(s1, rows, Some(pid)) else s1
  }

  /**
   * The edited product is saved whether or not the formset is valid; an invalid
   * formset leaves every version as it was; no owner ever changes.
   */
  lemma UpdateSavesProductFirst(s: Store, pid: ProductId, form: EditForm, edit: ProductFields,
                                rows: seq<VersionRow>, formsetOk: bool, today: Date)
    requires pid in s.products
    ensures var r := Updated(s, pid, form, edit, rows, formsetOk, today);
      && r.products == s.products[pid := ApplyEdit(s.products[pid], form, edit).(updatedAt := Some(today))]
      && r.categories == s.categories
      && (!FormsetValid(s, Some(pid), rows, formsetOk) ==> r.versions == s.versions)
      && (forall p | p in r.products :: r.products[p].owner == s.products[p].owner)
  {
  }

  /** The moderator form cannot change a product's name, price or photo. */
  lemma ModeratorKeepsNamePriceAndPhoto(s: Store, pid: ProductId, edit: ProductFields,
                                        rows: seq<VersionRow>, formsetOk: bool, today: Date)
    requires pid in s.products
    ensures var p := Updated(s, pid, ModeratorForm, edit, rows, formsetOk, today).products[pid];
      p.name == s.products[pid].name && p.price == s.products[pid].price && p.photo == s.products[pid].photo
  {
  }

  /** Saving an edit leaves the versions of every other product as they were. */
  lemma {:induction false} UpdateTouchesOnlyItsVersions(s: Store, pid: ProductId, form: EditForm, edit: ProductFields,
                                                       rows: seq<VersionRow>, formsetOk: bool, today: Date)
    requires Consistent(s) && pid in s.products
    ensures var r := Updated(s, pid, form, edit, rows, formsetOk, today);
      forall v: Version :: v.product != Some(pid) ==> (v in r.versions <==> v in s.versions)
  {
    var s1 := s.(products := s.products[pid := ApplyEdit(s.products[pid], form, edit).(updatedAt := Some(today))]);
    if FormsetValid(s1, Some(pid), rows, formsetOk) {
      ValidFormsetTargetsOnly(s1, rows, pid, formsetOk);
      SaveFormsetTouchesOnlyInstance(s1, rows, pid);
    }
  }

  /**
   * An update with a valid formset: every existing version meets the fate the
   * rows give it (`EditOne`), in table order, and the added rows follow,
   * attached to the edited product and numbered from the counter.
   */
  lemma {:induction false} UpdateAppliesItsFormset(s: Store, pid: ProductId, form: EditForm, edit: ProductFields,
                                                  rows: seq<VersionRow>, formsetOk: bool, today: Date)
    requires Consistent(s) && pid in s.products
    requires FormsetValid(s, Some(pid), rows, formsetOk)
    ensures var r := Updated(s, pid, form, edit, rows, formsetOk, today);
      && r.versions == Edited(s.versions, rows) + Added(rows, s.nextVersionId, Some(pid))
      && r.nextVersionId == s.nextVersionId + |Added(rows, s.nextVersionId, Some(pid))|
  {
    var s1 := s.(products := s.products[pid := ApplyEdit(s.products[pid], form, edit).(updatedAt := Some(today))]);
    assert FormsetValid(s1, Some(pid), rows, formsetOk);
    forall i | 0 <= i < |rows| && !rows[i].AddRow? ensures rows[i].id < s.nextVersionId {
      assert RowValid(s, Some(pid), rows[i]);
    }
    SaveFormsetMeaning(s1, rows, Some(pid));
  }

  lemma UpdatedKeepsConsistency(s: Store, pid: ProductId, form: EditForm, edit: ProductFields,
                                rows: seq<VersionRow>, formsetOk: bool, today: Date)
    requires Consistent(s) && pid in s.products && ProductFormValid(s, form, edit, true)
    ensures Consistent(Updated(s, pid, form, edit, rows, formsetOk, today))
  {
    var s1 := s.(products := s.products[pid := ApplyEdit(s.products[pid], form, edit).(updatedAt := Some(today))]);
    assert Consistent(s1);
    if FormsetValid(s1, Some(pid), rows, formsetOk) {
      assert RowsFieldsValid(rows) by {
        forall i | 0 <= i < |rows| ensures RowFieldsValid(rows[i]) {
          assert RowValid(s1, Some(pid), rows[i]);
        }
      }
      SaveFormsetKeepsConsistency(s1, rows, Some(pid));
    }
  }

  // ---------------------------------------------------------------------
  // The database the views work on

  datatype CreateOutcome = CreateRedirect | CreateFormInvalid

  datatype UpdateOutcome = UpdateRedirect | UpdateFormInvalid | UpdateNotFound | UpdateForbidden

  class Catalog {
    var db: Store

    ghost predicate Valid()
      reads this
    {
      Consistent(db)
    }

    constructor (initial: Store)
      requires Consistent(initial)
      ensures Valid() && db == initial
    {
      db := initial;
    }

    /**
     * ProductCreateView.form_valid, reached when the product form is valid, in
     * its corrected form: the formset is saved against the product just
     * created. `CreatedAsWritten` is the flow exactly as the view writes it.
     */
    method CreateProduct(requester: UserId, fields: ProductFields, formOk: bool,
                         rows: seq<VersionRow>, formsetOk: bool, today: Date)
      returns (outcome: CreateOutcome)
      requires Valid()
      modifies this
      ensures Valid()
      ensures outcome == CreateRedirect <==> ProductFormValid(old(db), FullForm, fields, formOk)
      ensures outcome == CreateRedirect ==> db == Created(old(db), requester, fields, rows, formsetOk, today)
      ensures outcome == CreateFormInvalid ==> db == old(db)
    {
      if !ProductFormValid(db, FullForm, fields, formOk) {
        return CreateFormInvalid;
      }
      ghost var s := db;
      // product = form.save()
      var pid := db.nextProductId;
      db := db.(products := db.products[pid := ProductFromForm(fields, today)], nextProductId := pid + 1);
      // product.owner = user; product.save()
      var product := db.products[pid];
      product := product.(owner := Some(requester), updatedAt := Some(today));
      db := db.(products := db.products[pid := product]);
      assert db == SaveOwnedProduct(s, requester, fields, today);
      if FormsetValid(db, None, rows, formsetOk) {
        // bound to the new product; the view binds it to `self.object`, still None here
        db := SaveFormset(db, rows, Some(pid));
      }
      // super().form_valid(form) saves the same instance once more
      db := db.(products := db.products[pid := db.products[pid].(updatedAt := Some(today))]);
      CreatedKeepsConsistency(s, requester, fields, rows, formsetOk, today);
      return CreateRedirect;
    }

    /** ProductUpdateView: get_object, get_form_class, then form_valid. */
    method UpdateProduct(requester: UserId, perms: set<string>, pid: ProductId, edit: ProductFields,
                         formOk: bool, rows: seq<VersionRow>, formsetOk: bool, today: Date)
      returns (outcome: UpdateOutcome)
      requires Valid()
      modifies this
      ensures Valid()
      ensures pid !in old(db).products ==> outcome == UpdateNotFound
      ensures pid in old(db).products ==>
        match GetFormClass(requester, old(db).products[pid].owner, perms)
        case PermissionDenied => outcome == UpdateForbidden
        case Allowed(form) =>
          if ProductFormValid(old(db), form, edit, formOk)
          then outcome == UpdateRedirect && db == Updated(old(db), pid, form, edit, rows, formsetOk, today)
          else outcome == UpdateFormInvalid
      ensures outcome != UpdateRedirect ==> db == old(db)
    {
      if pid !in db.products {
        return UpdateNotFound;
      }
      var decision := GetFormClass(requester, db.products[pid].owner, perms);
      if decision == PermissionDenied {
        return UpdateForbidden;
      }
      var form := decision.form;
      if !ProductFormValid(db, form, edit, formOk) {
        return UpdateFormInvalid;
      }
      ghost var s := db;
      // self.object = form.save()
      var product := ApplyEdit(db.products[pid], form, edit).(updatedAt := Some(today));
      db := db.(products := db.products[pid := product]);
      if FormsetValid(db, Some(pid), rows, formsetOk) {
        db := SaveFormset(db, rows, Some(pid));
      }
      // super().form_valid(form) saves the same instance once more
      db := db.(products := db.products[pid := db.products[pid].(updatedAt := Some(today))]);
      UpdatedKeepsConsistency(s, pid, form, edit, rows, formsetOk, today);
      return UpdateRedirect;
    }
  }
}
