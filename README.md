# Storefront catalog and accounts: a Dafny model

This project models the logic of a small Django storefront once the ORM is replaced by an in-memory store:

- the catalog's entities. These are categories, products and product versions, with their field limits, their defaults and the order versions come back in. It also covers what deleting a row does to the rows that refer to it: set-null for a product's category and owner, cascade for a product's versions.
- the edit-permission decision of the product update view. The owner gets the full form. A non-owner holding all three moderator permissions gets the moderator form. Anyone else is refused.
- the product list's "current version" label. A loop writes a label onto every listed product in place. The label is the name of the product's last current version in version-number order, or a fixed placeholder.
- the two-stage save of a product and its version formset on create and on update. The product is always saved; the versions are saved only when the formset is valid.
- the user accounts. Registration creates an inactive user with a 32-hex-digit token and mails a confirmation link. Visiting the link activates the user holding that token. Password reset stores the hash of a freshly generated password for the user with that email.

Files:

- `common.dfy`: `Option`.
- `catalog_models.dfy`: module `CatalogModels`, the entities and the `Store` (categories and products as maps, the version table as a sequence of rows carrying their ids), referential consistency, the version order, and the `on_delete` rules.
- `catalog_views.dfy`: module `CatalogViews`, the permission decision, the listing loop over an `array`, the formset save, and the class `Catalog` whose methods run the create and update flows step by step on the store.
- `user_views.dfy`: module `UserViews`, the class `Accounts` (the user table as a `map` the methods update) and the functions that specify it.

Inputs stand in for what the code gets from outside:

- the requester's id and permission set
- the product form's and the formset's own validity (`formOk`, `formsetOk`)
- the clock (`today`)
- the random token and the generated password
- the request host
- whether `send_mail` succeeds (`mailOk`)

Sent mail is returned as a value.

Behaviour that the model follows from the code, where a quick reading might suggest otherwise:

- After a password reset the `password` field holds only the hash. The plain assignment at users/views.py:60 is overwritten by `set_password` on the next line.
- A failing `send_mail` during registration is not caught. The user is already saved, inactive, and the request ends in an error (`MailNotSent`).
- A failing `send_mail` during a reset is caught and redirects to "email not found". The new password is already saved at that point.
- `version_number` is a `PositiveIntegerField`, so zero is allowed.
- Two users holding the same token make `get_object_or_404` raise `MultipleObjectsReturned` (`MultipleFound`), not a 404.
- Two users with the same email send a reset to "email not found".
- Versions saved with a new product are not linked to it (see Findings). `CatalogViews.CreatedAsWritten` and `CreateAsWrittenSavesUnlinkedVersions` follow the code there; `CatalogViews.Created` and `Catalog.CreateProduct` run the corrected flow.

## Model

| member | source | states |
|---|---|---|
| `CatalogModels.NewProduct` | catalog/models.py:51 | a new product is unpublished and has no owner, category, description or photo |
| `CatalogModels.NewVersion` | catalog/models.py:75-77 | a new version is not flagged current |
| `CatalogModels.ValidCategory` | catalog/models.py:11 | a category name holds at most 150 characters |
| `CatalogModels.ValidProduct` | catalog/models.py:26-38 | a product name holds at most 150 characters and the price fits the integer column |
| `CatalogModels.ValidVersion` | catalog/models.py:73-74 | a version name holds at most 150 characters and the number fits the positive integer column |
| `CatalogModels.SeveralCurrentVersionsAllowed` | catalog/models.py:75-85 | a consistent store can hold two current versions of one product |
| `CatalogModels.VersionOrderIsStrictTotal` | catalog/models.py:90 | ordering by version number, ties by id, is a strict total order on rows with distinct ids |
| `CatalogModels.Latest` | catalog/models.py:87-90 | the chosen row is in the sequence and no row of it comes after it in version order |
| `CatalogModels.LastOfOrderedIsLatest` | catalog/models.py:90 | the last row of any version-ordered arrangement of the rows is `Latest` |
| `CatalogModels.DeleteCategory` | catalog/models.py:31-37 | the category is gone; every product survives; the category of exactly its former products becomes null; only the `category` field of its former products changes; versions untouched |
| `CatalogModels.DeleteOwner` | catalog/models.py:43-49 | every product survives; the owner of exactly the deleted user's products becomes null; only the `owner` field of their products changes; categories and versions untouched |
| `CatalogModels.DeleteProduct` | catalog/models.py:79-85 | the product is gone; a version survives iff it does not refer to it, so unlinked versions survive; categories untouched |
| `CatalogModels.DeleteCategoryKeepsConsistency` | catalog/models.py:31-37 | deleting a category keeps every reference valid |
| `CatalogModels.DeleteOwnerKeepsConsistency` | catalog/models.py:43-49 | deleting a user keeps the store consistent and every owner among the remaining users |
| `CatalogModels.DeleteProductKeepsConsistency` | catalog/models.py:79-85 | the cascade leaves no version pointing at a missing product |
| `CatalogViews.GetFormClass` | catalog/views.py:74-84 | owner gets the full form; a non-owner with all three permissions gets the moderator form; a non-owner missing any one is refused; each outcome iff its condition |
| `CatalogViews.OwnerIgnoresPermissions` | catalog/views.py:75-77 | the owner's outcome is the same whatever permissions they hold |
| `CatalogViews.MissingPermissionDenies` | catalog/views.py:78-84 | a non-owner lacking any single moderator permission is refused |
| `CatalogViews.MorePermissionsNeverDeny` | catalog/views.py:78-83 | granting permissions never turns an allowed edit into a refusal |
| `CatalogViews.ApplyEdit` | catalog/views.py:68-84 | both forms write description, category and publication; only the full form writes name, photo and price; owner and dates are kept |
| `CatalogViews.ActiveVersion` | catalog/views.py:94-98 | none iff the product has no current version; otherwise a current version of that product that no other current version of it follows |
| `CatalogViews.CurrentVersionLabel` | catalog/views.py:93-100 | the label is the placeholder or the name of some row of the version table |
| `CatalogViews.CurrentVersionLabelMeaning` | catalog/views.py:93-100 | the placeholder when no version is current; otherwise the name of a current version that no other current version of the product follows |
| `CatalogViews.LastCurrentVersionIsUnique` | catalog/views.py:97-98 | with distinct ids, two last current versions of a product are the same row, so the label is determined |
| `CatalogViews.AssembleListing` | catalog/views.py:90-102 | every listed product keeps its position, id and fields and gets the label of its current version; nothing else is written |
| `CatalogViews.SaveFormset` | catalog/views.py:69-71 | saving a formset changes only the version table and its id counter, which never decreases; what the rows do to the table is `SaveFormsetMeaning` |
| `CatalogViews.SaveAdditions` | catalog/views.py:42-44 | a formset of new rows appends them in order with fresh consecutive ids and the given product |
| `CatalogViews.EditOne` | catalog/views.py:69-71 | what the changed and removed rows, in order, leave of one existing version: at most one row |
| `CatalogViews.Added` | catalog/views.py:69-71 | the versions the added rows insert all have ids from the counter on and belong to the formset's product |
| `CatalogViews.EditOneUnnamed` | catalog/views.py:69-71 | a version that no changed or removed row names is kept as it was |
| `CatalogViews.EditOneRemoved` | catalog/views.py:69-71 | a version that some row removes is gone, whatever the other rows do |
| `CatalogViews.EditOneChanged` | catalog/views.py:69-71 | a version named by one row only, a change, carries that row's number, name and current flag, with its id and product kept |
| `CatalogViews.SaveFormsetMeaning` | catalog/views.py:69-71 | when every id involved is below the counter, the saved table is each existing version's fate in table order followed by the added rows with consecutive fresh ids; the counter advances by the number added |
| `CatalogViews.SaveFormsetKeepsConsistency` | catalog/views.py:69-71 | saving field-valid rows against an existing product keeps the store consistent |
| `CatalogViews.ValidFormsetTargetsOnly` | catalog/views.py:58-61 | a valid formset bound to a product changes or removes only versions of that product |
| `CatalogViews.SaveFormsetTouchesOnlyInstance` | catalog/views.py:69-71 | saving such a formset keeps every version of other products and adds none |
| `CatalogViews.CreateFormsetOnlyAdds` | catalog/views.py:29-32 | the create formset has no existing rows, so a valid one only adds |
| `CatalogViews.SaveOwnedProduct` | catalog/views.py:36-39 | one new product under the next key, holding the form's fields, created today and owned by the requester; every other row unchanged |
| `CatalogViews.CreatedAsWritten` | catalog/views.py:35-45 | the create flow as written: the owned product is saved; an invalid formset leaves the versions; categories unchanged |
| `CatalogViews.Created` | catalog/views.py:35-45 | the corrected create flow: the owned product is saved; an invalid formset leaves the versions; categories unchanged |
| `CatalogViews.CreateSavesProductThenVersions` | catalog/views.py:35-45 | create saves the product owned by the requester whatever the formset; versions unchanged if it is invalid, otherwise exactly its rows appended |
| `CatalogViews.CreatedKeepsConsistency` | catalog/views.py:35-45 | a create with a valid product form keeps the store consistent |
| `CatalogViews.CreateAsWrittenSavesUnlinkedVersions` | catalog/views.py:35-45 | as written, create saves the owned product; an invalid formset leaves the versions; a valid one appends exactly its rows, in order with fresh ids, every one with no product |
| `CatalogViews.CreateAsWrittenLosesCurrentVersion` | catalog/views.py:41-44 | as written, a product created with a current version in its formset still gets the placeholder label |
| `CatalogViews.CreateKeepsCurrentVersion` | catalog/views.py:41-44 | with the formset bound to the new product, that version's name is the label |
| `CatalogViews.Updated` | catalog/views.py:66-72 | the edited product is saved with the chosen form's fields and today's date; other products and categories unchanged; an invalid formset leaves the versions |
| `CatalogViews.UpdateSavesProductFirst` | catalog/views.py:66-72 | the edited product is saved whether or not the formset is valid; an invalid formset leaves every version unchanged; no owner changes |
| `CatalogViews.ModeratorKeepsNamePriceAndPhoto` | catalog/views.py:83 | the moderator form leaves name, price and photo as they were |
| `CatalogViews.UpdateTouchesOnlyItsVersions` | catalog/views.py:67-71 | an update leaves the versions of every other product exactly as they were |
| `CatalogViews.UpdateAppliesItsFormset` | catalog/views.py:66-72 | with a valid formset, the versions become each existing version's fate in table order followed by the added rows, attached to the edited product |
| `CatalogViews.UpdatedKeepsConsistency` | catalog/views.py:66-72 | an update with a valid form keeps the store consistent |
| `CatalogViews.Catalog.CreateProduct` | catalog/views.py:35-45 | redirects iff the product form is valid, and then the store is that of the corrected create flow `Created` (formset bound to the new product); consistency kept |
| `CatalogViews.Catalog.UpdateProduct` | catalog/views.py:66-84 | missing product is not found; a refused requester changes nothing; otherwise the update flow with the form class chosen; consistency kept |
| `UserViews.ConfirmationUrl` | users/views.py:27-28 | the link is the `http://{host}/users/email-confirm/` prefix, then the token, then a final slash |
| `UserViews.TokenFromConfirmationUrl` | users/views.py:38 | the token read from a link is non-empty and holds no slash |
| `UserViews.ConfirmationUrlRoundTrip` | users/views.py:27-28 | reading the token back from the link built for a hex token gives that token |
| `UserViews.ConfirmationUrlIsTheOnlyLink` | users/views.py:28 | every link the route accepts is the one built for the token it yields |
| `UserViews.RegistrationMail` | users/views.py:29-34 | the mail goes to the new user and ends with the link |
| `UserViews.ResetMail` | users/views.py:63-68 | the mail goes to the user and ends with the new password |
| `UserViews.Registered` | users/views.py:21-26 | one new user, inactive, holding the token and the hashed password; other users unchanged |
| `UserViews.VerifyResult` | users/views.py:38-42 | redirect to login iff exactly one user holds the token; not found iff none does |
| `UserViews.Verified` | users/views.py:38-41 | only `is_active` can change; on a unique match exactly the holder becomes active; otherwise nothing changes |
| `UserViews.VerifyKeepsTokens` | users/views.py:38-42 | confirming leaves every token where it was |
| `UserViews.VerifyIsIdempotent` | users/views.py:38-42 | confirming twice gives the same table and the same outcome as once |
| `UserViews.RegisterThenVerify` | users/views.py:21-42 | a registered user whose token is unique is activated by its link; other users unchanged |
| `UserViews.AfterReset` | users/views.py:57-62 | only the `password` field can change; on a unique match it becomes the hash of the new password; otherwise nothing changes |
| `UserViews.ResetStoresOnlyTheHash` | users/views.py:60-62 | the stored password is the hash, not the plain password; other users unchanged |
| `UserViews.ResetResult` | users/views.py:55-72 | redirect to `new_password` iff a single user has the email and the mail was sent, and then the mail is the reset mail with the new password; every other case redirects to `email_not_found` |
| `UserViews.Accounts.Register` | users/views.py:21-35 | the table becomes `Registered` under a fresh id; redirect with the mail, or the error when mailing fails |
| `UserViews.Accounts.VerifyEmail` | users/views.py:38-42 | outcome `VerifyResult` and the table `Verified` |
| `UserViews.Accounts.ResetPassword` | users/views.py:54-72 | off a POST nothing changes; on a POST the outcome is `ResetResult` and the table `AfterReset` |

## Left out

- The framework's view machinery is not modelled: GET requests, template rendering and context building. The request method, the forms' own validity and the formsets' own validity are inputs.
- Product listing cache: `catalog.services` is not part of this model. The listing takes the product sequence and the version table as inputs, and it cannot change the version table.
- Login enforcement: `LoginRequiredMixin` stands after `CreateView` at catalog/views.py:19, so it has no effect. The requester is always a user id, and the anonymous-user error is not modelled.
- Form field sets: catalog/forms.py is not part of this model. The full form is taken to edit name, description, photo, category, price and publication. The moderator form is taken to edit publication, description and category, which matches the three permissions at catalog/models.py:60-64.
- Form validation: a form's validity is its boolean input plus the field limits, category existence and, for formset rows, membership of the edited product.
- Formset rows: only filled rows are modelled, as add, change or remove. The blank extra form is not a row.
- users/forms.py, users/models.py and users/utils.py are not part of this model. Registration stores the hashed password it is given. `token` is nullable. The new password is an input of length 10.
- Password hashing: `Hashed(p)` stands for some hash of `p`. `set_password` salts, so the stored value is not a function of the password alone; the model only tells a hashed value from a plain one.
- `secrets.token_hex`, `request.get_host()` and `send_mail` are inputs, as described above.
- `has_perm` is membership in the requester's permission set. User equality is equality of ids.
- `CatalogViews.ActiveVersion`: when versions share a version number, the model takes the one with the larger id. The database leaves that order unspecified.
- Category and product `Meta.ordering`: no modelled operation sorts categories or products. The listing keeps the order it is given.
- The `__str__` methods of the three models are display only.
- `created_at` and `updated_at` are day numbers. Image storage behind `photo` is not modelled.
- ProductDetailView, ProductDeleteView, ContactsView, CategoryListView and EmailConfirmView hold no logic of their own. `CatalogModels.DeleteProduct` states what a product delete does.
- `UserViews.Accounts.ResetPassword`: off a POST the framework's own reset flow runs, and the model only says the user table is unchanged.
- blog/admin.py and catalog/urls.py hold configuration only.
- users/urls.py is not part of this model. `TokenFromConfirmationUrl` assumes the route `users/email-confirm/<token>/`, whose default string converter accepts a non-empty segment with no slash.

## Findings

| source | as written | input that shows it | evidently intended | confidence | as-written member | corrected member |
|---|---|---|---|---|---|---|
| catalog/views.py:41-44 | The create view binds the version formset to `self.object`. That attribute is still `None` there: Django's create view clears it before `form_valid`, and only `super().form_valid` at line 45 sets it. The versions are saved with a null product. | A create whose valid formset has one row flagged current. The new product then shows the placeholder label (`CreateAsWrittenLosesCurrentVersion`). | The versions belong to the product saved at line 36, as the update view does at line 70. | not executed; relies on Django's `BaseCreateView.post` setting `self.object = None` | `CatalogViews.CreatedAsWritten` | `CatalogViews.Created` (label shown by `CreateKeepsCurrentVersion`) |
