# Restaurant back office: inventory ledger, form schemas and navigation rules

This project models, in Dafny, the part of the restaurant-management back
office that decides what happens to stock and who sees what:

- **The inventory service** (`src/lib/api/inventory.ts`). Every call first
  checks the session and the user. The SUPER_ADMIN role may act on any
  branch; anyone else may act only on the branch of their own employee
  record. `getInventory` scopes the stock rows by branch. `getInventoryItem`
  and `updateInventoryItem` read and overwrite one row. `getInventoryMovements`
  lists a product's movements, newest first. `createInventoryMovement` logs
  a movement and then brings the (branch, product) stock row in step with it:
  - INGRESS adds to the row.
  - EGRESS, ADJUSTMENT and LOSS subtract from it, with no floor.
  - An INGRESS on a missing row creates it with a minimum of 0.
  - Any other type on a missing row leaves the table alone.

  The stock table and the movement log are the fields of a class,
  `InventoryApi.InventoryStore`. Its methods are proved against functions on
  values (`Visible`, `Select`, `Reverse`, `Overwrite`, `StockAfter`). The
  class invariant `Valid()` is that row ids are unique. `CreateMovement`
  preserves agreement between the table and the replay of the log
  (`Reconciled`); `UpdateItem` can break it (`OverwriteBreaksReconciliation`).
  The model proves that the replay of a row equals the signed
  sum of its movements from the first INGRESS on. It also exhibits the
  movements that replay loses.
- **The per-branch ingredient movement endpoint**
  (`src/pages/api/movimientos-inventario/index.ts`). It checks the request
  in order: 401, then 405, then 400 for missing or falsy fields, then 400 for
  a bad type. It then runs one transaction that upserts the stock row and
  appends the movimiento. Class `MovimientosInventario.InventarioDb` keeps the
  invariant `stock == Replay(movimientos)`. A separate lemma proves that every
  row of the replay is the signed sum of the movimientos on its pair.
- **The three zod form schemas** (`src/lib/validations/inventory.ts`,
  `employee.ts`, `branch.ts`). Each field's checks are one function. The
  object schema collects every field's issues in declaration order. For
  each schema the model proves two things: a field is reported exactly when
  its own bound fails, and a parse succeeds exactly when every bound holds.
  A successful parse yields the typed values, with `isActive` defaulting to
  true on the employee form.
- **The ingredient badge** (`getIngredienteIcon` in
  `src/pages/main/menu/ingredientes/index.tsx`). It is a first-match
  substring classifier over the lower-cased name.
- **Navigation.** The sidebar (`src/components/menu/sidebar.tsx`) applies
  the role fallback, filters the items by role, highlights with a prefix
  test and builds the role label. The dashboard menu
  (`src/components/Dashboard/nav-main.tsx`) uses a "/"-boundary rule for
  items and exact equality for sub-items.

Modules: `Prelude` holds the shared vocabulary. It has Option and Result, the
issue lists of a schema, and the JavaScript string operations the code calls:
`startsWith`, `includes`, `toLowerCase`, and `replace` with a one-character
pattern. There is one module per source file: `InventoryApi`,
`MovimientosInventario`, `InventoryValidation`, `EmployeeValidation`,
`BranchValidation`, `Ingredientes`, `Sidebar` and `NavMain`.

Quantities are Dafny `real`s: they need not be whole numbers (the movement
form's minimum is 0.01), and floating-point rounding is not modelled. A clock reading (`now`) and the id the database
would generate for a new row are parameters. The session and the user lookup
become the `InventoryApi.Auth` value.

Neither endpoint refuses a movement that drives stock below zero, and
ADJUSTMENT always subtracts, like EGRESS and LOSS. The model proves these
negative cases: `InventoryApi.InventoryStore.CreateMovement` and
`MovimientosInventario.SalidaFirstGoesNegative`.

## Model

| member | source | states |
|---|---|---|
| Prelude.Need | src/lib/validations/inventory.ts:5-7 | one schema check yields no issue exactly when it passes, and otherwise exactly one issue naming its field with its message |
| Prelude.CollectFlags | src/lib/validations/inventory.ts:3-10 | when each field's checks report only that field, the object schema's issue list names a field exactly when the field is listed and its checks fail |
| Prelude.ContainsIff | src/pages/main/menu/ingredientes/index.tsx:83-85 | `includes` holds exactly when the keyword occurs at some position of the name |
| Prelude.ToLower | src/pages/main/menu/ingredientes/index.tsx:80 | lower-casing keeps the length and maps each character on its own |
| Prelude.ToLowerIdempotent | src/pages/main/menu/ingredientes/index.tsx:80 | lower-casing twice is lower-casing once |
| Prelude.FirstIndexOf | src/components/menu/sidebar.tsx:149 | the index found holds the character and no earlier index does; none exactly when the character is absent |
| Prelude.ReplaceFirst | src/components/menu/sidebar.tsx:149 | a one-character `replace` changes only the first occurrence and keeps every other character; with no occurrence the string is unchanged |
| InventoryApi.Message | src/lib/api/inventory.ts:8-162 | each error is thrown with a non-empty Spanish text: "No autenticado" (:8), "Usuario no encontrado" (:11), and the not-found and permission texts of :56, :83, :87, :121 and :162 |
| InventoryApi.MessagesDistinct | src/lib/api/inventory.ts:8-162 | no two errors share a text |
| InventoryApi.Authenticate | src/lib/api/inventory.ts:7-11 | no session fails with "No autenticado", an unknown user with "Usuario no encontrado", and only an authenticated user goes on |
| InventoryApi.MayActOn | src/lib/api/inventory.ts:54-57 | a SUPER_ADMIN may act on every branch; anyone else who may act on a branch has an employee record in that branch (the same test at :86, :120 and :161) |
| InventoryApi.PermissionRule | src/lib/api/inventory.ts:54-57 | a non-admin with no employee record may act on no branch |
| InventoryApi.Visible | src/lib/api/inventory.ts:21-22 | the rows a filter returns are exactly the stored rows in scope, with their contents unchanged |
| InventoryApi.InventoryWhereAsWritten | src/lib/api/inventory.ts:14-19 | as written, the filter is never the one that matches nothing, even for a non-admin without a branch |
| InventoryApi.UnscopedUserSeesAllAsWritten | src/lib/api/inventory.ts:17-19 | as written, a plain USER with no employee record is given every row of every branch |
| InventoryApi.InventoryWhere | src/lib/api/inventory.ts:14-19 | corrected scope: a non-admin without an employee record gets no rows; otherwise the same scope as written |
| InventoryApi.ScopingRule | src/lib/api/inventory.ts:14-19 | a SUPER_ADMIN without a filter sees every row; with a filter, that branch's rows; anyone else exactly their own branch's rows; every row shown is one the caller may act on |
| InventoryApi.Delta | src/lib/api/inventory.ts:196-202 | INGRESS adds its quantity; EGRESS, ADJUSTMENT and LOSS subtract it |
| InventoryApi.Tracked | src/lib/api/inventory.ts:196-217 | the recorder's quantity for a key after replaying the log from an empty table; a row exists only once an INGRESS on that key was logged |
| InventoryApi.TrackedFromFirstIngress | src/lib/api/inventory.ts:196-217 | replaying the log, a row exists exactly when an INGRESS on its key was logged, and holds the signed sum of the movements from the first INGRESS on |
| InventoryApi.TrackedIsSignedSumWhenIngressFirst | src/lib/api/inventory.ts:196-217 | when nothing on a key precedes its first INGRESS, the row is the signed sum of all its movements |
| InventoryApi.LossBeforeFirstIngressIsLost | src/lib/api/inventory.ts:208-218 | a LOSS of 5 logged before an INGRESS of 10 leaves the row at 10 while its movements sum to 5 |
| InventoryApi.Overwrite | src/lib/api/inventory.ts:90-96 | an update sets quantity and minStock only where given and stamps updatedAt, keeping the row id |
| InventoryApi.OverwriteBreaksReconciliation | src/lib/api/inventory.ts:90-96 | overwriting a quantity turns a table that agrees with the log into one that does not |
| InventoryApi.Reverse | src/lib/api/inventory.ts:135 | newest first: position i holds the i-th movement from the end |
| InventoryApi.Select | src/lib/api/inventory.ts:125-129 | the listed movements are exactly the logged ones of the product, and of the branch when one is given |
| InventoryApi.SelectAppend | src/lib/api/inventory.ts:125-129 | selecting from a log split in two selects from each part in turn, so the selection keeps log order and every repeat |
| InventoryApi.StockAfter | src/lib/api/inventory.ts:186-218 | one recorder step: an existing row moves by the movement's delta, keeping its id and minimum; a missing row is created, with minimum 0, only by INGRESS; every other row is unchanged |
| InventoryApi.ReplayStep | src/lib/api/inventory.ts:186-218 | applying a movement to a table that agrees with the log, and logging it, keeps them in agreement |
| InventoryApi.InventoryStore.GetInventory | src/lib/api/inventory.ts:6-33 | the authentication errors, otherwise exactly the rows the corrected scope lets through |
| InventoryApi.InventoryStore.GetItem | src/lib/api/inventory.ts:35-64 | null exactly when no row has the id; a row of a branch the caller may not act on gives "No tienes permisos para ver este item"; a row the caller may act on is returned as it is stored |
| InventoryApi.InventoryStore.UpdateItem | src/lib/api/inventory.ts:66-106 | "Item no encontrado" exactly when no row has the id, and the permission error exactly for a foreign branch, both changing nothing; a row the caller may act on is always overwritten, only that row changes, and the log is untouched |
| InventoryApi.InventoryStore.GetMovements | src/lib/api/inventory.ts:108-141 | a caller who may not act on the branch is refused; a SUPER_ADMIN gets the product's movements in every branch, anyone else those of the branch, newest first |
| InventoryApi.InventoryStore.CreateMovement | src/lib/api/inventory.ts:143-225 | a refused caller changes nothing; otherwise one movement is logged; an existing row gains or loses the quantity with no floor; a missing row is created only by INGRESS with minimum 0; no other row changes; agreement with the log is preserved |
| MovimientosInventario.Check | src/pages/api/movimientos-inventario/index.ts:10-33 | 401 without a user id, then 405 for any method but POST, then 400 when a field is missing or falsy, then 400 with the type message for a type other than ENTRADA or SALIDA; a request passes exactly when all hold, carrying its pair, quantity, user and type |
| MovimientosInventario.NegativeCantidadAccepted | src/pages/api/movimientos-inventario/index.ts:23 | only 0 is a falsy quantity, so a negative cantidad passes the guards |
| MovimientosInventario.Signed | src/pages/api/movimientos-inventario/index.ts:47 | ENTRADA counts its cantidad, SALIDA its negation |
| MovimientosInventario.Replay | src/pages/api/movimientos-inventario/index.ts:36-67 | the table built by running every logged transaction from an empty table; each row it creates has minimum 0 |
| MovimientosInventario.Upsert | src/pages/api/movimientos-inventario/index.ts:38-56 | an existing row moves by the signed cantidad; a missing one is created with it and minimum 0; no other row changes |
| MovimientosInventario.ReplayIsSignedSum | src/pages/api/movimientos-inventario/index.ts:36-67 | a pair has a row exactly when a movimiento on it was logged, and its stock is the signed sum of those movimientos |
| MovimientosInventario.SalidaFirstGoesNegative | src/pages/api/movimientos-inventario/index.ts:50-55 | a first SALIDA of 4 creates the row at -4 |
| MovimientosInventario.InventarioDb.Handle | src/pages/api/movimientos-inventario/index.ts:7-80 | guard failures answer their status and write nothing; a failed transaction answers 500 and writes nothing; success appends one movimiento, upserts its row and returns both; the table stays the replay of the log |
| InventoryValidation.KindOf | src/lib/validations/inventory.ts:4 | a type is accepted exactly when it is one of the four movement types, and each name gives its own movement type |
| InventoryValidation.CheckFlagsOwnField | src/lib/validations/inventory.ts:4-9 | each field's check reports that field and only when its bound fails |
| InventoryValidation.ValidateFlagsFailedFields | src/lib/validations/inventory.ts:3-10 | a field is reported exactly when its bound fails, and there are no issues exactly when the form is valid |
| InventoryValidation.Parse | src/lib/validations/inventory.ts:3-10 | success exactly for a known type, non-empty product and branch, and quantity at least 0.01, yielding the same values; otherwise the full non-empty issue list |
| InventoryValidation.NonPositiveQuantityRefused | src/lib/validations/inventory.ts:7 | a zero or negative quantity is refused and the refusal names the quantity |
| EmployeeValidation.CheckFlagsOwnField | src/lib/validations/employee.ts:4-23 | each field's checks report that field and only when one of its bounds fails |
| EmployeeValidation.ValidateFlagsFailedFields | src/lib/validations/employee.ts:3-24 | a field is reported exactly when its bound fails, and there are no issues exactly when the form is valid |
| EmployeeValidation.ValidFormExplicit | src/lib/validations/employee.ts:4-22 | valid exactly for name and position of 2 to 100 characters, an e-mail address of at most 100, an absent phone or one of at most 20, salary in 0 to 999999999, and non-empty branch and hiring date |
| EmployeeValidation.Parse | src/lib/validations/employee.ts:3-24 | success exactly for a valid form, yielding its values with isActive true when absent; otherwise the full non-empty issue list |
| EmployeeValidation.LongInvalidEmailReportedTwice | src/lib/validations/employee.ts:7-9 | an e-mail that is both malformed and too long gets both messages, in schema order |
| BranchValidation.CheckFlagsOwnField | src/lib/validations/branch.ts:4-17 | each field's check, each schedule day included, reports that field and only when its bound fails |
| BranchValidation.ValidateFlagsFailedFields | src/lib/validations/branch.ts:3-18 | a field or day is reported exactly when its bound fails, and there are no issues exactly when the form is valid |
| BranchValidation.ValidFormExplicit | src/lib/validations/branch.ts:3-18 | valid exactly for name of 2+, address of 5+ and phone of 7+ characters, an e-mail that is absent, empty or an address, all seven days non-empty, and isActive present |
| BranchValidation.Parse | src/lib/validations/branch.ts:3-18 | success exactly for a valid form, yielding the same values; otherwise the full non-empty issue list |
| BranchValidation.EmptyEmailAccepted | src/lib/validations/branch.ts:7 | an empty e-mail is never reported, while a non-empty non-address is |
| BranchValidation.EmptyDayRefused | src/lib/validations/branch.ts:8-16 | any day with an empty schedule makes the parse fail, naming that day |
| Ingredientes.AnyIncluded | src/pages/main/menu/ingredientes/index.tsx:83-85 | `some` over a keyword list holds exactly when the name contains one of the keywords |
| Ingredientes.Label | src/pages/main/menu/ingredientes/index.tsx:87-121 | the badge reads "Otro" exactly for the fallback group |
| Ingredientes.IconOf | src/pages/main/menu/ingredientes/index.tsx:87-121 | only the fallback group's icon is drawn in the muted colour |
| Ingredientes.BadgesDistinct | src/pages/main/menu/ingredientes/index.tsx:87-121 | different groups get different texts and different icons |
| Ingredientes.Classify | src/pages/main/menu/ingredientes/index.tsx:79-122 | the groups are tried in order Verdura, Carne, Lácteo, Hierba: a name lands in a group exactly when it contains one of its keywords and none of an earlier group's; otherwise Otro |
| Ingredientes.ClassifyIgnoresCase | src/pages/main/menu/ingredientes/index.tsx:80 | a name and its lower-cased form get the same badge |
| Ingredientes.VerduraSurvivesAddedWords | src/pages/main/menu/ingredientes/index.tsx:82-90 | a vegetable name stays a vegetable whatever text is added before or after it |
| Ingredientes.TomateYPolloIsVerdura | src/pages/main/menu/ingredientes/index.tsx:82-99 | "Tomate y pollo" is Verdura: the first matching group wins |
| Ingredientes.PapayaIsVerdura | src/pages/main/menu/ingredientes/index.tsx:82-90 | "Papaya" is Verdura, because matching is by substring |
| Ingredientes.FresasIsCarne | src/pages/main/menu/ingredientes/index.tsx:91-99 | "Fresas" is Carne, because it contains the keyword "res" and no vegetable keyword |
| NavMain.SubEntries | src/components/Dashboard/nav-main.tsx:53-58 | one button per sub-item, in order, highlighted exactly on its own url |
| NavMain.RenderListsEveryItem | src/components/Dashboard/nav-main.tsx:36-49 | the top-level buttons are the items, one each, in the given order, with the boundary highlight |
| NavMain.RenderHighlights | src/components/Dashboard/nav-main.tsx:42-58 | every rendered button is highlighted by its own rule: the "/" boundary at depth 0, equality at depth 1 |
| NavMain.RenderConcat | src/components/Dashboard/nav-main.tsx:36-70 | rendering a list split in two renders each part in turn |
| NavMain.RenderAt | src/components/Dashboard/nav-main.tsx:36-70 | every item's buttons form one block between those of the items before it and those after it |
| NavMain.ItemEntriesShape | src/components/Dashboard/nav-main.tsx:51-67 | an item's block is its own button, then exactly one button per sub-item, and nothing more when it has none |
| NavMain.ItemThenItsSubItems | src/components/Dashboard/nav-main.tsx:51-67 | for every item, its button is followed directly by its sub-items' buttons in their order, and an item without sub-items directly by the next item's button |
| NavMain.TopActiveIff | src/components/Dashboard/nav-main.tsx:42 | an item is highlighted exactly when the pathname is its url, or its url followed by "/" and more |
| NavMain.TopActiveIsPrefix | src/components/Dashboard/nav-main.tsx:42 | the boundary rule implies a plain prefix match |
| NavMain.SiblingNotActive | src/components/Dashboard/nav-main.tsx:42 | "/main/sucursales" is highlighted on "/main/sucursales/nueva" but not on "/main/sucursalesX" |
| NavMain.SubActiveImpliesParentActive | src/components/Dashboard/nav-main.tsx:42-58 | on a sub-item's page, a parent whose url lies above it is highlighted too |
| Sidebar.EffectiveRole | src/components/menu/sidebar.tsx:40 | a missing or empty role is shown as USER, and any other role as itself |
| Sidebar.Visible | src/components/menu/sidebar.tsx:99-101 | an item is kept exactly when its roles list the user's role |
| Sidebar.VisibleKeepsOrder | src/components/menu/sidebar.tsx:99-101 | the kept items appear in the table's order |
| Sidebar.VisibleWhenAllListed | src/components/menu/sidebar.tsx:99-101 | an item list whose every entry lists the role passes the filter unchanged |
| Sidebar.SuperAdminSeesEverything | src/components/menu/sidebar.tsx:42-97 | SUPER_ADMIN sees all four items |
| Sidebar.GerenteSeesThree | src/components/menu/sidebar.tsx:42-97 | GERENTE_SUCURSAL sees Dashboard, Sucursales and Inventario |
| Sidebar.MeseroSeesDashboard | src/components/menu/sidebar.tsx:42-97 | MESERO sees only Dashboard |
| Sidebar.UnlistedRoleSeesNothing | src/components/menu/sidebar.tsx:40-101 | USER, a missing role and any role no item lists get an empty menu |
| Sidebar.HighlightedAsWritten | src/components/menu/sidebar.tsx:171 | as written, an item is highlighted exactly when the pathname starts with its href |
| Sidebar.DashboardAlwaysHighlightedAsWritten | src/components/menu/sidebar.tsx:171 | as written, "/main/branches" highlights both Dashboard and Sucursales |
| Sidebar.MainframeHighlightsDashboardAsWritten | src/components/menu/sidebar.tsx:171 | as written, "/mainframe", a page outside Dashboard, highlights Dashboard |
| Sidebar.MostSpecific | src/components/menu/sidebar.tsx:187-190 | corrected: the chosen item lies above the pathname at a "/" boundary and has the longest such href; none exactly when no item does |
| Sidebar.HighlightedItems | src/components/menu/sidebar.tsx:171-190 | corrected: at most one item is highlighted, it lies above the pathname, and one is whenever any item does |
| Sidebar.OnlySucursalesOnBranches | src/components/menu/sidebar.tsx:171 | corrected: "/main/branches" highlights Sucursales alone |
| Sidebar.OnlyDashboardOnMain | src/components/menu/sidebar.tsx:171 | corrected: "/main" highlights Dashboard alone |
| Sidebar.NothingOnMainframe | src/components/menu/sidebar.tsx:171 | corrected: "/mainframe" highlights nothing |
| Sidebar.RoleLabel | src/components/menu/sidebar.tsx:149 | the label has the role's length; a role without an underscore is shown as it is; otherwise its first underscore becomes a space and every other character stays |
| Sidebar.RoleLabelKeepsLaterUnderscores | src/components/menu/sidebar.tsx:149 | the label still shows an underscore exactly when the role has two or more |
| Sidebar.SuperAdminLabel | src/components/menu/sidebar.tsx:149 | SUPER_ADMIN is shown as "SUPER ADMIN" |
| Sidebar.GerenteLabel | src/components/menu/sidebar.tsx:149 | GERENTE_SUCURSAL is shown as "GERENTE SUCURSAL" |
| Sidebar.LaterUnderscoreKept | src/components/menu/sidebar.tsx:149 | "A_B_C" is shown as "A B_C": only the first underscore is replaced |

## Left out

- Database and network I/O, Prisma includes (product, branch, employee, user) and `console.error` logging are not modelled. The tables are a map and a sequence held in memory.
- The try/catch in `getInventory` that rewrites any storage failure as "Error fetching inventory" is not modelled. Storage failures are modelled only for the movimiento endpoint's transaction (`txFails`).
- `getInventory` sorts its rows by updatedAt and `getInventoryMovements` sorts by date. The model returns rows as a map and movements in reverse log order. Movements with equal timestamps may come out in either order in the source.
- InventoryApi.InventoryStore.CreateMovement: the source is not atomic. If the stock write fails after the movement is created, the movement stays logged and stock is not updated. The model treats the call as all-or-nothing.
- Concurrent calls and lost updates are out of scope. In the source, two interleaved read-modify-write calls on one row can lose an update.
- Other writers of the stock tables are outside the reconciliation invariant. `src/pages/api/inventario/[sucursalId].ts` upserts stock without a movimiento. `src/app/api/movements/route.ts` and `src/app/api/inventory/movement/route.ts` append movements without touching stock.
- Id generation is abstracted: the id the database would give a new row is a parameter that must be unused (`FreshId`). Row ids themselves are modelled; movements carry no id.
- Clocks are not modelled. `new Date()` is the `now` parameter.
- MovimientosInventario.Check: request bodies are typed in the model. The source's `Number(...)` and `parseInt` coercions of untyped JSON are not modelled, and the user id stays a string.
- The zod type errors for missing required fields are not modelled, apart from the branch form's isActive ("Required"). Every other required field of the three schemas is always present in the model.
- EmployeeValidation.Parse and BranchValidation.Parse: whether a string is an e-mail address is the `isEmail` parameter, not zod's own pattern.
- Lengths are counted in characters, not UTF-16 code units, and floating-point rounding of quantities is not modelled.
- Prelude.ToLower covers ASCII and Latin-1 capitals only. Other scripts are left unchanged, unlike JavaScript's full Unicode case mapping.
- Ingredientes.Classify: only the badge's group is modelled, with its label and icon name. The React elements themselves are not.
- Sidebar: only the role fallback, the role filter, the highlight test and the role label are modelled. The badge colours, the avatar and the logout button are not.
- The low-stock marker of the inventory table (`quantity <= minStock`) is not modelled. It only chooses a text colour.

## Findings

| source | as written | input that shows it | evidently intended | confidence | as-written member | corrected member |
|---|---|---|---|---|---|---|
| src/lib/api/inventory.ts:17-19 | a non-admin's filter is `{ branchId: user.employee?.branchId }`, which is `{ branchId: undefined }` without an employee record, and Prisma drops undefined fields, so the query has no filter | a user with roles USER and no employee record calls `getInventory()` | such a user belongs to no branch and sees no row, as the item, update and movement calls already refuse them | high; not executed | InventoryApi.UnscopedUserSeesAllAsWritten | InventoryApi.ScopingRule |
| src/components/menu/sidebar.tsx:171 | an item is highlighted when the pathname merely starts with its href, so Dashboard ("/main") is highlighted on every page and on "/mainframe" | pathname "/main/branches" highlights Dashboard and Sucursales, and two elements then carry the single `layoutId="activeItem"` marker | at least a "/" boundary, so that "/mainframe" lights nothing; the single shared `layoutId` suggests one item, the one with the longest such href, though the dashboard menu (nav-main.tsx:42) keeps "/main" lit on its sub-pages, so that part is less certain | low; not executed | Sidebar.DashboardAlwaysHighlightedAsWritten | Sidebar.OnlySucursalesOnBranches |
