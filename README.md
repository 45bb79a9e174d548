# Food dashboard: state reconciliation

A Dafny model of the `Dashboard` page of a small food-menu CRUD front end
(`src/pages/Dashboard/index.tsx`). The page holds four pieces of state: the
ordered list `foods` of `IFood` records, the optional edit target
`editingFood`, and the two modal flags `modalOpen` and `editModalOpen`. Its
handlers send one request each to the REST collection `/foods` and turn the
backend's answer into a new state:

- **load** (`loadFoods`) replaces the list with the backend's list;
- **add** (`handleAddFood`) posts the submission with `available` forced to
  true and appends the record the backend returns;
- **update** (`handleUpdateFood`) puts the shallow merge of the edit target
  and the submission, keyed by the edit target's id, and replaces every
  element carrying the *returned* record's id;
- **delete** (`handleDeleteFood`) deletes by id and then drops every element
  with that id;
- **toggleModal**, **toggleEditModal** and **handleEditFood** drive the two
  modal flags and the edit target.

Layout:

- `wrappers.dfy` — `Option`, standing in for `T | null`.
- `foods.dfy` — module `Foods`: the `IFood` record (`Food`), plain JavaScript
  objects with `IFood`'s properties (`FoodObject`, a map from property name
  to value, so that object spread `{...a, ...b}` is map union `a + b`), and
  the two request bodies the handlers build with spread.
- `food_list.dfy` — module `FoodList`: the three list computations
  (`Append`, `ReplaceById` for the `map`, `RemoveById` for the `filter`) and
  their properties (order, which elements change, idempotence, unique ids).
- `dashboard.dfy` — module `DashboardPage`: the state as a value (`UiState`),
  one function per handler giving the state after it (`Loaded`, `Added`,
  `Updated`, `Deleted`, `ModalToggled`, `EditModalToggled`, `EditStarted`),
  lemmas relating several handlers, class `Dashboard` with the four state
  fields and one method per handler, each proved to perform its step, and a
  session of four client methods that run the handlers on concrete records.

The backend is not modelled. Each handler method takes the backend's answer
as a parameter — `Ok(data)` or `Failed` — and returns the `Request` it sends
(`GetFoods`, `PostFood(body)`, `PutFood(key, body)`, `DeleteFood(id)`).
Add and update catch a failure, so their methods return only the request;
load and delete do not catch it, so their methods also return `rejected`,
true exactly when the handler's promise rejects.

Three details of the code that the model keeps:

- The code does not keep ids unique: `ReplaceById` replaces, and `RemoveById`
  drops, *every* element with the id. `UniqueIdsPreserved` proves that ids
  stay unique given a unique list on load and fresh ids for created records.
- Update also runs without an edit target: the path gets `undefined`
  (`PutFood(None, _)`) and the body is the submission alone.
- A failed load leaves the list as it was; at mount that is the empty list.

## Model

| member | source | states |
|---|---|---|
| `Foods.ObjectOf` | src/pages/Dashboard/index.tsx:10-17 | a record seen as an object has all six `IFood` properties, each with its declared type and the record's value |
| `Foods.FoodOf` | src/pages/Dashboard/index.tsx:10-17 | an object is an `IFood` exactly when it has all six properties with their declared types, and the record read back gives the same object |
| `Foods.FoodOfObjectOf` | src/pages/Dashboard/index.tsx:10-17 | turning a record into an object and back gives the record |
| `Foods.Spread` | src/pages/Dashboard/index.tsx:47 | `{...a, ...b}` has the keys of both, `b`'s value on a shared key and `a`'s value on the others |
| `Foods.SpreadOf` | src/pages/Dashboard/index.tsx:47 | `...editingFood` contributes no key for `null` and the whole record otherwise |
| `Foods.AddPayload` | src/pages/Dashboard/index.tsx:28-31 | the posted body has every submitted property unchanged except `available`, which is present and true whatever was submitted |
| `Foods.AddPayloadIdempotent` | src/pages/Dashboard/index.tsx:29-30 | forcing `available` a second time changes nothing |
| `Foods.UpdatePayload` | src/pages/Dashboard/index.tsx:47 | each submitted property wins; with an edit target every other property is the target's and the body is a complete record; without one the body is the submission |
| `Foods.IdOf` | src/pages/Dashboard/index.tsx:46 | the update path carries the edit target's id, and no id ("undefined") exactly when there is no edit target |
| `Foods.EchoedUpdate` | src/pages/Dashboard/index.tsx:45-48 | if the backend echoes the merged body, the returned record has the submitted values and the edit target's value for every property not submitted |
| `Foods.RenameOnlyChangesName` | src/pages/Dashboard/index.tsx:45-48 | submitting only a new name yields, echoed, the edit target with that name and every other field unchanged |
| `Foods.UpdateWithWholeRecord` | src/pages/Dashboard/index.tsx:47 | a submission of a whole record overrides the whole edit target |
| `FoodList.Append` | src/pages/Dashboard/index.tsx:33-36 | the list grows by one; the earlier elements are unchanged and the new record is last |
| `FoodList.ReplaceById` | src/pages/Dashboard/index.tsx:50-52 | same length; each element whose id equals the response's becomes the response, every other element is unchanged |
| `FoodList.ReplaceByIdAbsent` | src/pages/Dashboard/index.tsx:50-52 | if no element has the response's id the list is unchanged |
| `FoodList.ReplaceByIdKeepsIds` | src/pages/Dashboard/index.tsx:50-52 | the id at every position stays, so the id is present afterwards exactly when it was before, and unique ids stay unique |
| `FoodList.ReplaceByIdIdempotent` | src/pages/Dashboard/index.tsx:50-52 | applying the same response twice is applying it once |
| `FoodList.RemoveById` | src/pages/Dashboard/index.tsx:63 | the result holds exactly the elements whose id differs from the given one, and is never longer |
| `FoodList.RemoveByIdHasId` | src/pages/Dashboard/index.tsx:63 | an id occurs after removal exactly when it occurred before and is not the removed id; in particular the removed id is gone |
| `FoodList.RemoveByIdAbsent` | src/pages/Dashboard/index.tsx:63 | removing an id no element has leaves the list unchanged |
| `FoodList.RemoveByIdIdempotent` | src/pages/Dashboard/index.tsx:63 | removing the same id twice is removing it once |
| `FoodList.RemoveByIdSubsequence` | src/pages/Dashboard/index.tsx:63 | the remaining elements keep their relative order |
| `FoodList.RemoveByIdConcat` | src/pages/Dashboard/index.tsx:63 | removal from a concatenation is the concatenation of the removals |
| `FoodList.RemoveByIdCount` | src/pages/Dashboard/index.tsx:63 | every record with another id keeps its number of occurrences; every record with the id has none |
| `FoodList.RemoveByIdUnique` | src/pages/Dashboard/index.tsx:63 | removal keeps ids unique, and on a list with unique ids removes one element if the id is present and none otherwise |
| `FoodList.AppendUnique` | src/pages/Dashboard/index.tsx:33-36 | appending to a list with unique ids keeps them unique exactly when the new id is fresh |
| `FoodList.RemoveAppended` | src/pages/Dashboard/index.tsx:33-63 | removing the id of a record appended with a fresh id gives back the list before the append |
| `FoodList.ReplaceAppended` | src/pages/Dashboard/index.tsx:33-52 | replacing by the fresh id of the last appended record changes that record only |
| `DashboardPage.Loaded` | src/pages/Dashboard/index.tsx:78-81 | on success the list is the backend's list in the backend's order; on failure nothing changes; the edit target and the flags never change |
| `DashboardPage.Added` | src/pages/Dashboard/index.tsx:25-41 | on success the list grows by one, earlier elements unchanged, the backend's record last; on failure nothing changes; the edit target and the flags never change |
| `DashboardPage.Updated` | src/pages/Dashboard/index.tsx:43-58 | length and order kept; on success each element with the response's id becomes the response and others stay, and nothing changes if no element has that id; on failure nothing changes; the edit target and the flags never change |
| `DashboardPage.Deleted` | src/pages/Dashboard/index.tsx:60-65 | on success no element has the id, every record with another id keeps its number of occurrences and the kept elements their relative order, and nothing changes if the id was absent; on failure nothing is removed; the edit target and the flags never change |
| `DashboardPage.ModalToggled` | src/pages/Dashboard/index.tsx:67 | `modalOpen` flips and nothing else changes |
| `DashboardPage.EditModalToggled` | src/pages/Dashboard/index.tsx:69 | `editModalOpen` flips and nothing else changes |
| `DashboardPage.EditStarted` | src/pages/Dashboard/index.tsx:71-74 | the edit modal is open whatever it was, the edit target is the given record, and the list and the add modal are unchanged |
| `DashboardPage.ToggleTwice` | src/pages/Dashboard/index.tsx:67-69 | toggling either modal twice restores the whole state |
| `DashboardPage.TogglesCommute` | src/pages/Dashboard/index.tsx:67-69 | the two toggles are independent and commute |
| `DashboardPage.EditStartedLastWins` | src/pages/Dashboard/index.tsx:71-74 | beginning an edit with one record and then another, without closing, is beginning it with the second |
| `DashboardPage.DeleteTwice` | src/pages/Dashboard/index.tsx:60-64 | a second successful delete of the same id changes nothing |
| `DashboardPage.DeleteUndoesAdd` | src/pages/Dashboard/index.tsx:25-64 | deleting the id of a record just created with a fresh id restores the state before the create |
| `DashboardPage.AddsCount` | src/pages/Dashboard/index.tsx:33-36 | n successful creates append exactly the n returned records, in order, and change neither the edit target nor the flags |
| `DashboardPage.UniqueIdsPreserved` | src/pages/Dashboard/index.tsx:33-63 | the list keeps at most one record per id through a load of a unique list, a create with a fresh id, and any update or delete |
| `DashboardPage.Dashboard.constructor` | src/pages/Dashboard/index.tsx:20-23 | the state at mount: no foods, no edit target, both modals closed |
| `DashboardPage.Dashboard.LoadFoods` | src/pages/Dashboard/index.tsx:76-85 | sends `GET /foods`, rejects exactly when the request fails, and leaves the state `Loaded` gives |
| `DashboardPage.Dashboard.HandleAddFood` | src/pages/Dashboard/index.tsx:25-41 | posts `AddPayload` of the submission and leaves the state `Added` gives |
| `DashboardPage.Dashboard.HandleUpdateFood` | src/pages/Dashboard/index.tsx:43-58 | puts `UpdatePayload` of the edit target and the submission under the edit target's id and leaves the state `Updated` gives |
| `DashboardPage.Dashboard.HandleDeleteFood` | src/pages/Dashboard/index.tsx:60-65 | sends `DELETE /foods/{id}`, rejects exactly when the request fails, and leaves the state `Deleted` gives |
| `DashboardPage.Dashboard.ToggleModal` | src/pages/Dashboard/index.tsx:67 | leaves the state `ModalToggled` gives |
| `DashboardPage.Dashboard.ToggleEditModal` | src/pages/Dashboard/index.tsx:69 | leaves the state `EditModalToggled` gives |
| `DashboardPage.Dashboard.HandleEditFood` | src/pages/Dashboard/index.tsx:71-74 | leaves the state `EditStarted` gives |
| `DashboardPage.SessionLoad` | src/pages/Dashboard/index.tsx:78-81 | mounting and loading one record lists exactly that record |
| `DashboardPage.SessionAdd` | src/pages/Dashboard/index.tsx:28-36 | creating a second record posts it with `available: true` and lists the backend's record second |
| `DashboardPage.SessionEdit` | src/pages/Dashboard/index.tsx:45-54 | submitting only a new price for the first record sends the merged record under id 1 and changes that row only |
| `DashboardPage.SessionDelete` | src/pages/Dashboard/index.tsx:60-64 | a failed delete removes nothing; a successful delete of id 2 leaves only the first record |

## Left out

- The HTTP client `api` (`../../services/api`) and the REST backend: `src/services/api` is not part of this model. Their answers, and whether a request succeeds, are parameters of the handler methods; id assignment and what the backend echoes are the backend's business.
- The text of the request paths: a request carries its id (`Option<int>` for the update, `None` standing for "undefined") instead of the formatted string `/foods/${id}`.
- `console.log` of a caught error (lines 39 and 56): only its effect, that nothing changes, is modelled; the error value itself is not.
- The rejection value of an uncaught delete or load failure: the model says only that the handler's promise rejects.
- React scheduling: `useState` setters take effect at once in the model, `useEffect` running load once at mount is not modelled (load is an ordinary method), and stale closures over `foods` are not modelled. Overlapping in-flight requests are concurrency and are not modelled: each handler runs from request to state update without interleaving.
- JSX rendering and the child components (`Header`, `Food`, `ModalAddFood`, `ModalEditFood`, `FoodsContainer`), including the modals closing themselves after a submit, and the `editingFood!` cast passed to the edit modal (a type-level assertion with no runtime effect).
- Ids are mathematical integers; JavaScript numbers that are not integers, and a form submission whose property values do not have `IFood`'s types, are outside `Food` (a submission is any `FoodObject`; `WellTyped` says when its values have the declared types).
- A property explicitly set to `undefined` in a submission (which object spread copies as `undefined`) is not distinguished from a missing property.
