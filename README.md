# Baby-care record store

A model of the record store inside the `App` component of a small baby-care
logging page. The user logs feedings (with an amount in millilitres) and diaper
changes (with a status such as "wet"), each with a display time and an optional
note. The component keeps the records in one list, newest first. It puts a new
record in front, removes records by id once the user confirms, shows either
every record or the records of one type, and writes the whole list to browser
storage after every change.

Layout:

- `wrappers.dfy` (module `Wrappers`): `Option`, for the record's optional fields.
- `filtering.dfy` (module `Filtering`): `Filter`, the list filter used both for
  deleting and for the per-type view, with lemmas on what it keeps, how often,
  in which order, and how two complementary filters split a list.
- `records.dfy` (module `Records`): the `Record` value and the operations on
  lists of records. `NewRecord` builds the record the form submits. `WithoutId`
  is the delete. `View` is the filtered list. The invariants the store keeps are
  `DistinctIds` (no two records share an id) and `AllWellShaped` (every record
  has an amount exactly when it is a feeding and a status exactly when it is a
  diaper change).
- `app.dfy` (module `App`): class `RecordStore`. It holds the component's state:
  the list, the stored copy (`persisted`), the filter and the form inputs. Each
  operation is a method with a `modifies` frame naming the fields it changes.

Notes on the code's behaviour:

- `deleteRecord` asks for confirmation itself. `DeleteRecord` takes the user's
  answer as `confirmed`.
- `status` is any string; the form offers four values (wet, dirty, both, dry).
- The note is always set on a new record, possibly to the empty string.
- The amount is not checked to be positive: whatever was typed is converted.
- Declining the deletion saves nothing, because the list is not replaced and the
  save effect does not run.

## Model

| member | source | states |
|---|---|---|
| `Records.NewRecord` | src/App.tsx:39-46 | the new record has the caller's id and time, the selected type and the note; it has an amount (from the typed text) exactly when it is a feeding and a status (the selected one) exactly when it is a diaper change, so it is well shaped |
| `Records.WithoutId` | src/App.tsx:55 | the result holds only records of the list, none with the deleted id, and every record of the list whose id differs |
| `Records.View` | src/App.tsx:59-61 | the `all` view is the list itself; a per-type view holds only records of that type from the list, and every record of that type |
| `Records.DeleteCount` | src/App.tsx:55 | deleting keeps each record with a different id exactly as many times as it occurs and drops every record with the id |
| `Records.DeleteConcat` | src/App.tsx:55 | deleting acts on each part of a list separately, so the kept records keep their relative order |
| `Records.DeleteUnchanged` | src/App.tsx:55 | deleting leaves the list unchanged if and only if the id does not occur in it |
| `Records.DeleteTwice` | src/App.tsx:55 | deleting the same id twice has the effect of deleting it once |
| `Records.DeleteKeepsDistinct` | src/App.tsx:55 | if ids are pairwise distinct before a delete, they are after it |
| `Records.DeleteKeepsWellShaped` | src/App.tsx:55 | if every record is well shaped before a delete, every record is after it |
| `Records.AddKeepsDistinct` | src/App.tsx:40-47 | the list with a record put in front has distinct ids if and only if the new id is fresh and the old ids were distinct |
| `Records.AddThenDelete` | src/App.tsx:47-55 | deleting the fresh id of the record just put in front restores the list as it was before the add |
| `Records.ViewCount` | src/App.tsx:61 | a per-type view keeps each record of that type exactly as many times as it occurs and no record of the other type |
| `Records.ViewConcat` | src/App.tsx:61 | a per-type view acts on each part of a list separately, so it keeps the list's order |
| `Records.ViewAfterAdd` | src/App.tsx:47-61 | a record put in front of the list heads the view of its own type and leaves the other type's view unchanged |
| `Records.ViewPartition` | src/App.tsx:59-61 | the feeding and diaper views are disjoint, together hold every record of the list as often as it occurs, and their lengths add up to the list's length |
| `Filtering.Filter` | src/App.tsx:55 | the result is no longer than the list, its elements are elements of the list that pass the test, and every element of the list that passes is in it |
| `Filtering.FilterConcat` | src/App.tsx:55 | filtering a concatenation is the concatenation of the filtered parts |
| `Filtering.FilterCount` | src/App.tsx:55 | every element that passes is kept as often as it occurs; no element that fails is kept |
| `Filtering.FilterUnchanged` | src/App.tsx:55 | a filter leaves a list unchanged if and only if every element passes |
| `Filtering.FilterIdempotent` | src/App.tsx:55 | filtering twice with the same test is filtering once |
| `Filtering.FilterPartition` | src/App.tsx:59-61 | two complementary filters together keep every element as often as the list has it, and their lengths add up to the list's length |
| `Filtering.FilterRank` | src/App.tsx:59-61 | an element that passes stands in the output at the position given by the number of passing elements before it |
| `Filtering.FilterRankMonotone` | src/App.tsx:59-61 | that position grows with the position in the input, so kept elements keep their relative order |
| `Filtering.FilterKeepsDistinct` | src/App.tsx:55 | a key that is unique across the list stays unique across the filtered list |
| `App.RecordStore.constructor` | src/App.tsx:15-30 | the list starts as the stored list, or empty when nothing is stored; storage holds the list; the filter is `all`; the form starts on feeding with an empty amount, status "wet" and an empty note |
| `App.RecordStore.Save` | src/App.tsx:33-35 | after saving, storage holds exactly the in-memory list, and the list is unchanged |
| `App.RecordStore.AddRecord` | src/App.tsx:37-51 | the list becomes the new record built from the form inputs followed by the unchanged old list, so it grows by one; the list is saved; amount and note inputs are cleared while type, status and filter stay; distinct ids (for a fresh id) and well-shaped records are kept; deleting the fresh id afterwards gives back the old list |
| `App.RecordStore.DeleteRecord` | src/App.tsx:53-57 | if confirmed, the list loses exactly the records with the id, is saved, and no record with the id remains; if declined, the list and storage are unchanged; an absent id leaves the list unchanged; distinct ids and well-shaped records are kept |
| `App.RecordStore.FilteredRecords` | src/App.tsx:59-61 | under `all` the displayed list is the store's list itself; under one type it holds each record of that type as often as the list does and no other record, each at the position given by the number of records of that type before it, so in list order |
| `App.RecordStore.SelectType` | src/App.tsx:77-84 | choosing a type sets the form's type and changes nothing else |
| `App.RecordStore.EnterAmount` | src/App.tsx:98 | typing an amount sets the amount text and changes nothing else |
| `App.RecordStore.SelectStatus` | src/App.tsx:108 | choosing a status sets the form's status and changes nothing else |
| `App.RecordStore.EnterNote` | src/App.tsx:124 | typing a note sets the note text and changes nothing else |
| `App.RecordStore.SelectFilter` | src/App.tsx:145 | choosing a filter sets the list filter and changes nothing else |

## Left out

- Rendering, CSS classes, labels and the status-to-label mapping (src/App.tsx:63-189): presentation only.
- Browser storage and JSON (src/App.tsx:26-28, 34): the storage slot is the field `persisted`; the constructor receives the stored value already parsed, with `None` for a missing (or empty) value. A parse failure on corrupt data is not modelled.
- `crypto.randomUUID()` (src/App.tsx:40): the id is a parameter of `AddRecord`. Instead of requiring a fresh id, `AddRecord` states what holds when the id is fresh.
- The clock and its locale formatting (src/App.tsx:42): the time is an opaque string parameter.
- `Number(amount)` (src/App.tsx:43): the amount is `NumberOf(text)`, the unevaluated conversion of the typed text. Its floating-point value, 0 for empty text and NaN for bad text are not modelled.
- `App.RecordStore.AddRecord`: accepts any amount text, including the empty text, although the page's amount input is a required number field (src/App.tsx:95-96) and the form is never submitted for a feeding with an empty amount. The extra inputs change no proof.
- `window.confirm` (src/App.tsx:54): the answer is the boolean `confirmed`.
- React's hooks and effect scheduling: each mutating method updates its fields and then calls `Save`. On mount React briefly stores the empty initial list before the loaded list replaces it. The constructor models only the settled state, where storage holds the loaded list.
- `App.RecordStore.constructor`: does not model the intermediate save of the empty initial list during mounting, for the reason above.
