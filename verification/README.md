# Client book of a tailoring shop — Dafny model

A functional model of the core of a small client-records app for a tailor:
the in-memory client collection and the value it is persisted to, the four-screen
navigator (`LIST`, `ADD`, `DETAILS`, `EDIT`) with the selected client, the
search filter of the client list, and the add/edit form that builds the saved
record. Everything is immutable data and pure functions; the user's actions are
events of `App.Step`.

Modules:

- `Types` — `Measurements` (seven text fields), `Client`, `ViewState` (types.ts).
- `Wrappers` — `Option`, for `null`/`undefined`.
- `Seqs` — `Keep`, the order-preserving filter (`Array.prototype.filter`), and the
  subsequence relation.
- `Text` — ASCII lower-casing and `includes` with an index-based reference definition.
- `ClientList` — the search filter and the empty-result panel
  (components/components/components/ClientList.tsx, which holds `ClientList`).
- `ClientForm` — form state, per-field measurement change and submit
  (components/components/ClientList.tsx, which holds `ClientForm`).
- `App` — save, delete, the screen callbacks, load and save of the store,
  the invariant they keep (App.tsx).

Inputs that the program draws from the environment are parameters: the answer
to the delete confirmation is a `bool`, `crypto.randomUUID()` is `freshId`,
`Date.now()` is `now`. The local store is the abstract value `Stored`
(`Absent`, `Unparsable`, or a serialized collection that parses back to itself).

Deletion after a confirmation prompt is implemented by `handleDeleteClient`,
but App.tsx never hands that handler to any screen, so no user action reaches
it. The model follows the code: `App.Offered` never offers `Delete`. The handler
itself is modelled, and `App.DeletePreservesInv` shows it would keep the
invariant if a screen offered it.

## Model

| member | source | states |
|---|---|---|
| `Seqs.Keep` | components/components/components/ClientList.tsx:15 | an element is in the filter result iff it is in the input and satisfies the predicate; the result is no longer than the input |
| `Seqs.KeepCounts` | components/components/components/ClientList.tsx:15 | each element satisfying the predicate occurs in the result as often as in the input, every other element not at all |
| `Seqs.KeepIsSubsequence` | components/components/components/ClientList.tsx:15 | the filter result is an order-preserving subsequence of the input |
| `Seqs.KeepIdempotent` | components/components/components/ClientList.tsx:15 | filtering twice with one predicate equals filtering once |
| `Seqs.KeepAll` | App.tsx:43 | when every element satisfies the predicate the filter returns the input unchanged |
| `Text.Lower` | components/components/components/ClientList.tsx:16 | lower-casing yields a case variant of its input (same length, each character equal or the same ASCII letter in the other case) with no upper-case ASCII letter left |
| `Text.LowerFoldsCase` | components/components/components/ClientList.tsx:16 | two strings that differ only in ASCII case lower-case to the same string |
| `Text.Includes` | components/components/components/ClientList.tsx:16-17 | `includes` is true exactly when the needle occurs at some index of the haystack (an index-based definition, both directions) |
| `Text.IncludesEmpty` | components/components/components/ClientList.tsx:16-17 | every string includes the empty string |
| `ClientList.Filter` | components/components/components/ClientList.tsx:14-19 | order-preserving subsequence of the clients; sound and complete for "lower-cased name contains lower-cased query, or phone contains the raw query"; each match kept with its multiplicity |
| `ClientList.FilterEmptyQuery` | components/components/components/ClientList.tsx:15-17 | the empty query returns the whole collection in its order |
| `ClientList.FilterIdempotent` | components/components/components/ClientList.tsx:14-19 | searching the result again with the same query returns the same result |
| `ClientList.NameSideIgnoresCase` | components/components/components/ClientList.tsx:16 | for every name and query, replacing either by a case variant does not change whether the name side matches |
| `ClientList.CaseVariantOfNameFinds` | components/components/components/ClientList.tsx:15-16 | a query equal, up to ASCII case, to any stretch of a client's name puts that client in the filter result |
| `ClientList.NameMatchIgnoresCase` | components/components/components/ClientList.tsx:16 | example: the query "ALI" finds the name "Ali Rezaei" |
| `ClientList.PhoneMatchKeepsCase` | components/components/components/ClientList.tsx:17 | the phone side is not case-folded: "x1" finds phone "x12" but "X1" does not |
| `ClientList.Render` | components/components/components/ClientList.tsx:45-57 | "not found" is shown iff no client matches; its "add your first client" line iff the collection is empty; otherwise the cards are the filter result |
| `ClientForm.MeasurementsByFields` | types.ts:1-9 | a measurement record is determined by its seven fields |
| `ClientForm.ChangeMeasurement` | components/components/ClientList.tsx:46-48 | the named field takes the new value and the other six fields keep theirs |
| `ClientForm.InitialForm` | components/components/ClientList.tsx:11-32 | without initial data: empty name, empty phone, all seven measurements empty; with it: all three taken from the client |
| `ClientForm.FormByInputs` | components/components/ClientList.tsx:22-24 | a form state is determined by the text its nine inputs show |
| `ClientForm.ApplyEdit` | components/components/ClientList.tsx:70-116 | an input's change handler makes that input show the typed text and leaves every other input as it was |
| `ClientForm.UntouchedInputKeeps` | components/components/ClientList.tsx:70-116 | an input no edit of a run touches keeps its text |
| `ClientForm.LastEditWins` | components/components/ClientList.tsx:70-116 | after a run of edits, each input shows the text of the last edit made to it |
| `ClientForm.EveryFormReachable` | components/components/ClientList.tsx:66-119 | from any form state, typing into each input once reaches any chosen form state |
| `ClientForm.Submit` | components/components/ClientList.tsx:34-44 | submits only with a non-empty name (the phone may be empty); name, phone and measurements are the form's; id and creation time come from the initial data when editing, from the fresh id and current time when adding |
| `ClientForm.SubmitUneditedIsIdentity` | components/components/ClientList.tsx:26-42 | opening a client for edit and saving without changes yields that same client |
| `ClientForm.FreshFormNeedsName` | components/components/ClientList.tsx:66-67 | an untouched add form cannot be submitted |
| `App.Load` | App.tsx:14-23 | a serialized collection loads back as the collection that was written; an absent or unparsable value loads as the empty collection |
| `App.Mount` | App.tsx:13-28 | after mounting, the list screen shows with no selection; a serialized collection is loaded back unchanged, an absent or unparsable value gives the empty collection; the store then holds the collection |
| `App.ReplaceById` | App.tsx:32 | same length; every entry with the saved id becomes the saved client, every other entry stays in place |
| `App.PrependUniqueIds` | App.tsx:36 | prepending a client whose id is unused keeps identifiers unique |
| `App.KeepUniqueIds` | App.tsx:43 | filtering a collection with unique identifiers keeps them unique |
| `App.SaveClient` | App.tsx:30-39 | on the edit screen with a selection: entries with the id replaced in place, an absent id leaves the collection unchanged, uniqueness kept, the saved client selected, details shown; otherwise: the client prepended, length one more, list shown; the store equals the new collection |
| `App.DeleteClient` | App.tsx:41-47 | declined: nothing changes; confirmed: exactly the entries with other ids remain, in order and with multiplicity, an absent id changes nothing, uniqueness kept, list shown, selection cleared, store equals the collection |
| `App.Step` | App.tsx:55-101 | the screen and navbar callbacks and the form wiring: an event keeps the store equal to the collection; only a submit or a delete can change the collection; a submit with an empty name and a declined delete change nothing |
| `App.Offered` | App.tsx:49-94 | which callbacks the rendered screen hands out: delete never, the navbar always, select and add on the list, cancel-add on the add form, back and edit on the details screen with a selection, cancel-edit on the edit form, submit only on the two forms |
| `App.StepKeepsStoreInSync` | App.tsx:25-28 | after any event the store equals the collection |
| `App.MountEstablishesInv` | App.tsx:9-28 | the mounted state satisfies the invariant when the stored identifiers are unique |
| `App.StepPreservesInv` | App.tsx:49-94 | every event a screen offers keeps the store in sync, identifiers unique, and the details/edit screens on a client of the collection |
| `App.DeletePreservesInv` | App.tsx:41-47 | the delete handler keeps the invariant too |
| `App.RunPreservesInv` | App.tsx:96-116 | any sequence of offered events from an invariant state ends in an invariant state |
| `App.ReloadAfterRun` | App.tsx:14-28 | after any sequence of offered events, reloading the store gives back the in-memory collection |
| `App.EditThenCancel` | App.tsx:77-88 | entering the edit screen and cancelling returns to the details screen with the same client and nothing else changed |
| `App.NavigationTransitions` | App.tsx:55-101 | select leads to details with that client; add to the add screen with no selection; cancels and back to their screens; edit to the edit screen with that client; the navbar to the list keeping the selection; the collection never changes |
| `App.EditSubmitUpdatesEntry` | App.tsx:30-34 | saving the edit form rewrites the selected entry in place with its id and creation time kept and the form's fields, leaves every other entry, selects it and shows details |
| `App.AddSubmitPrepends` | App.tsx:35-38 | saving the add form puts a record with the fresh id and current time at the front and shows the list |
| `App.ExampleSession` | App.tsx:30-46 | add "Ali Rezaei" with waist 80, edit the waist to 82, delete: the collection goes [ali], [ali with 82], [] and the store follows |

## Left out

- The client details screen (components/ClientList.tsx, which holds `ClientDetails`) and its fabric-advice request: an asynchronous call into a text-generation service whose code is not part of this model, a loading flag and Markdown rendering.
- JSON encoding and decoding: `Stored` only distinguishes absent, unparsable and a serialized collection. A stored value that parses to something other than an array of clients is not modelled.
- A failing local-storage write (quota exceeded) is not modelled; writes always succeed.
- `toLowerCase` is modelled on ASCII letters only; Unicode case mapping is not. Strings are sequences of Unicode scalar values, not UTF-16 code units.
- The measurement inputs are `type="number"`, so a browser only lets numeric text (or nothing) through; the model accepts any string.
- React scheduling: each callback is one atomic transition, and effects run once after the change they observe (no double-invoked effects, no batching across callbacks).
- The search query text field is not state of the model; `ClientList.Filter` and `ClientList.Render` take the query as a parameter.
- Rendering, styling, icons, the navbar's client count, and the unused `GeminiResponse` type.
- App.Offered: deletion is never offered because no screen receives the delete handler, so `App.RunPreservesInv` covers no delete step (`App.DeletePreservesInv` covers the handler on its own).
- App.Offered: an added client's identifier is assumed unused by the collection, standing for the uniqueness of `crypto.randomUUID()`.
