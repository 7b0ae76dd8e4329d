# Fichas page: a state-machine model

This project models the state handling of the `FichaTemplate` page
(`frontend/src/components/templates/FichaTemplate.jsx`): the page that lists
"fichas" (cohort records), creates one from a three-field form, and deletes
records by `id`. The page keeps five pieces of state: the record list
`fichasData`, the draft `newFicha` (`nombre`, `fecha`, `estado`), a `loading`
flag, and two independent message slots, `error` and `success`.

Every handler becomes a pure transition once the outcome of its HTTP call is
an input:

| handler | outcome | transition |
|---|---|---|
| `fetchData` | body is an array | `FichaTemplate.LoadOk` |
| `fetchData` | body is not an array | `FichaTemplate.LoadNotArray` |
| `fetchData` | request failed | `FichaTemplate.LoadFail` |
| `handleCreate` | server returned a record | `FichaTemplate.CreateOk` |
| `handleCreate` | request failed | `FichaTemplate.CreateFail` |
| `handleDelete` | request succeeded | `FichaTemplate.DeleteOk` |
| `handleDelete` | request failed | `FichaTemplate.DeleteFail` |
| `handleChange` | — | `FichaTemplate.Change` |

`FichaTemplate.Step` dispatches one `Event` to these transitions, and
`FichaTemplate.Run` applies a sequence of events one at a time.

Modules:

- `Wrappers` (`wrappers.dfy`): `Option`, which stands in for a slot that may be `null`.
- `Fichas` (`fichas.dfy`): the record type, the draft type, the three form fields and their input names, and field read and write.
- `FichaList` (`ficha_list.dfy`): the delete-by-id filter `Remove`, a loop that implements it (`FilterById`), and its order, count, idempotence and uniqueness properties.
- `FichaTemplate` (`ficha_template.dfy`): the page `State`, its transitions, and properties of runs of several transitions.

Two facts about the code shape the model:

- The two message slots are independent. No handler clears `error` or `success` (lines 22, 36, 39, 47 and 50). So after a failure followed by a success, both slots are set (`FailureThenSuccessShowsBoth`, `RunWithFailureAndSuccessSetsBoth`).
- A failed load leaves the list as it was (lines 21-24). On mount that list is empty (`LoadAfterMount`).

## Model

| member | source | states |
|---|---|---|
| FichaTemplate.Init | frontend/src/components/templates/FichaTemplate.jsx:6-10 | on mount the list is empty, every draft field is the empty string, loading is on and neither message is set |
| FichaTemplate.LoadOk | frontend/src/components/templates/FichaTemplate.jsx:15-17 | an array response becomes exactly the list; loading ends; error, success and draft are untouched |
| FichaTemplate.LoadFail | frontend/src/components/templates/FichaTemplate.jsx:21-24 | a failed list request keeps the list, puts the failure's message into error and ends loading |
| FichaTemplate.LoadNotArray | frontend/src/components/templates/FichaTemplate.jsx:16-24 | a non-array body follows the same path as a failure carrying "La respuesta no es un arreglo": list kept, that message in error, loading ended |
| FichaTemplate.CreateOk | frontend/src/components/templates/FichaTemplate.jsx:33-36 | the list grows by one, the old list is its prefix and the returned record is last; the draft is reset to empty strings; success holds "Ficha creada con éxito."; error and loading kept |
| FichaTemplate.CreateFail | frontend/src/components/templates/FichaTemplate.jsx:37-40 | only error changes, to "Error al crear la ficha."; list, draft, success and loading are kept |
| FichaTemplate.DeleteOk | frontend/src/components/templates/FichaTemplate.jsx:45-47 | no record with the id remains; a record stays iff it was there with another id, as many times as before, in the original relative order; success holds "Ficha eliminada con éxito." |
| FichaTemplate.DeleteFail | frontend/src/components/templates/FichaTemplate.jsx:48-51 | only error changes, to "Error al eliminar la ficha."; the list is kept |
| FichaTemplate.Change | frontend/src/components/templates/FichaTemplate.jsx:54-57 | the named draft field takes the value; the other draft fields and all non-draft state are kept |
| FichaTemplate.StepMessages | frontend/src/components/templates/FichaTemplate.jsx:22-50 | every handler either overwrites a message slot with its own message or leaves it alone; no handler writes both slots |
| FichaTemplate.RunKeepsMessages | frontend/src/components/templates/FichaTemplate.jsx:22-50 | once a message slot is set it stays set for the rest of any sequence of handlers |
| FichaTemplate.RunWithFailureSetsError | frontend/src/components/templates/FichaTemplate.jsx:22-50 | any sequence of handlers that includes a failure ends with the error slot set |
| FichaTemplate.RunWithSuccessSetsSuccess | frontend/src/components/templates/FichaTemplate.jsx:36-47 | any sequence of handlers that includes a successful create or delete ends with the success slot set |
| FichaTemplate.RunWithFailureAndSuccessSetsBoth | frontend/src/components/templates/FichaTemplate.jsx:22-50 | any sequence of handlers that includes both a failure and a success, in either order, ends with both message slots set |
| FichaTemplate.FailureThenSuccessShowsBoth | frontend/src/components/templates/FichaTemplate.jsx:22-50 | after any failing handler and then any succeeding one, the error slot holds the failure's message and the success slot holds the success message |
| FichaTemplate.RunKeepsLoaded | frontend/src/components/templates/FichaTemplate.jsx:8-24 | once loading is off, no sequence of handlers turns it back on |
| FichaTemplate.RunWithLoadIsLoaded | frontend/src/components/templates/FichaTemplate.jsx:23-24 | any sequence of handlers that includes a load outcome ends with loading off |
| FichaTemplate.LoadAfterMount | frontend/src/components/templates/FichaTemplate.jsx:6-24 | loading an array on mount shows exactly that array with no error; a failed or non-array load on mount leaves the list empty |
| FichaTemplate.DeleteTwice | frontend/src/components/templates/FichaTemplate.jsx:45-47 | deleting the same id twice gives the same state as deleting it once |
| FichaTemplate.CreateThenDelete | frontend/src/components/templates/FichaTemplate.jsx:34-46 | deleting a just-created record whose id was fresh gives back the list from before the create |
| FichaTemplate.CreateDiscardsEdits | frontend/src/components/templates/FichaTemplate.jsx:35-56 | a draft edit made before a successful create leaves no trace after it |
| FichaTemplate.ChangeTwice | frontend/src/components/templates/FichaTemplate.jsx:56 | a later change of a field overrides an earlier change of the same field |
| FichaTemplate.ChangeSameValue | frontend/src/components/templates/FichaTemplate.jsx:56 | re-entering a field's current value leaves the state unchanged |
| Fichas.FieldOf | frontend/src/components/templates/FichaTemplate.jsx:70-93 | an input name maps to the field whose name it is; a name that is not one of the three maps to nothing |
| Fichas.NameRoundTrip | frontend/src/components/templates/FichaTemplate.jsx:70-93 | the name attribute of a field's input is read back as that field |
| Fichas.NameInjective | frontend/src/components/templates/FichaTemplate.jsx:70-93 | the three inputs have distinct names |
| Fichas.Set | frontend/src/components/templates/FichaTemplate.jsx:56 | a spread-and-override writes the field and keeps every other field |
| Fichas.DraftExtensional | frontend/src/components/templates/FichaTemplate.jsx:7 | two drafts are equal iff they agree on all three fields |
| Fichas.SetGet | frontend/src/components/templates/FichaTemplate.jsx:56 | writing a field's current value leaves the draft as it was |
| Fichas.SetSet | frontend/src/components/templates/FichaTemplate.jsx:56 | a second write to a field overrides the first |
| Fichas.SetCommute | frontend/src/components/templates/FichaTemplate.jsx:56 | writes to different fields commute |
| FichaList.Remove | frontend/src/components/templates/FichaTemplate.jsx:46 | the filtered list holds no record with the id and is a subsequence of the input |
| FichaList.RemoveCounts | frontend/src/components/templates/FichaTemplate.jsx:46 | each record with another id is kept as many times as it occurs; records with the id are dropped |
| FichaList.RemoveMembership | frontend/src/components/templates/FichaTemplate.jsx:46 | a record is in the result iff it is in the input and has another id |
| FichaList.RemoveAbsent | frontend/src/components/templates/FichaTemplate.jsx:46 | filtering by an id no record carries returns the list unchanged |
| FichaList.RemoveIdempotent | frontend/src/components/templates/FichaTemplate.jsx:46 | filtering twice by the same id equals filtering once |
| FichaList.RemoveConcat | frontend/src/components/templates/FichaTemplate.jsx:46 | filtering a concatenation is the concatenation of the filtered parts |
| FichaList.RemoveCommute | frontend/src/components/templates/FichaTemplate.jsx:46 | deletions of two ids give the same list in either order |
| FichaList.RemoveAfterAppend | frontend/src/components/templates/FichaTemplate.jsx:34-46 | filtering by the id of a record just appended removes it, leaving the earlier list filtered |
| FichaList.SubseqAvoidingIsShorter | frontend/src/components/templates/FichaTemplate.jsx:46 | no order-preserving selection of records with other ids is longer than the filter's result |
| FichaList.RemoveUnique | frontend/src/components/templates/FichaTemplate.jsx:46 | the filter's result is the only order-preserving selection of records with other ids of its length |
| FichaList.FilterById | frontend/src/components/templates/FichaTemplate.jsx:46 | a front-to-back pass keeping records with other ids computes exactly the filter |

## Left out

- The HTTP calls (GET and POST on `/fichas` and DELETE on `/fichas/{id}`, lines 15, 33 and 45) are an external client. Only their outcomes are modelled, as transition inputs. The body posted on create is the current draft.
- Asynchronous interleaving is not modelled. The handlers close over the `fichasData` of the render they came from, so overlapping requests can lose updates. The model applies one transition at a time to the current state.
- Rendering is not modelled: the form, the table and the "Cargando..." placeholder that `loading` selects. Neither is the browser's `required`-attribute form behaviour, which no code enforces.
- The styled-components styles and keyframes are pure presentation.
- The model says when a message slot is set, not when it is displayed. The page renders a slot only when it holds a non-empty message (lines 99-100), so a failure whose message is the empty string sets `error` without showing anything.
- `console.error` logging has no effect on state.
- FichaTemplate.Change: takes one of the three form fields rather than an arbitrary `name` string. Only the three inputs at lines 70, 82 and 93 call `handleChange`, and `Fichas.FieldOf` maps their names to fields. A foreign name, which the JavaScript spread would add as an extra key, cannot arise from this form.
- Record ids are modelled as integers, so `!==` becomes `!=`. Server records are modelled as the four columns the table shows (lines 119-122). Any other properties they carry are not modelled.
