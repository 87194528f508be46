# Pay-for-Blob endpoint store — a Dafny model

This project models the client-side store of the Pay-for-Blob submission UI
(`src/store/endpointsStore.ts`). The store does two things:

- **Endpoint registry.** It keeps an ordered, persisted list of named endpoints.
  `add` appends to the list and `remove` deletes every entry with a given url.
- **Submission controller.** It has a four-state view status (Idle, Loading,
  Error, Success), an error text and an optional result. `submit` posts a
  transaction to an endpoint and records the outcome. `reset` returns the
  store to Idle.

Modules:

- `Wrappers` (`wrappers.dfy`): `Option`, which stands for a value or `undefined`.
- `JsonValue` (`json.dfy`): an abstract JSON value, with field lookup.
- `Registry` (`registry.dfy`): `Endpoint`, `Add` and `Remove`, and the laws they obey.
- `Submission` (`submission.dfy`): the store state and its actions. The async
  `submit` has two awaits: the `fetch` (line 51) and the body parse (line 64).
  It writes state only before the first await (line 49) and after the second
  (lines 67-73), never between them. So it is modelled as two updates:
  `BeginSubmit` for line 49 and `CompleteSubmit` for lines 64-74. The HTTP
  result is a parameter of type `Outcome`. `JSON.stringify` is a function
  parameter `stringify`.
- `Traces` (`traces.dfy`): sequences of actions. A `Trace` is a list of single
  steps in which submissions may overlap. A `Run` is a list of whole actions in
  which each submission resolves before the next action. This module holds the
  invariants, the requests a trace sends and two counterexamples.

Behaviour of the code that the model keeps as written:

- A 200 response leaves `errorMessage` as it was (line 71), and so does the
  Loading update (line 49). Only `reset` (line 76) clears it.
  `Traces.StaleErrorSurvivesSuccess` shows a Success state that still carries
  the text of an earlier rejection.
- A result is present exactly in Success only while each submission resolves
  before the next begins (`Traces.RunSettled`). Overlapping submissions can end
  in Error while still holding the first result, because the Error updates
  (lines 68 and 73) do not touch `result` (`Traces.OverlapKeepsStaleResult`).
  The invariant that survives every interleaving is `Traces.Coherent`. It says
  that Idle means no error text and no result, and that a result is kept only
  in Success or Error.
- The persistence middleware (lines 33-34 and 78-81) is given no field
  selection, so it stores `viewStatus`, `errorMessage` and `result` as well as
  `endpoints`. The page calls `reset` on mount (`src/App.tsx:46-48`).
  `Traces.ResetSettles` shows that `reset` settles any state, whatever was
  restored.

## Model

| member | source | states |
|---|---|---|
| Registry.Add | src/store/endpointsStore.ts:39-43 | The new endpoint is placed last. Every earlier entry keeps its place. The length grows by one, and the multiset gains exactly that endpoint. |
| Registry.Remove | src/store/endpointsStore.ts:44-47 | No surviving entry has the url. The length drops by the number of entries with that url. |
| Registry.RemoveKeepsOthers | src/store/endpointsStore.ts:45 | An endpoint survives exactly when it was present and its url differs. Each survivor keeps its multiplicity, duplicates included. |
| Registry.RemoveConcat | src/store/endpointsStore.ts:45 | Removal distributes over concatenation, so survivors keep their original relative order. |
| Registry.RemoveNoOp | src/store/endpointsStore.ts:45 | `remove(u)` leaves the list unchanged if and only if no entry has url `u`. |
| Registry.RemoveIdempotent | src/store/endpointsStore.ts:45 | Removing a url twice is the same as removing it once. |
| Registry.RemoveCommutes | src/store/endpointsStore.ts:45 | Removals of two urls give the same list in either order. |
| Registry.RemoveAfterAdd | src/store/endpointsStore.ts:39-47 | After an add, remove drops the new entry if its url matches and otherwise keeps it last. |
| Registry.RemoveUndoesAdd | src/store/endpointsStore.ts:39-47 | Removing the url of a just-added endpoint gives the same list as removing that url before the add. |
| Registry.AddTwiceKeepsBoth | src/store/endpointsStore.ts:39-43 | There is no deduplication. Adding the same endpoint twice stores two equal entries. |
| Registry.AddThenRemoveFromEmpty | src/store/endpointsStore.ts:39-47 | From an empty list, adding {A, http://x} and then removing http://x leaves the list empty. |
| Submission.FromCode | src/store/endpointsStore.ts:4-9 | A number is a status exactly when it is 0 to 3, and it reads back to the enum member with that value. |
| Submission.CodeRoundTrip | src/store/endpointsStore.ts:4-9 | Each status has a code in 0..3 that reads back to the same status. |
| Submission.Initial | src/store/endpointsStore.ts:35-38 | The store starts Idle, with an empty error text, no result and no endpoints. |
| Submission.AddEndpoint | src/store/endpointsStore.ts:39-43 | `add` changes only the endpoint list, and it changes it as `Registry.Add` does. |
| Submission.RemoveEndpoint | src/store/endpointsStore.ts:44-47 | `remove` changes only the endpoint list, and it changes it as `Registry.Remove` does. |
| Submission.RequestBody | src/store/endpointsStore.ts:56-61 | The body is an object with keys namespace_id, data, gas_limit and fee, in that order. They hold the transaction's namespace id and data, then 80000 and 2000. |
| Submission.RequestBodyFaithful | src/store/endpointsStore.ts:56-61 | Two bodies are equal exactly when the transactions are equal. The gas limit and fee are the same for every transaction. |
| Submission.Request | src/store/endpointsStore.ts:51-62 | The request is a POST to the selected url with content type `application/json;charset=UTF-8`, and its body is the request body. |
| Submission.BeginSubmit | src/store/endpointsStore.ts:49 | From any state: the status becomes Loading and the result is cleared. The error text and the endpoints are unchanged. |
| Submission.CompleteSubmit | src/store/endpointsStore.ts:64-74 | Success exactly for status 200, and then the result is the body and the error text is kept. Error otherwise. For other statuses the error text is the serialised body. For a thrown value it is the serialised value. In both Error cases the result is not touched. Endpoints are unchanged. |
| Submission.Submit | src/store/endpointsStore.ts:48-75 | A submission that resolves before anything else never ends Loading, and it holds a result exactly when it ends in Success. |
| Submission.Reset | src/store/endpointsStore.ts:76 | From any state: Idle, no result and an empty error text. Endpoints are unchanged. |
| Submission.ResetAbsorbs | src/store/endpointsStore.ts:49-76 | `reset` is idempotent. A reset after either half of a submission gives the same state as a reset alone. |
| Submission.FailedSubmitLeavesNoResult | src/store/endpointsStore.ts:48-74 | A submission that resolves to Error leaves no result, and its error text is the serialised body or the serialised thrown value. |
| Traces.InitialSettled | src/store/endpointsStore.ts:35-38 | The initial store satisfies the settled invariant. |
| Traces.ResetSettles | src/store/endpointsStore.ts:76 | After `reset`, any state satisfies the settled invariant. |
| Traces.ApplyCoherent | src/store/endpointsStore.ts:39-76 | Every single step keeps the store coherent. Coherent means Idle has no error text and no result, and a result appears only in Success or Error. |
| Traces.TraceCoherent | src/store/endpointsStore.ts:39-76 | Coherence holds after any interleaving of steps, overlapping submissions included. |
| Traces.ApplyActionSettled | src/store/endpointsStore.ts:39-76 | Every whole action keeps the store settled. Settled means coherent, not Loading, and a result present exactly in Success. |
| Traces.RunSettled | src/store/endpointsStore.ts:39-76 | Any run of non-overlapping actions from a settled state ends settled. |
| Traces.EndpointsOnlyFromRegistry | src/store/endpointsStore.ts:39-76 | After any trace, the endpoint list is what the add and remove steps alone produce. Submit and reset never touch it. |
| Traces.RequestsOfRun | src/store/endpointsStore.ts:48-62 | A run of whole actions sends exactly one request per submission, in order: a POST of that submission's transaction to that submission's url. |
| Traces.StaleErrorSurvivesSuccess | src/store/endpointsStore.ts:49-71 | For every serialiser, a rejected submission followed by a successful one ends in Success whose error text is the serialised rejection body. With a serialiser that returns a non-empty text, that text is non-empty. |
| Traces.OverlapKeepsStaleResult | src/store/endpointsStore.ts:48-74 | Two overlapping submissions, answered 200 and then 400, end in Error that still holds the first result, so the state is not settled. |

## Left out

- The `fetch` call, its headers on the wire and network behaviour (lines 51-62). The request is built by `Submission.Request`; its result is the `Outcome` parameter.
- `response.json()` parsing (line 64). A body that is not JSON makes the call throw, which lands in `Outcome.Failure`.
- The output format of `JSON.stringify`. It is the function parameter `stringify`, so nothing is claimed about the text it produces.
- The thrown value in the `catch` block (line 72) may be any JavaScript value. It is represented as a `Json` value.
- Non-integral JSON numbers. `Json` numbers are integers.
- The state container and its persistence to session storage under `"endpoints-storage"` (lines 32-34 and 78-81). This is framework plumbing.
- `console.log` (line 65).
- Asynchronous scheduling. Overlap is modelled only as an interleaving of `BeginStep` and `CompleteStep` in a `Trace`.
- `src/App.tsx`: form wiring and its guards. These are: submit only with a selected url, clear the selection after remove, hide Remove for "andromeda" urls, reset on mount, and the hard-coded public endpoint.
- `src/components/Modal.tsx`: presentational markup.
