# Project store of a minimal CRUD service

This project models the in-memory project store of a small Express service. The service keeps one ordered array of `{id, title, owner}` records. Four routes read and change it:

- `GET /projects` lists them, optionally filtered by a `title` substring.
- `POST /projects` appends a record under a freshly generated uuid.
- `PUT /projects/:id` overwrites the first record with that id.
- `DELETE /projects/:id` splices out the first record with that id.

A `validateProjectId` middleware rejects a malformed `:id` before either of the last two handlers runs.

There are two modules:

- `projects.dfy`, module `Projects`, is the model as values. It holds the records, responses and requests. It gives each handler as a function from the store before the call to an `Outcome` (the answer and the store after it), the guard as a middleware function, and `Step`, one request through guard and route. It also holds the lemmas about these functions: substring search, the filter's order, first-match lookup, splice, distinct and valid ids across requests.
- `store.dfy`, module `Store`, is the store as the source keeps it: a `ProjectStore` object whose `projects` field the handlers reassign in place. It holds `FindIndex`, the linear `findIndex` scan, and `Handle`, which runs the middleware chain and then the route. Every method is proved to produce exactly the answer and the new store that the matching function of `Projects` gives. `ApiLifecycle` is a client that drives one record through create, filtered list, update and delete using only those contracts.

The id validator `isUuid` of the uuid library is a parameter `isUuid: string -> bool`. Its definition is unknown to the model. The id that `uuid()` would generate for a POST is a parameter `freshId`. Some statements take hypotheses about these parameters, standing for "the output of uuid() passes isUuid" and "it is new": `StepPreservesInvariant` and `Handle` assume `isUuid(freshId)` and that `freshId` is not yet in the store. `ApiLifecycle` assumes `isUuid(freshId)` and that the string "not-a-uuid" fails `isUuid`.

## Model

| member | source | states |
|---|---|---|
| Projects.IncludesIffOccurs | src/index.js:45 | `Includes(s, sub)` (the case-sensitive `String.prototype.includes`) holds exactly when `sub` occurs in `s` at some start position |
| Projects.Filter | src/index.js:45 | `filter` by title: keeps exactly the records whose title includes the query, each once, in store order (proved in `FilterMembership` and `FilterSelectsMatchesInOrder`); its own contract bounds the result by the store's length |
| Projects.FilterMembership | src/index.js:45 | a record is in the filtered array iff it is in the store and its title contains the query |
| Projects.MatchPositionsAreTheMatches | src/index.js:45 | the reference list of match positions is strictly increasing, lies inside the store, and holds exactly the positions whose title contains the query |
| Projects.FilterSelectsMatchesInOrder | src/index.js:45 | the k-th filtered record is the store record at the k-th match position, and both lists have the same length, so the filter keeps each match once, in store order |
| Projects.List | src/index.js:41-49 | with an absent or empty `title` query the answer is the whole store, in order; otherwise a record is answered iff it is in the store and its title contains the query |
| Projects.ListFilterInOrder | src/index.js:44-46 | with a non-empty query the k-th answered record is the store record at the k-th match position, and there are as many answers as match positions; with `MatchPositionsAreTheMatches` this is exactly the matching records in their original relative order |
| Projects.IndexOf | src/index.js:67 | `findIndex` by id: -1 when no record has the id, otherwise a position holding the id with no earlier position holding it |
| Store.FindIndex | src/index.js:67 | the linear scan returns exactly the first matching position, or -1 |
| Projects.RemoveAt | src/index.js:94 | `splice(k, 1)`: one shorter, positions before `k` unchanged, later ones shifted down by one, and as a multiset exactly the store minus the record at `k` |
| Projects.PostHandler | src/index.js:52-60 | appends exactly one record `{id, title, owner}` at the end, keeps every earlier record, answers the new record, adds exactly `id` to the id set, and keeps ids distinct when `id` is fresh |
| Projects.PutHandler | src/index.js:63-82 | unknown id: "Project not found." and the store unchanged; known id: only the first matching position changes, it keeps its id and gets the new title and owner, the length is unchanged and the new record is answered; the id set is unchanged and distinct ids stay distinct |
| Projects.DeleteHandler | src/index.js:85-97 | unknown id: "Project not found." and the store unchanged; known id: answers 204 and removes exactly the first matching position; no id is added, distinct ids stay distinct, and then the deleted id is gone |
| Projects.Message | src/index.js:30 | each error carries a fixed non-empty text: "Invalid project ID." (line 30) or "Project not found." (lines 70 and 91) |
| Projects.MessageDistinguishesErrors | src/index.js:70 | the two error texts differ, so a client can tell the two 400 answers apart by text alone |
| Projects.ValidateProjectId | src/index.js:26-35 | passes to the next stage iff the id is valid; otherwise answers "Invalid project ID." |
| Projects.Step | src/index.js:37-97 | GET answers the list and leaves the store unchanged. A PUT or DELETE with an invalid id answers "Invalid project ID." and leaves the store unchanged, and no handler runs. Otherwise the request gets exactly its handler's outcome |
| Projects.StepPreservesInvariant | src/index.js:52-97 | every request keeps every id valid and all ids pairwise distinct, provided a POST's generated id is valid and not already in the store |
| Projects.CreateThenFind | src/index.js:55-57 | a record created under a fresh id is then found by `findIndex` at the last position |
| Projects.DeleteTwiceNotFound | src/index.js:88-94 | with distinct ids, deleting the same id a second time answers "Project not found." and changes nothing |
| Projects.UpdateThenListFinds | src/index.js:44-79 | after an update, listing with a query contained in the new title answers the updated record |
| Store.ProjectStore.constructor | src/index.js:8 | the store starts empty |
| Store.ProjectStore.CreateProject | src/index.js:55-57 | the in-place push leaves the store and answer exactly as `PostHandler` says |
| Store.ProjectStore.UpdateProject | src/index.js:67-81 | the scan and indexed assignment leave the store and answer exactly as `PutHandler` says |
| Store.ProjectStore.DeleteProject | src/index.js:88-96 | the scan and splice leave the store and answer exactly as `DeleteHandler` says |
| Store.ProjectStore.Handle | src/index.js:37-97 | guard then route gives exactly `Step`'s answer and store, and keeps the store invariant under the same condition as `StepPreservesInvariant` |

## Left out

- Express plumbing is not modelled: the app, JSON body parsing, route registration and listening on port 3333. It is framework code and network I/O. Requests arrive as a parsed `Request` value.
- The `logRequest` middleware is not modelled. It only writes console output and measures wall-clock time, so it has no effect on answers or on the store.
- HTTP status codes and JSON encoding are left out. `Response` names the outcome instead: `ProjectList` and `ProjectBody` are 200, `NoContent` is 204 and `BadRequest` is 400. `Message` gives the fixed error texts.
- Generating uuids with `uuid()` is randomness inside a library. It becomes the parameter `freshId`. Freshness is never required: it appears only as the hypothesis under which ids stay distinct.
- The uuid grammar of `isUuid` lives inside the uuid library, which is not part of this model. It stays an arbitrary predicate passed as a parameter.
- A body without `title` or `owner` gives JavaScript `undefined` fields, and a later `includes` on an undefined title throws. Titles and owners are modelled as plain strings, so this crash is not modelled.
- A `title` query given more than once (parsed as an array) is not modelled. The query is `None` or a single string, and `None` and `""` both mean "no filter", as falsy values do in the source.
- Requests to `/projects/:id` other than PUT and DELETE are not modelled. The guard also runs for them, but no route answers them.
- Strings are sequences of characters. `includes` compares UTF-16 code units, and no normalisation is modelled. A Dafny `char` is a whole Unicode scalar value, so a query made of half a surrogate pair cannot be written. In JavaScript such a query matches inside an astral character, and the model does not capture that match.
