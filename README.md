# Bookmark service: in-memory store, routers and bearer-token gate

A Dafny model of the request-handling core of a small Express bookmark
service. Bookmarks `{id, title, url, description, rating}` live in one shared,
module-level list. The mounted router (`bookmarksRouter`) lists them,
creates one (checking `title`, then `url`, appending with a fresh id), fetches
the first with a given id, and deletes the first with a given id with `splice`.
An older, unmounted router (`cardRouter`) lists and fetches, and has a no-op
delete. In front of every route, the application checks a bearer token, and a
final handler turns an unexpected error into a 500 response whose body depends
on `NODE_ENV`.

Modules:

- `Wrappers`: `Option`; `None` is a JavaScript `undefined`.
- `Js`: request-body values and truthiness, and `String.prototype.split` with a
  one-character separator together with its inverse `Join` and the round-trip
  lemmas in both directions. It also has array indexing that yields
  `undefined` past the end.
- `Store`: the bookmark record and the list operations `find`, `findIndex` and
  `splice(i, 1)`. Lemmas state how a lookup changes when a record is appended
  or removed, and that appends of fresh ids and removals keep ids unique.
- `Http`: responses as status, body and `Location` header.
- `BookmarksRouter`: class `Router`, whose field `bookmarks` is the shared list.
  `Post` and `DeleteById` reassign that field (`push`, `splice`). `IndexOf` is
  the linear `findIndex` loop. Every handler's `ensures` gives the response and
  the new list in terms of the old one.
- `CardRouter`: the unmounted router, as pure functions over the list.
- `App`: `morganOption`, `validateBearerToken` and `errorHandler`.

The uuid generator is a parameter, `freshId`. The caller must supply an id that
is not already in the list. The configured `NODE_ENV` and `API_TOKEN` are
parameters too, with `None` for an unset value. The initial list is arbitrary
(`Router.constructor`).

## Model

| member | source | states |
|---|---|---|
| `Js.Split` | src/app.js:23 | `header.split(' ')` always has at least one piece, and no piece contains the separator |
| `Js.At` | src/app.js:23 | indexing past the end of the split array gives `undefined`; otherwise it gives the element |
| `Js.SplitJoin` | src/app.js:23 | joining the pieces of a split with the separator gives back the original header |
| `Js.JoinSplit` | src/app.js:23 | pieces without the separator, joined and split again, come back unchanged, empty pieces included |
| `Js.SplitNoSeparator` | src/app.js:23 | a header without a space splits into itself alone, so element [1] is missing |
| `Js.SplitAfterWord` | src/app.js:23 | the first space ends element [0]; the rest of the header is split on its own |
| `Js.Truthy` | src/bookmarks/bookmarks-router.js:18-25 | the tests `!title` and `!url` hold exactly for `undefined`, `null`, `false`, `0` and `''` |
| `Store.HasId` | src/bookmarks/bookmarks-router.js:56 | `b.id == key` with string ids: an `undefined` key matches exactly the records whose id is `undefined` or `null`, a string key exactly the records with that string id |
| `Store.FindIndex` | src/bookmarks/bookmarks-router.js:69 | `findIndex` gives -1 exactly when no record has the id, and otherwise the position of the first record that has it |
| `Store.Find` | src/bookmarks/bookmarks-router.js:56 | `find` gives nothing exactly when no record has the id, and otherwise the first stored record with that id (the one at `FindIndex`) |
| `Store.RemoveAt` | src/bookmarks/bookmarks-router.js:78 | `splice(i, 1)` shortens the list by one, keeps the other records in their order, and removes exactly one copy of the i-th record |
| `Store.FindAfterAppend` | src/bookmarks/bookmarks-router.js:42-64 | after a `push`, a lookup that found a record finds the same one; a lookup that found nothing finds the new record if it has the id |
| `Store.FindAfterRemoveOther` | src/bookmarks/bookmarks-router.js:69-78 | removing a record with a different id does not change a lookup |
| `Store.FindAfterRemoveFirst` | src/bookmarks/bookmarks-router.js:69-78 | with unique ids, after the first record with an id is removed, no record with that id remains |
| `Store.AppendKeepsUnique` | src/bookmarks/bookmarks-router.js:32-42 | appending a record whose id is unused keeps ids unique |
| `Store.RemoveKeepsUnique` | src/bookmarks/bookmarks-router.js:78 | removing any record keeps ids unique |
| `BookmarksRouter.Validate` | src/bookmarks/bookmarks-router.js:16-30 | a body is accepted exactly when `title` and `url` are both truthy; a falsy title is reported first, a falsy url only when the title passed; `description` and `rating` are never looked at |
| `BookmarksRouter.Router.constructor` | src/bookmarks/bookmarks-router.js:5 | the router starts on an arbitrary shared list |
| `BookmarksRouter.Router.GetAll` | src/bookmarks/bookmarks-router.js:12-14 | GET / answers 200 with the whole list, unchanged |
| `BookmarksRouter.Router.Post` | src/bookmarks/bookmarks-router.js:15-50 | an invalid body gives 400 'Invalid data' and leaves the list unchanged. Otherwise the list becomes the old list plus one record with the fresh id and the body's four fields exactly as sent. The answer is 201 with that record, and the value given to `res.location` is `http://localhost: 8000/bookmark/<id>`. A fetch of the id now finds the record, and unique ids stay unique |
| `BookmarksRouter.Router.IndexOf` | src/bookmarks/bookmarks-router.js:69 | the linear search returns -1 exactly when no record has the id, and otherwise the first position that has it |
| `BookmarksRouter.Router.GetById` | src/bookmarks/bookmarks-router.js:54-65 | GET /:id answers 200 with the first record with the id, or 404 'Card Not Found' when there is none; the list is not modified |
| `BookmarksRouter.Router.DeleteById` | src/bookmarks/bookmarks-router.js:66-84 | with no match: 404 'Not Found' and the list unchanged. Otherwise: 204, and exactly the first match is removed, so the length drops by one and the order is kept. Lookups of every other id are unaffected. With unique ids, the id is gone afterwards and ids stay unique |
| `CardRouter.RouteParams` | src/bookmark/bookmark-router.js:17 | the route `'/:bookmarkId'` fills `req.params` with the single name `bookmarkId`, bound to the URL segment |
| `CardRouter.Param` | src/bookmark/bookmark-router.js:19 | reading a route parameter the route does not declare gives `undefined` |
| `CardRouter.GetAll` | src/bookmark/bookmark-router.js:12-14 | GET / answers 200 with the whole shared list, unchanged |
| `CardRouter.GetById` | src/bookmark/bookmark-router.js:17-29 | GET /:bookmarkId answers 404 'Card Not Found', or 200 with a stored record that has no id |
| `CardRouter.LookupKeyIsUndefined` | src/bookmark/bookmark-router.js:17-19 | the route declares `:bookmarkId`, so `req.params.id` is `undefined` for every URL |
| `CardRouter.AlwaysNotFound` | src/bookmark/bookmark-router.js:20-27 | when every record has an id, every fetch answers 404 'Card Not Found' |
| `CardRouter.FindsFirstWithoutId` | src/bookmark/bookmark-router.js:20-28 | when some record lacks an id, the fetch answers 200 with the first such record, whatever the URL |
| `CardRouter.GetByIdIntended` | src/bookmark/bookmark-router.js:17-29 | reading the declared `bookmarkId` instead: 200 with the first record with that id, or 404 'Card Not Found' |
| `CardRouter.StoredRecordMissed` | src/bookmark/bookmark-router.js:19-20 | for a list in which every record has an id and some record has id `x`, GET /x answers 404 as written, and as intended 200 with the first record with id `x` |
| `CardRouter.DeleteById` | src/bookmark/bookmark-router.js:30-35 | DELETE /:bookmarkId answers 204 with an empty body for every id and takes no list, so nothing changes |
| `App.MorganOption` | src/app.js:14-15 | the log format is 'tiny' exactly when `NODE_ENV` is 'production', and 'common' otherwise |
| `App.ValidateBearerToken` | src/app.js:21-29 | the gate either calls `next()` once and writes nothing, or answers 401 `{error: 'Unauthorized request'}` and stops; a missing header is always refused, and only a present, non-empty header can pass |
| `App.BearerAcceptedIff` | src/app.js:23 | for a header `<scheme> <credential>`, the request passes exactly when a token is configured and equals the credential; with no token configured it is refused, since element [1] is a string and not `undefined` |
| `App.SchemeIgnored` | src/app.js:23 | the scheme word (element [0]) never influences the decision |
| `App.TrailingTokensIgnored` | src/app.js:23 | words after the credential never influence the decision |
| `App.NoSpaceRejected` | src/app.js:23 | with a configured token, a header without a space is refused, because element [1] is `undefined` |
| `App.DoubleSpaceRejected` | src/app.js:23 | with a configured non-empty token, two spaces after the scheme make element [1] `''`, and the header is refused |
| `App.UnsetTokenAcceptsOneWord` | src/app.js:23 | with no token configured, any non-empty header without a space passes (`undefined !== undefined` is false) |
| `App.ErrorHandler` | src/app.js:33-42 | always 500. The body is `{error:{message:'server error'}}` exactly in production, and `{message: error.message, error}` otherwise |

## Findings

| source | as written | input that shows it | evidently intended | confidence | as-written member | corrected member |
|---|---|---|---|---|---|---|
| src/bookmark/bookmark-router.js:17-20 | the route declares `:bookmarkId` but the handler reads `req.params.id`, which is always `undefined` | a list in which every record has an id, one of them `'x'` (for example `[{id: 'x'}]`), and `GET /x`: the answer is 404 'Card Not Found' | look up `req.params.bookmarkId` and answer 200 with the first record with that id | high, not executed | `CardRouter.GetById` (with `CardRouter.StoredRecordMissed`) | `CardRouter.GetByIdIntended` |

The router with this mistake is not mounted by the application, so nothing
else in the model calls either version.

## Left out

- Logging (`logger.error`, `logger.info`) is fire-and-forget and is not modelled. The POST handler's two log messages are kept only as `Rejection`, the reason `Validate` reports.
- `uuid()` is replaced by the `freshId` parameter. `Router.Post` requires that the id is not already in the list, as a v4 uuid is assumed to be.
- Ids in the list are strings or absent (`undefined`/`null`). JavaScript's loose `==` between a numeric id and a string key, which converts types, is not modelled.
- Request-body values are `undefined`, `null`, booleans, real numbers and strings. NaN, objects and arrays are not modelled. For an object or array, truthiness is always true.
- The list is a sequence field of `Router`. Its sharing with `cardRouter`, which also requires the store module, is modelled by passing the same sequence to the `CardRouter` functions. Aliasing is not modelled.
- The `Location` header and the response bodies are modelled as values. The `Location` value is the string given to `res.location`; the percent-encoding Express applies to it (the space becomes `%20`) is not modelled. How Express serialises them (`res.json` of an `Error` object, for example) is not modelled.
- Express routing, `express.json()` body parsing, morgan, helmet and cors are not modelled. `App.MorganOption` only chooses the format.
- `dotenv` and config loading are not modelled, and neither is the initial content of the store module. `NODE_ENV`, `API_TOKEN` and the initial list are parameters.
- `src/bookmarks/bookmarks-service.js` holds thin query-builder calls whose behaviour lives in the database, so it is not modelled.
- Behaviour that only the endpoint tests expect and no handler implements is not modelled. This covers the rating range, URL format checks, sanitisation, PATCH, JSON `{error:{message}}` 404 bodies and the `/api/bookmarks/<id>` location. The handlers answer with plain-text 400/404 bodies and the literal `http://localhost: 8000/bookmark/` prefix, and the model follows them.
