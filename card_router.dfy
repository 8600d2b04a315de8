/** The older, unmounted router of src/bookmark/bookmark-router.js (`cardRouter`).
    It only reads the shared list. Its fetch route declares the parameter
    `:bookmarkId` but reads `req.params.id`, so the key it searches for is
    always `undefined`. */
module CardRouter {
  import opened Wrappers
  import opened Js
  import opened Store
  import opened Http

  const CardNotFound := Response(404, Text("Card Not Found"), None)

  /** `req.params` for the route '/:bookmarkId': one entry per declared name. */
  function RouteParams(bookmarkId: string): (params: map<string, string>)
    ensures params.Keys == {"bookmarkId"} && params["bookmarkId"] == bookmarkId
  {
    map["bookmarkId" := bookmarkId]
  }

  /** `req.params[name]`: `undefined` for a name the route does not declare. */
  function Param(params: map<string, string>, name: string): (r: Option<string>)
    ensures r.Some? <==> name in params
    ensures r.Some? ==> r.value == params[name]
  {
    if name in params then Some(params[name]) else None
  }

  /** GET /: the whole shared list, as it is. */
  function GetAll(store: seq<Bookmark>): (res: Response)
    ensures res.status == 200 && res.body == BookmarkListJson(store) && res.location == None
  {
    Response(200, BookmarkListJson(store), None)
  }

  /** GET /:bookmarkId: looks up `req.params.id` with `find`. */
  function GetById(store: seq<Bookmark>, bookmarkId: string): (res: Response)
    ensures res == CardNotFound || (res.status == 200 && res.body.BookmarkJson? && res.location == None)
    ensures res.status == 200 ==> res.body.bookmark in store && res.body.bookmark.id.None?
  {
    var id := Param(RouteParams(bookmarkId), "id");
    match Find(store, id)
    case None => CardNotFound
    case Some(bookmark) => Response(200, BookmarkJson(bookmark), None)
  }

  /** The key the fetch handler searches for is `undefined`, whatever the URL. */
  lemma LookupKeyIsUndefined(bookmarkId: string)
    ensures Param(RouteParams(bookmarkId), "id") == None
  {
  }

  /** When every record has an id, every fetch answers 404 'Card Not Found'. */
  lemma AlwaysNotFound(store: seq<Bookmark>, bookmarkId: string)
    requires forall k :: 0 <= k < |store| ==> store[k].id.Some?
    ensures GetById(store, bookmarkId) == CardNotFound
  {
  }

  /** A record without an id is found: the fetch answers with the first such
      record, whatever the URL says. */
  lemma FindsFirstWithoutId(store: seq<Bookmark>, bookmarkId: string, j: nat)
    requires j < |store| && store[j].id.None?
    ensures GetById(store, bookmarkId) == Response(200, BookmarkJson(store[FindIndex(store, None)]), None)
    ensures FindIndex(store, None) <= j
  {
  }

  /** The fetch as evidently intended: look up the declared parameter
      `bookmarkId`. */
  function GetByIdIntended(store: seq<Bookmark>, bookmarkId: string): (res: Response)
    ensures Find(store, Some(bookmarkId)).None? ==> res == CardNotFound
    ensures Find(store, Some(bookmarkId)).Some? ==>
      res == Response(200, BookmarkJson(Find(store, Some(bookmarkId)).value), None)
  {
    match Find(store, Param(RouteParams(bookmarkId), "bookmarkId"))
    case None => CardNotFound
    case Some(bookmark) => Response(200, BookmarkJson(bookmark), None)
  }

  /** When every record has an id and one has the requested id, the fetch as
      written misses it and the intended one finds the first record with it. */
  lemma StoredRecordMissed(store: seq<Bookmark>, bookmarkId: string)
    requires forall k :: 0 <= k < |store| ==> store[k].id.Some?
    requires Find(store, Some(bookmarkId)).Some?
    ensures GetById(store, bookmarkId) == CardNotFound
    ensures GetByIdIntended(store, bookmarkId) == Response(200, BookmarkJson(Find(store, Some(bookmarkId)).value), None)
  {
    AlwaysNotFound(store, bookmarkId);
  }

  /** DELETE /:bookmarkId: answers 204 with no body for every id and touches no
      record. */
  function DeleteById(bookmarkId: string): (res: Response)
    ensures res.status == 204 && res.body == Empty && res.location == None
  {
    Response(204, Empty, None)
  }
}
