/** The mounted router of src/bookmarks/bookmarks-router.js: list, create, fetch
    and delete over the shared in-memory bookmark list, which the handlers
    change in place (`push`, `splice`). */
module BookmarksRouter {
  import opened Wrappers
  import opened Js
  import opened Store
  import opened Http

  /** The literal prefix of the `Location` header of a created bookmark. */
  const LocationPrefix := "http://localhost: 8000/bookmark/"

  const InvalidData := Response(400, Text("Invalid data"), None)

  /** The fields destructured from a POST body; a missing field is `Undefined`. */
  datatype RequestBody = RequestBody(title: JsValue, url: JsValue, description: JsValue, rating: JsValue)

  /** Why a POST body is refused; the handler writes this reason to the error
      log, and the response is the same for both. */
  datatype Rejection = TitleRequired | UrlRequired

  /** The POST validation: `title` is checked first, then `url`; `description`
      and `rating` are not checked at all. */
  function Validate(body: RequestBody): (v: Option<Rejection>)
    ensures v.None? <==> Truthy(body.title) && Truthy(body.url)
    ensures !Truthy(body.title) ==> v == Some(TitleRequired)
    ensures Truthy(body.title) && !Truthy(body.url) ==> v == Some(UrlRequired)
  {
    if !Truthy(body.title) then Some(TitleRequired)
    else if !Truthy(body.url) then Some(UrlRequired)
    else None
  }

  /** The router together with the shared list it works on. */
  class Router {
    var bookmarks: seq<Bookmark>

    /** The initial contents of the store are arbitrary. */
    constructor (initial: seq<Bookmark>)
      ensures bookmarks == initial
    {
      bookmarks := initial;
    }

    /** GET /: the whole list, as it is. */
    method GetAll() returns (res: Response)
      ensures res == Response(200, BookmarkListJson(bookmarks), None)
    {
      res := Response(200, BookmarkListJson(bookmarks), None);
    }

    /** POST /: validate, then append a record with the fresh id and echo it. */
    method Post(body: RequestBody, freshId: string) returns (res: Response)
      requires Find(bookmarks, Some(freshId)).None?
      modifies this
      ensures Validate(body).Some? ==> res == InvalidData && bookmarks == old(bookmarks)
      ensures Validate(body).None? ==>
        var created := Bookmark(Some(freshId), body.title, body.url, body.description, body.rating);
        && bookmarks == old(bookmarks) + [created]
        && res == Response(201, BookmarkJson(created), Some(LocationPrefix + freshId))
        && Find(bookmarks, Some(freshId)) == Some(created)
      ensures UniqueIds(old(bookmarks)) ==> UniqueIds(bookmarks)
    {
      if !Truthy(body.title) {
        return InvalidData;
      }
      if !Truthy(body.url) {
        return InvalidData;
      }
      var bookmark := Bookmark(Some(freshId), body.title, body.url, body.description, body.rating);
      if UniqueIds(bookmarks) {
        AppendKeepsUnique(bookmarks, bookmark);
      }
      FindAfterAppend(bookmarks, bookmark, Some(freshId));
      bookmarks := bookmarks + [bookmark];
      res := Response(201, BookmarkJson(bookmark), Some(LocationPrefix + freshId));
    }

    /** The linear search `bookmarks.findIndex(item => item.id == id)`. */
    method IndexOf(id: string) returns (i: int)
      ensures -1 <= i < |bookmarks|
      ensures i == -1 <==> forall k :: 0 <= k < |bookmarks| ==> bookmarks[k].id != Some(id)
      ensures i != -1 ==> bookmarks[i].id == Some(id)
      ensures i == FindIndex(bookmarks, Some(id))
    {
      i := 0;
      while i < |bookmarks|
        invariant 0 <= i <= |bookmarks|
        invariant forall k :: 0 <= k < i ==> bookmarks[k].id != Some(id)
      {
        if bookmarks[i].id == Some(id) {
          return;
        }
        i := i + 1;
      }
      i := -1;
    }

    /** GET /:id: the first record with the id, or 404 'Card Not Found'. */
    method GetById(id: string) returns (res: Response)
      ensures Find(bookmarks, Some(id)).None? ==> res == Response(404, Text("Card Not Found"), None)
      ensures Find(bookmarks, Some(id)).Some? ==>
        res == Response(200, BookmarkJson(Find(bookmarks, Some(id)).value), None)
    {
      var i := IndexOf(id);
      if i == -1 {
        return Response(404, Text("Card Not Found"), None);
      }
      res := Response(200, BookmarkJson(bookmarks[i]), None);
    }

    /** DELETE /:id: remove the first record with the id (204), or 404 'Not Found'. */
    method DeleteById(id: string) returns (res: Response)
      modifies this
      ensures FindIndex(old(bookmarks), Some(id)) == -1 ==>
        res == Response(404, Text("Not Found"), None) && bookmarks == old(bookmarks)
      ensures FindIndex(old(bookmarks), Some(id)) != -1 ==>
        && res == Response(204, Empty, None)
        && bookmarks == RemoveAt(old(bookmarks), FindIndex(old(bookmarks), Some(id)))
        && |bookmarks| == |old(bookmarks)| - 1
      ensures forall other :: other != id ==>
        Find(bookmarks, Some(other)) == Find(old(bookmarks), Some(other))
      ensures UniqueIds(old(bookmarks)) ==> UniqueIds(bookmarks) && Find(bookmarks, Some(id)).None?
    {
      var i := IndexOf(id);
      if i == -1 {
        return Response(404, Text("Not Found"), None);
      }
      if UniqueIds(bookmarks) {
        RemoveKeepsUnique(bookmarks, i);
        FindAfterRemoveFirst(bookmarks, id);
      }
      forall other | other != id
        ensures Find(RemoveAt(bookmarks, i), Some(other)) == Find(bookmarks, Some(other))
      {
        FindAfterRemoveOther(bookmarks, i, Some(other));
      }
      bookmarks := RemoveAt(bookmarks, i);
      res := Response(204, Empty, None);
    }
  }
}
