/** The shared in-memory bookmark list (`bookmarks` of the store module) and the
    array operations the routers perform on it: `find`, `findIndex` and
    `splice(i, 1)`, with the facts about them that the handlers rely on. */
module Store {
  import opened Wrappers
  import opened Js

  /** A stored record `{id, title, url, description, rating}`. An `id` of `None`
      is a record whose `id` is `undefined` or `null`. */
  datatype Bookmark = Bookmark(
    id: Option<string>,
    title: JsValue,
    url: JsValue,
    description: JsValue,
    rating: JsValue)

  /** The routers' test `b.id == key`. With string ids and a string or
      `undefined` key, JavaScript's loose equality is plain equality, where
      `undefined == null` holds. */
  predicate HasId(b: Bookmark, key: Option<string>)
    ensures key.None? ==> (HasId(b, key) <==> b.id.None?)
    ensures key.Some? ==> (HasId(b, key) <==> b.id.Some? && b.id.value == key.value)
  {
    b.id == key
  }

  /** `s.findIndex(b => b.id == key)`: the position of the first match, or -1. */
  function FindIndex(s: seq<Bookmark>, key: Option<string>): (r: int)
    ensures -1 <= r < |s|
    ensures r == -1 <==> forall k :: 0 <= k < |s| ==> !HasId(s[k], key)
    ensures r != -1 ==> HasId(s[r], key) && forall k :: 0 <= k < r ==> !HasId(s[k], key)
    decreases |s|
  {
    if |s| == 0 then -1
    else if HasId(s[0], key) then 0
    else
      var r := FindIndex(s[1..], key);
      if r == -1 then -1 else r + 1
  }

  /** `s.find(b => b.id == key)`: the first matching record, or `undefined`. */
  function Find(s: seq<Bookmark>, key: Option<string>): (r: Option<Bookmark>)
    ensures r.None? <==> forall k :: 0 <= k < |s| ==> !HasId(s[k], key)
    ensures r.Some? ==> r.value in s && HasId(r.value, key)
    ensures r.Some? ==> r.value == s[FindIndex(s, key)]
  {
    var i := FindIndex(s, key);
    if i == -1 then None else Some(s[i])
  }

  /** `s.splice(i, 1)`: the list without its `i`-th element, the others in order. */
  function RemoveAt(s: seq<Bookmark>, i: nat): (r: seq<Bookmark>)
    requires i < |s|
    ensures |r| == |s| - 1
    ensures forall k :: 0 <= k < i ==> r[k] == s[k]
    ensures forall k :: i <= k < |r| ==> r[k] == s[k + 1]
    ensures multiset(r) + multiset{s[i]} == multiset(s)
  {
    assert s == s[..i] + [s[i]] + s[i + 1..];
    s[..i] + s[i + 1..]
  }

  /** No two records share an id (records without an id are not constrained). */
  predicate UniqueIds(s: seq<Bookmark>)
  {
    forall i, j :: 0 <= i < j < |s| && s[i].id.Some? ==> s[i].id != s[j].id
  }

  /** Appending a record only matters to a lookup that found nothing before. */
  lemma {:induction false} FindAfterAppend(s: seq<Bookmark>, b: Bookmark, key: Option<string>)
    ensures Find(s + [b], key) ==
      if Find(s, key).Some? then Find(s, key)
      else if HasId(b, key) then Some(b)
      else None
  {
    var t := s + [b];
    var r := FindIndex(s, key);
    assert forall k :: 0 <= k < |s| ==> t[k] == s[k];
    if r == -1 {
      if HasId(b, key) {
        assert HasId(t[|s|], key);
        assert FindIndex(t, key) == |s|;
      }
    } else {
      assert HasId(t[r], key);
      assert FindIndex(t, key) == r;
    }
  }

  /** Removing a record that does not match `key` leaves the lookup of `key`
      unchanged. */
  lemma {:induction false} FindAfterRemoveOther(s: seq<Bookmark>, i: nat, key: Option<string>)
    requires i < |s|
    requires !HasId(s[i], key)
    ensures Find(RemoveAt(s, i), key) == Find(s, key)
  {
    var t := RemoveAt(s, i);
    var r := FindIndex(s, key);
    if r == -1 {
      assert forall k :: 0 <= k < |t| ==> !HasId(t[k], key) by {
        forall k | 0 <= k < |t| ensures !HasId(t[k], key) {
          if k < i { assert t[k] == s[k]; } else { assert t[k] == s[k + 1]; }
        }
      }
    } else if r < i {
      assert t[r] == s[r];
      assert FindIndex(t, key) == r;
    } else {
      assert t[r - 1] == s[r];
      assert forall k :: 0 <= k < r - 1 ==> !HasId(t[k], key) by {
        forall k | 0 <= k < r - 1 ensures !HasId(t[k], key) {
          if k < i { assert t[k] == s[k]; } else { assert t[k] == s[k + 1]; }
        }
      }
      assert FindIndex(t, key) == r - 1;
    }
  }

  /** With unique ids, once the first record with an id is removed no record with
      that id is left. */
  lemma FindAfterRemoveFirst(s: seq<Bookmark>, id: string)
    requires UniqueIds(s)
    requires FindIndex(s, Some(id)) != -1
    ensures Find(RemoveAt(s, FindIndex(s, Some(id))), Some(id)) == None
  {
  }

  /** Appending a record whose id is not yet used keeps ids unique. */
  lemma AppendKeepsUnique(s: seq<Bookmark>, b: Bookmark)
    requires UniqueIds(s)
    requires b.id.Some? ==> Find(s, b.id).None?
    ensures UniqueIds(s + [b])
  {
  }

  /** Removing any record keeps ids unique. */
  lemma RemoveKeepsUnique(s: seq<Bookmark>, i: nat)
    requires i < |s|
    requires UniqueIds(s)
    ensures UniqueIds(RemoveAt(s, i))
  {
  }
}
