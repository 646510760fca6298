/** The in-memory post repository: rows keyed by id, soft delete, counters, listings. */
module Posts {
  import opened Text
  import opened Order
  import opened Paging
  import opened Wrappers

  datatype Post = Post(
    id: Str,
    userID: Str,
    parent: Option<Str>,
    root: Option<Str>,
    likes: nat,
    replies: nat,
    deleted: bool)

  type Store = map<Str, Post>

  /** The three listings: the feed, a union of authors, direct replies. */
  datatype Filter = Feed(user: Option<Str>) | Authors(users: set<Str>) | Replies(of: Str)

  predicate Matches(f: Filter, p: Post) {
    && !p.deleted
    && match f
       case Feed(user) => (user.Some? ==> p.userID == user.value) && p.parent.None?
       case Authors(users) => p.userID in users && p.parent.None?
       case Replies(of) => p.parent == Some(of)
  }

  predicate Live(store: Store, id: Str) {
    id in store && !store[id].deleted
  }

  function Get(store: Store, id: Str): Option<Post> {
    if Live(store, id) then Some(store[id]) else None
  }

  function Deleted(store: Store, id: Str): Store {
    if id in store then store[id := store[id].(deleted := true)] else store
  }

  function RepliesUp(store: Store, id: Str): Store {
    if Live(store, id) then store[id := store[id].(replies := store[id].replies + 1)] else store
  }

  function RepliesDown(store: Store, id: Str): Store {
    if Live(store, id) && store[id].replies > 0
    then store[id := store[id].(replies := store[id].replies - 1)] else store
  }

  function LikesUp(store: Store, id: Str): Store {
    if Live(store, id) then store[id := store[id].(likes := store[id].likes + 1)] else store
  }

  function LikesDown(store: Store, id: Str): Store {
    if Live(store, id) && store[id].likes > 0
    then store[id := store[id].(likes := store[id].likes - 1)] else store
  }

  function Matching(store: Store, f: Filter): set<Str> {
    set id | id in store && Matches(f, store[id])
  }

  /** Ids below an exclusive upper bound. */
  function Below(cursor: Option<Str>, ids: set<Str>): set<Str> {
    set id | id in ids && (cursor.Some? ==> Less(id, cursor.value))
  }

  /** A set of ids, largest first. */
  ghost function SortDown(ids: set<Str>): (r: seq<Str>)
    ensures Elems(r) == ids
  {
    LessIsStrictTotal();
    Sort(Greater, ids)
  }

  ghost function Descending(store: Store, f: Filter, cursor: Option<Str>): seq<Str> {
    SortDown(Below(cursor, Matching(store, f)))
  }

  function Rows(store: Store, ids: seq<Str>): (r: seq<Post>)
    requires forall id :: id in ids ==> id in store
    ensures |r| == |ids| && forall i :: 0 <= i < |ids| ==> r[i] == store[ids[i]]
  {
    if ids == [] then [] else [store[ids[0]]] + Rows(store, ids[1..])
  }

  lemma DescendingInStore(store: Store, f: Filter, cursor: Option<Str>)
    ensures forall id :: id in Descending(store, f, cursor) ==> id in store && Matches(f, store[id])
  {
    forall id | id in Descending(store, f, cursor) ensures id in store && Matches(f, store[id]) {
      ElemsMembership(Descending(store, f, cursor), id);
    }
  }

  /** One turn of a loop that moves the wanted elements of `todo` into `got`. */
  lemma CollectOne<T>(got: set<T>, todo: set<T>, wanted: set<T>, x: T)
    requires x in todo && got !! todo && got + todo * wanted == wanted
    ensures var got' := if x in wanted then got + {x} else got;
      got' !! (todo - {x}) && got' + (todo - {x}) * wanted == wanted
  {}

  /** One page and the string cursor of the next, "" when there is none. */
  ghost function List(store: Store, f: Filter, cursor: Option<Str>, limit: int): (seq<Post>, Str) {
    DescendingInStore(store, f, cursor);
    var page := Paginate(Descending(store, f, cursor), limit);
    (Rows(store, page.items), if page.next.Some? then page.next.value else [])
  }

  class PostRepository {
    var posts: Store

    constructor ()
      ensures posts == map[]
    {
      posts := map[];
    }

    method GetByID(id: Str) returns (p: Option<Post>)
      ensures p == Get(posts, id)
    {
      if id in posts && !posts[id].deleted {
        p := Some(posts[id]);
      } else {
        p := None;
      }
    }

    method Create(post: Post)
      modifies this
      ensures posts == old(posts)[post.id := post]
    {
      posts := posts[post.id := post];
    }

    method Delete(id: Str)
      modifies this
      ensures posts == Deleted(old(posts), id)
    {
      if id in posts {
        posts := posts[id := posts[id].(deleted := true)];
      }
    }

    method IncrementRepliesCount(id: Str)
      modifies this
      ensures posts == RepliesUp(old(posts), id)
    {
      if id in posts && !posts[id].deleted {
        posts := posts[id := posts[id].(replies := posts[id].replies + 1)];
      }
    }

    method DecrementRepliesCount(id: Str)
      modifies this
      ensures posts == RepliesDown(old(posts), id)
    {
      if id in posts && !posts[id].deleted && posts[id].replies > 0 {
        posts := posts[id := posts[id].(replies := posts[id].replies - 1)];
      }
    }

    method IncrementLikesCount(id: Str)
      modifies this
      ensures posts == LikesUp(old(posts), id)
    {
      if id in posts && !posts[id].deleted {
        posts := posts[id := posts[id].(likes := posts[id].likes + 1)];
      }
    }

    method DecrementLikesCount(id: Str)
      modifies this
      ensures posts == LikesDown(old(posts), id)
    {
      if id in posts && !posts[id].deleted && posts[id].likes > 0 {
        posts := posts[id := posts[id].(likes := posts[id].likes - 1)];
      }
    }

    /** Walk the map in whatever order, keep the matches, sort them. */
    method CollectDescending(f: Filter, cursor: Option<Str>) returns (ids: seq<Str>)
      ensures ids == Descending(posts, f, cursor)
    {
      var todo := posts.Keys;
      var found: seq<Str> := [];
      ghost var wanted := Below(cursor, Matching(posts, f));
      while todo != {}
        invariant todo <= posts.Keys
        invariant Distinct(found) && Elems(found) !! todo
        invariant Elems(found) + todo * wanted == wanted
        decreases |todo|
      {
        var id :| id in todo;
        assert id in wanted <==> Matches(f, posts[id]) && (cursor.None? || Less(id, cursor.value));
        CollectOne(Elems(found), todo, wanted, id);
        todo := todo - {id};
        if Matches(f, posts[id]) && (cursor.None? || Less(id, cursor.value)) {
          AppendFresh(found, id);
          found := found + [id];
        }
      }
      assert Elems(found) == wanted;
      assert InsertAll(Greater, found) == SortDown(Elems(found)) by {
        LessIsStrictTotal();
        InsertAllIsSort(Greater, found);
      }
      ids := InsertAll(Greater, found);
    }

    method ListBy(f: Filter, cursor: Option<Str>, limit: int) returns (page: seq<Post>, next: Str)
      ensures (page, next) == List(posts, f, cursor, limit)
    {
      var ids := CollectDescending(f, cursor);
      DescendingInStore(posts, f, cursor);
      if limit <= 0 {
        return [], [];
      }
      if |ids| <= limit {
        return Rows(posts, ids), [];
      }
      page := Rows(posts, ids[..limit]);
      next := ids[limit - 1];
    }
  }
}
