/** Likes: the row store, the two use cases, and their interleaved ledger. */
module Likes {
  import opened Text
  import opened Posts
  import opened Wrappers

  /** created_at by user, then by post. */
  type LikeMap = map<Str, map<Str, int>>

  /** The (user, post) rows. */
  function RowsOf(likes: LikeMap): set<(Str, Str)> {
    set u, x | u in likes && x in likes[u] :: (u, x)
  }

  class LikeRepository {
    var likes: LikeMap

    ghost function Rows(): set<(Str, Str)>
      reads this
    {
      RowsOf(likes)
    }

    constructor ()
      ensures Rows() == {}
    {
      likes := map[];
    }

    method Create(user: Str, post: Str, now: int) returns (inserted: bool)
      modifies this
      ensures inserted == ((user, post) !in old(Rows()))
      ensures Rows() == old(Rows()) + {(user, post)}
    {
      if user !in likes {
        likes := likes[user := map[]];
      }
      assert Rows() == old(Rows());
      if post in likes[user] {
        assert (user, post) in old(Rows());
        return false;
      }
      likes := likes[user := likes[user][post := now]];
      inserted := true;
      assert forall r :: r in Rows() <==> r in old(Rows()) || r == (user, post);
    }

    method Delete(user: Str, post: Str) returns (removed: bool)
      modifies this
      ensures removed == ((user, post) in old(Rows()))
      ensures Rows() == old(Rows()) - {(user, post)}
    {
      if user !in likes {
        return false;
      }
      if post !in likes[user] {
        return false;
      }
      assert (user, post) in old(Rows());
      likes := likes[user := likes[user] - {post}];
      removed := true;
      assert forall r :: r in Rows() <==> r in old(Rows()) && r != (user, post);
    }
  }

  datatype Error = Unauthorized | InvalidRequest | NotFound

  /** Posts, like rows and the error of a whole like call. */
  function LikeCall(store: Store, rows: set<(Str, Str)>, user: Str, post: Str): (Store, set<(Str, Str)>, Option<Error>) {
    if user == [] then (store, rows, Some(Unauthorized))
    else if post == [] then (store, rows, Some(InvalidRequest))
    else if !Live(store, post) then (store, rows, Some(NotFound))
    else if (user, post) in rows then (store, rows, None)
    else (LikesUp(store, post), rows + {(user, post)}, None)
  }

  function UnlikeCall(store: Store, rows: set<(Str, Str)>, user: Str, post: Str): (Store, set<(Str, Str)>, Option<Error>) {
    if user == [] then (store, rows, Some(Unauthorized))
    else if post == [] then (store, rows, Some(InvalidRequest))
    else if (user, post) in rows then (LikesDown(store, post), rows - {(user, post)}, None)
    else (store, rows, None)
  }

  method LikePost(posts: PostRepository, repo: LikeRepository, user: Str, post: Str, now: int)
    returns (err: Option<Error>)
    modifies posts, repo
    ensures (posts.posts, repo.Rows(), err) == LikeCall(old(posts.posts), old(repo.Rows()), user, post)
  {
    if user == [] {
      return Some(Unauthorized);
    }
    if post == [] {
      return Some(InvalidRequest);
    }
    var found := posts.GetByID(post);
    if found.None? {
      return Some(NotFound);
    }
    var inserted := repo.Create(user, post, now);
    if inserted {
      posts.IncrementLikesCount(post);
    } else {
      assert repo.Rows() == old(repo.Rows());
    }
    err := None;
  }

  method UnlikePost(posts: PostRepository, repo: LikeRepository, user: Str, post: Str)
    returns (err: Option<Error>)
    modifies posts, repo
    ensures (posts.posts, repo.Rows(), err) == UnlikeCall(old(posts.posts), old(repo.Rows()), user, post)
  {
    if user == [] {
      return Some(Unauthorized);
    }
    if post == [] {
      return Some(InvalidRequest);
    }
    var removed := repo.Delete(user, post);
    if removed {
      posts.DecrementLikesCount(post);
    } else {
      assert repo.Rows() == old(repo.Rows());
    }
    err := None;
  }
}
