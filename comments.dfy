/** The comment record the view caches, what the blockchain service returns
    for one comment, and the service calls the view issues. The service itself
    is not modelled: every answer it gives is an input to the operations. */
module Comments {

  datatype Option<T> = None | Some(value: T)

  /** A comment as the view holds it (components/comment-container.tsx,
      `interface Comment`). `isLikedByUser` is optional there; every path that
      builds a comment sets it, so it is a plain flag here. */
  datatype Comment = Comment(
    id: int,
    postId: int,
    author: string,
    content: string,
    timestamp: int,
    likesCount: int,
    isDeleted: bool,
    isLikedByUser: bool)

  /** What `getComment(id)` hands back when it returns a record. `ownId` is an
      `id` field the record may carry: the object spread `{ id, ...comment }`
      lets such a field override the id that was asked for. */
  datatype StoredComment = StoredComment(
    ownId: Option<int>,
    postId: int,
    author: string,
    content: string,
    timestamp: int,
    likesCount: int,
    isDeleted: bool)

  /** JavaScript truthiness of an optional account string: `undefined`,
      `null` and the empty string are all falsy. */
  predicate Truthy(s: Option<string>) {
    s.Some? && s.value != ""
  }

  /** `{ id, ...record, isLikedByUser: liked }`: the record's own `id`, when
      it has one, wins over the requested id; every other field comes from the
      record, and the like flag is the one given. */
  function WithId(id: int, rec: StoredComment, liked: bool): (c: Comment)
    ensures rec.ownId.None? ==> c.id == id
    ensures rec.ownId.Some? ==> c.id == rec.ownId.value
    ensures c.postId == rec.postId && c.author == rec.author && c.content == rec.content
    ensures c.timestamp == rec.timestamp && c.likesCount == rec.likesCount
    ensures c.isDeleted == rec.isDeleted && c.isLikedByUser == liked
  {
    Comment(
      if rec.ownId.Some? then rec.ownId.value else id,
      rec.postId, rec.author, rec.content, rec.timestamp, rec.likesCount,
      rec.isDeleted, liked)
  }

  /** Outcome of one `getComment(id)` call. */
  datatype Fetched = FetchThrew | Absent | Found(rec: StoredComment)

  /** Outcome of one `hasLikedComment(account, id)` call. */
  datatype LikeCheck = CheckThrew | Checked(liked: bool)

  /** The service calls the view makes, in the order the model issues them. */
  datatype Call =
    | GetPostComments(postId: int)
    | GetCommentsByUser(author: string, offset: int, limit: int)
    | GetComment(id: int)
    | HasLikedComment(account: string, id: int)
    | CreateComment(postId: int, content: string)
    | LikeComment(id: int)
    | UnlikeComment(id: int)
    | DeleteComment(id: int)

  /** No comment in the list is soft-deleted. */
  ghost predicate NoneDeleted(cs: seq<Comment>) {
    forall i :: 0 <= i < |cs| ==> !cs[i].isDeleted
  }

  /** No comment in the list has a negative like count. */
  ghost predicate CountsNonNegative(cs: seq<Comment>) {
    forall i :: 0 <= i < |cs| ==> cs[i].likesCount >= 0
  }

  /** The ids of the list, in list order. */
  function Ids(cs: seq<Comment>): seq<int> {
    seq(|cs|, i requires 0 <= i < |cs| => cs[i].id)
  }
}
