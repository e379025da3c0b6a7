/** The list edits the handlers apply after the service answered: like and
    unlike by id, delete by id, and the comment built locally when a new
    comment cannot be fetched back (components/comment-container.tsx,
    `handleAddComment`, `handleLikeComment`, `handleDeleteComment`). */
module Edits {
  import opened Comments

  /** Which of the two like-button transitions runs. */
  datatype Reaction = Like | Unlike

  /** `Math.max` on integers. */
  function Max(a: int, b: int): int {
    if a >= b then a else b
  }

  /** `b` is `a` with at most its like count and like flag changed. */
  predicate SameExceptLikes(a: Comment, b: Comment) {
    b == a.(likesCount := b.likesCount, isLikedByUser := b.isLikedByUser)
  }

  /** One comment after a like or an unlike: a like adds one and sets the
      flag; an unlike takes one off, never going below zero, and clears it. */
  function React(c: Comment, r: Reaction): (d: Comment)
    ensures SameExceptLikes(c, d)
    ensures d.isLikedByUser <==> r == Like
    ensures r == Like ==> d.likesCount == c.likesCount + 1
    ensures r == Unlike ==> d.likesCount >= 0
    ensures r == Unlike && c.likesCount >= 1 ==> d.likesCount == c.likesCount - 1
    ensures r == Unlike && c.likesCount < 1 ==> d.likesCount == 0
  {
    match r
    case Like => c.(likesCount := c.likesCount + 1, isLikedByUser := true)
    case Unlike => c.(likesCount := Max(0, c.likesCount - 1), isLikedByUser := false)
  }

  /** `comments.map(...)` that applies the reaction to the comments with the
      given id and keeps every other comment, the length and the order. */
  function ReactAll(cs: seq<Comment>, id: int, r: Reaction): (rs: seq<Comment>)
    ensures |rs| == |cs|
    ensures forall i :: 0 <= i < |cs| ==> rs[i] == if cs[i].id == id then React(cs[i], r) else cs[i]
  {
    if cs == [] then []
    else [if cs[0].id == id then React(cs[0], r) else cs[0]] + ReactAll(cs[1..], id, r)
  }

  /** Liking or unliking keeps the ids in their order, keeps soft-deleted
      comments out, and keeps like counts non-negative. */
  lemma ReactKeepsShape(cs: seq<Comment>, id: int, r: Reaction)
    ensures Ids(ReactAll(cs, id, r)) == Ids(cs)
    ensures NoneDeleted(cs) ==> NoneDeleted(ReactAll(cs, id, r))
    ensures CountsNonNegative(cs) ==> CountsNonNegative(ReactAll(cs, id, r))
  {
  }

  /** Unliking undoes a like of a comment the viewer had not liked and whose
      count was not negative. */
  lemma LikeThenUnlike(cs: seq<Comment>, id: int)
    requires forall i :: 0 <= i < |cs| && cs[i].id == id ==> cs[i].likesCount >= 0 && !cs[i].isLikedByUser
    ensures ReactAll(ReactAll(cs, id, Like), id, Unlike) == cs
  {
  }

  /** Liking undoes an unlike of a liked comment with at least one like. */
  lemma UnlikeThenLike(cs: seq<Comment>, id: int)
    requires forall i :: 0 <= i < |cs| && cs[i].id == id ==> cs[i].likesCount >= 1 && cs[i].isLikedByUser
    ensures ReactAll(ReactAll(cs, id, Unlike), id, Like) == cs
  {
  }

  /** `comments.filter((comment) => comment.id !== id)`: keeps exactly the
      comments with another id. */
  function Without(cs: seq<Comment>, id: int): (rs: seq<Comment>)
    ensures |rs| <= |cs|
    ensures forall c :: c in rs ==> c in cs && c.id != id
    ensures forall c :: c in cs && c.id != id ==> c in rs
  {
    if cs == [] then []
    else (if cs[0].id != id then [cs[0]] else []) + Without(cs[1..], id)
  }

  /** Deleting keeps the order of the remaining comments. */
  lemma {:induction false} WithoutAppend(a: seq<Comment>, b: seq<Comment>, id: int)
    ensures Without(a + b, id) == Without(a, id) + Without(b, id)
  {
    if a == [] {
      assert a + b == b;
    } else {
      var head := if a[0].id != id then [a[0]] else [];
      assert (a + b)[0] == a[0] && (a + b)[1..] == a[1..] + b;
      WithoutAppend(a[1..], b, id);
      calc {
        Without(a + b, id);
        head + Without(a[1..] + b, id);
        head + (Without(a[1..], id) + Without(b, id));
        (head + Without(a[1..], id)) + Without(b, id);
        Without(a, id) + Without(b, id);
      }
    }
  }

  /** Deleting changes the list exactly when some comment has that id. */
  lemma {:induction false} WithoutUnchangedIff(cs: seq<Comment>, id: int)
    ensures Without(cs, id) == cs <==> forall i :: 0 <= i < |cs| ==> cs[i].id != id
  {
    if cs != [] {
      WithoutUnchangedIff(cs[1..], id);
      if cs[0].id == id {
        assert |Without(cs, id)| < |cs|;
      } else {
        assert Without(cs, id) == [cs[0]] + Without(cs[1..], id);
        assert forall i :: 1 <= i < |cs| ==> cs[i] == cs[1..][i - 1];
        if Without(cs, id) == cs {
          assert Without(cs[1..], id) == cs[1..];
        }
      }
    }
  }

  /** Deleting keeps soft-deleted comments out and like counts non-negative. */
  lemma WithoutKeepsInvariants(cs: seq<Comment>, id: int)
    ensures NoneDeleted(cs) ==> NoneDeleted(Without(cs, id))
    ensures CountsNonNegative(cs) ==> CountsNonNegative(Without(cs, id))
  {
  }

  /** `Math.floor(ms / 1000)`: whole seconds of a millisecond clock. */
  function Seconds(ms: int): (s: int)
    ensures s * 1000 <= ms < s * 1000 + 1000
  {
    ms / 1000
  }

  /** The comment built locally when a created comment cannot be fetched
      back: the new id, the submitted text, the viewer's address or "" as
      author, the current time in seconds, no likes, not deleted, not liked. */
  function LocalComment(id: int, postId: int, viewer: Option<string>, text: string, nowMs: int): (c: Comment)
    ensures c.id == id && c.postId == postId && c.content == text
    ensures c.author == (if viewer.Some? then viewer.value else "")
    ensures c.timestamp * 1000 <= nowMs < c.timestamp * 1000 + 1000
    ensures c.likesCount == 0 && !c.isDeleted && !c.isLikedByUser
  {
    Comment(id, postId, if viewer.Some? then viewer.value else "", text, Seconds(nowMs), 0, false, false)
  }
}
