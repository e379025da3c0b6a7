/** Loading a comment list: choosing the query (by author or by post), and
    turning the per-id answers of the service into the list the view shows
    (`loadComments` and `loadUserComments` in
    components/comment-container.tsx). */
module Loading {
  import opened Comments

  /** One id of the fetched id list, with what its `getComment` call and,
      when it is made, its `hasLikedComment` call answered. */
  datatype Entry = Entry(id: int, fetched: Fetched, likeCheck: LikeCheck)

  /** Outcome of the id-list call. `ListMissing` is a null or undefined list
      (for the author query: a result without `commentIds`); `ListThrew` is a
      call that threw, including reading `commentIds` off a null result. */
  datatype IdList = ListThrew | ListMissing | Listed(entries: seq<Entry>)

  /** Which id list a load asks for. */
  datatype Query =
    | ByPost(postId: int)
    | ByAuthor(author: string, offset: int, limit: int)

  /** The author query always asks for the first page of this many ids. */
  const AuthorPageLimit: int := 50

  /** The service call that fetches the id list of a query. */
  function QueryCall(q: Query): Call {
    match q
    case ByPost(p) => GetPostComments(p)
    case ByAuthor(a, offset, limit) => GetCommentsByUser(a, offset, limit)
  }

  /** The effect that runs on connection and prop changes: nothing unless
      connected; the author's comments when an author is given, whatever the
      post id; otherwise the post's comments when a post id is given. */
  function ChooseQuery(isConnected: bool, postId: Option<int>, user: Option<string>): (q: Option<Query>)
    ensures q.Some? <==> isConnected && (Truthy(user) || postId.Some?)
    ensures (q.Some? && q.value.ByAuthor?) <==> isConnected && Truthy(user)
    ensures q.Some? && q.value.ByAuthor? ==> q.value == ByAuthor(user.value, 0, AuthorPageLimit)
    ensures q.Some? && q.value.ByPost? ==> postId == Some(q.value.postId)
  {
    if !isConnected then None
    else if Truthy(user) then Some(ByAuthor(user.value, 0, AuthorPageLimit))
    else if postId.Some? then Some(ByPost(postId.value))
    else None
  }

  /** The `isLikedByUser` flag of a loaded comment: false unless there is a
      viewer and the like-status call answered true; a like-status call that
      threw leaves it false. */
  function LikedFlag(viewer: Option<string>, check: LikeCheck): (liked: bool)
    ensures liked <==> Truthy(viewer) && check == Checked(true)
  {
    var liked := false;
    if Truthy(viewer) then
      match check
      case CheckThrew => liked
      case Checked(b) => b
    else liked
  }

  /** What the per-id promise resolves to: null when `getComment` threw or
      returned nothing, otherwise the record tagged with its id and like flag. */
  function Resolve(e: Entry, viewer: Option<string>): (r: Option<Comment>)
    ensures r.Some? <==> e.fetched.Found?
    ensures r.Some? ==> r.value.isLikedByUser == LikedFlag(viewer, e.likeCheck)
    ensures r.Some? ==> r.value.isDeleted == e.fetched.rec.isDeleted
    ensures r.Some? && e.fetched.rec.ownId == None ==> r.value.id == e.id
  {
    match e.fetched
    case FetchThrew => None
    case Absent => None
    case Found(rec) => Some(WithId(e.id, rec, LikedFlag(viewer, e.likeCheck)))
  }

  /** `commentIds.map(...)` joined by `Promise.all`: one result per id, in id order. */
  function Resolved(es: seq<Entry>, viewer: Option<string>): seq<Option<Comment>> {
    seq(|es|, i requires 0 <= i < |es| => Resolve(es[i], viewer))
  }

  /** A per-id result the filter keeps. */
  predicate IsLive(r: Option<Comment>) {
    r.Some? && !r.value.isDeleted
  }

  /** `results.filter((comment) => comment && !comment.isDeleted)`. */
  function KeepLive(rs: seq<Option<Comment>>): (cs: seq<Comment>)
    ensures |cs| <= |rs|
    ensures NoneDeleted(cs)
    ensures forall c :: c in cs ==> Some(c) in rs
    ensures forall i :: 0 <= i < |rs| && IsLive(rs[i]) ==> rs[i].value in cs
  {
    if rs == [] then []
    else (if IsLive(rs[0]) then [rs[0].value] else []) + KeepLive(rs[1..])
  }

  /** The filter keeps order: what it keeps from an earlier part of the list
      comes before what it keeps from a later part. */
  lemma {:induction false} KeepLiveAppend(a: seq<Option<Comment>>, b: seq<Option<Comment>>)
    ensures KeepLive(a + b) == KeepLive(a) + KeepLive(b)
  {
    if a == [] {
      assert a + b == b;
    } else {
      var head := if IsLive(a[0]) then [a[0].value] else [];
      assert (a + b)[0] == a[0] && (a + b)[1..] == a[1..] + b;
      KeepLiveAppend(a[1..], b);
      calc {
        KeepLive(a + b);
        head + KeepLive(a[1..] + b);
        head + (KeepLive(a[1..]) + KeepLive(b));
        (head + KeepLive(a[1..])) + KeepLive(b);
        KeepLive(a) + KeepLive(b);
      }
    }
  }

  /** The list a completed load stores. */
  function Assemble(es: seq<Entry>, viewer: Option<string>): seq<Comment> {
    KeepLive(Resolved(es, viewer))
  }

  /** The entry's record was fetched and is not soft-deleted. */
  predicate Shows(e: Entry) {
    e.fetched.Found? && !e.fetched.rec.isDeleted
  }

  /** The comment a fetched entry contributes. */
  function Shown(e: Entry, viewer: Option<string>): Comment
    requires e.fetched.Found?
  {
    WithId(e.id, e.fetched.rec, LikedFlag(viewer, e.likeCheck))
  }

  /** A completed load holds no soft-deleted comment, only comments built
      from fetched records, and every fetched record that is not deleted. */
  lemma AssembleExact(es: seq<Entry>, viewer: Option<string>)
    ensures NoneDeleted(Assemble(es, viewer))
    ensures forall c :: c in Assemble(es, viewer) ==>
      exists i :: 0 <= i < |es| && Shows(es[i]) && c == Shown(es[i], viewer)
    ensures forall i :: 0 <= i < |es| && Shows(es[i]) ==> Shown(es[i], viewer) in Assemble(es, viewer)
  {
    var rs := Resolved(es, viewer);
    forall c | c in Assemble(es, viewer)
      ensures exists i :: 0 <= i < |es| && Shows(es[i]) && c == Shown(es[i], viewer)
    {
      var i :| 0 <= i < |rs| && rs[i] == Some(c);
      assert Shows(es[i]) && c == Shown(es[i], viewer);
    }
    forall i | 0 <= i < |es| && Shows(es[i])
      ensures Shown(es[i], viewer) in Assemble(es, viewer)
    {
      assert IsLive(rs[i]);
    }
  }

  /** The map step distributes over concatenation of the id list. */
  lemma ResolvedAppend(a: seq<Entry>, b: seq<Entry>, viewer: Option<string>)
    ensures Resolved(a + b, viewer) == Resolved(a, viewer) + Resolved(b, viewer)
  {
  }

  /** A load keeps id-list order: the comments of earlier ids come first. */
  lemma AssembleInOrder(a: seq<Entry>, b: seq<Entry>, viewer: Option<string>)
    ensures Assemble(a + b, viewer) == Assemble(a, viewer) + Assemble(b, viewer)
  {
    ResolvedAppend(a, b, viewer);
    KeepLiveAppend(Resolved(a, viewer), Resolved(b, viewer));
  }

  /** One id contributes its comment when its record was fetched and is not
      deleted, and nothing otherwise. With AssembleInOrder this determines
      every load. */
  lemma AssembleOne(e: Entry, viewer: Option<string>)
    ensures Assemble([e], viewer) == if Shows(e) then [Shown(e, viewer)] else []
  {
  }

  /** An id whose fetch threw, returned nothing or returned a deleted record
      is dropped without affecting the rest of the batch. */
  lemma AssembleDropsFailed(es: seq<Entry>, k: int, viewer: Option<string>)
    requires 0 <= k < |es| && !Shows(es[k])
    ensures Assemble(es, viewer) == Assemble(es[..k] + es[k + 1..], viewer)
  {
    assert es == es[..k] + ([es[k]] + es[k + 1..]);
    AssembleInOrder(es[..k], [es[k]] + es[k + 1..], viewer);
    AssembleInOrder([es[k]], es[k + 1..], viewer);
    AssembleOne(es[k], viewer);
    AssembleInOrder(es[..k], es[k + 1..], viewer);
  }

  /** The per-id calls of a batch: `getComment` for every id, then
      `hasLikedComment` for the viewer when the record came back and there is
      a viewer. The source issues them concurrently; they are listed here in
      id order. */
  function ProbeCalls(es: seq<Entry>, viewer: Option<string>): (calls: seq<Call>)
    ensures forall c :: c in calls ==> c.GetComment? || c.HasLikedComment?
    ensures forall i :: 0 <= i < |es| ==> GetComment(es[i].id) in calls
    ensures forall i :: 0 <= i < |es| && es[i].fetched.Found? && Truthy(viewer) ==>
      HasLikedComment(viewer.value, es[i].id) in calls
    ensures forall c :: c in calls && c.HasLikedComment? ==>
      Truthy(viewer) && c.account == viewer.value &&
      exists i :: 0 <= i < |es| && es[i].id == c.id && es[i].fetched.Found?
  {
    if es == [] then []
    else
      var e := es[0];
      var rest := ProbeCalls(es[1..], viewer);
      assert forall i :: 1 <= i < |es| ==> es[i] == es[1..][i - 1];
      [GetComment(e.id)]
      + (if e.fetched.Found? && Truthy(viewer) then [HasLikedComment(viewer.value, e.id)] else [])
      + rest
  }

  /** The worked example: post 1 lists ids 10 and 11, comment 10 is live and
      comment 11 is soft-deleted; the loaded list is comment 10 alone. */
  lemma DeletedCommentHidden(viewer: Option<string>, live: StoredComment, gone: StoredComment)
    requires live.ownId == None && live.postId == 1 && !live.isDeleted
    requires gone.ownId == None && gone.postId == 1 && gone.isDeleted
    ensures Assemble([Entry(10, Found(live), CheckThrew), Entry(11, Found(gone), CheckThrew)], viewer)
         == [WithId(10, live, false)]
  {
    var e10, e11 := Entry(10, Found(live), CheckThrew), Entry(11, Found(gone), CheckThrew);
    assert [e10, e11] == [e10] + [e11];
    AssembleInOrder([e10], [e11], viewer);
    AssembleOne(e10, viewer);
    AssembleOne(e11, viewer);
  }
}
