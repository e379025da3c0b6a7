/** The CommentContainer component as a state machine over its view state
    (components/comment-container.tsx). Each handler runs to completion:
    every awaited service call is replaced by a parameter carrying its
    answer, and each handler returns the alert it raised and the service calls
    it made. */
module Container {
  import opened Comments
  import opened JsText
  import opened Loading
  import opened Edits

  /** The in-flight action token: "add-comment", "like-comment-<id>" (shared
      by like and unlike) and "delete-comment-<id>". */
  datatype Action = AddingComment | LikingComment(id: int) | DeletingComment(id: int)

  /** The blocking alerts a handler raises: "Please connect to MetaMask
      first", "Please enter a comment", "Post ID is required", "Error: <the
      caught error's message>", and "Failed to delete the comment. Please try
      again." */
  datatype Alert = ConnectFirst | EnterComment | PostIdRequired | ErrorAlert | DeleteFailed

  /** What the wallet context provides. */
  datatype Wallet = Wallet(isConnected: bool, userAddress: Option<string>)

  /** Outcome of `createComment`: it threw, or returned a new id or null. */
  datatype Created = CreateThrew | CreateReturned(newId: Option<int>)

  /** Outcome of `deleteComment`: it threw, or returned its success flag. */
  datatype Deleted = DeleteThrew | DeleteReturned(success: bool)

  /** The component's view state: the four state hooks, whether the reload
      timer set after a locally built comment is still pending, and the two
      props the handlers read. */
  datatype ViewState = ViewState(
    comments: seq<Comment>,
    commentContent: string,
    loading: bool,
    loadingAction: Option<Action>,
    reloadPending: bool,
    postId: Option<int>,
    user: Option<string>)

  /** The comment list after a load that reached its `try`: unchanged when
      the id-list call threw, empty when it gave no list, otherwise the
      assembled batch. */
  function AfterLoad(before: seq<Comment>, listed: IdList, viewer: Option<string>): (after: seq<Comment>)
    ensures listed.ListThrew? ==> after == before
    ensures !listed.ListThrew? ==> NoneDeleted(after)
    ensures listed.ListMissing? || listed == Listed([]) ==> after == []
    ensures listed.Listed? ==> after == Assemble(listed.entries, viewer)
  {
    match listed
    case ListThrew => before
    case ListMissing => []
    case Listed(es) =>
      AssembleExact(es, viewer);
      Assemble(es, viewer)
  }

  /** The service calls a load makes: the id-list call, then the per-id calls
      when a list came back. */
  function LoadCalls(q: Query, listed: IdList, viewer: Option<string>): seq<Call> {
    [QueryCall(q)] + if listed.Listed? then ProbeCalls(listed.entries, viewer) else []
  }

  /** The checks `handleAddComment` makes before calling the service, in its
      order: connected, then non-blank text, then a post id. */
  function AddRefusal(isConnected: bool, text: string, postId: Option<int>): (a: Option<Alert>)
    ensures a.None? <==> isConnected && !IsBlank(text) && postId.Some?
    ensures !isConnected ==> a == Some(ConnectFirst)
    ensures isConnected && IsBlank(text) ==> a == Some(EnterComment)
    ensures isConnected && !IsBlank(text) && postId.None? ==> a == Some(PostIdRequired)
  {
    TrimEmptyIffBlank(text);
    if !isConnected then Some(ConnectFirst)
    else if Trim(text) == [] then Some(EnterComment)
    else if postId.None? then Some(PostIdRequired)
    else None
  }

  class CommentContainer {
    var postId: Option<int>
    var user: Option<string>

    var comments: seq<Comment>
    var commentContent: string
    var loading: bool
    var loadingAction: Option<Action>
    var reloadPending: bool

    ghost function View(): ViewState
      reads this
    {
      ViewState(comments, commentContent, loading, loadingAction, reloadPending, postId, user)
    }

    /** `handleAddComment` gets past its checks with this composer text. */
    predicate Accepts(wallet: Wallet, text: string)
      reads this
    {
      AddRefusal(wallet.isConnected, text, postId).None?
    }

    /** A freshly mounted component: no comments, an empty composer, the
        loading flag up and no action in flight. */
    constructor (postId: Option<int>, user: Option<string>)
      ensures View() == ViewState([], "", true, None, false, postId, user)
    {
      this.postId := postId;
      this.user := user;
      comments := [];
      commentContent := "";
      loading := true;
      loadingAction := None;
      reloadPending := false;
    }

    /** The parent re-renders the component with new props. React keeps the
        state hooks, so the comments of the old query stay until a load
        replaces them; the effect (Refresh) is what runs next. */
    method SetProps(postId: Option<int>, user: Option<string>)
      modifies this
      ensures View() == old(View()).(postId := postId, user := user)
    {
      this.postId := postId;
      this.user := user;
    }

    /** The composer's `onChange`. */
    method EditComposer(text: string)
      modifies this
      ensures View() == old(View()).(commentContent := text)
    {
      commentContent := text;
    }

    /** The body of `loadComments` and `loadUserComments` from its `try` on:
        raise the loading flag, fetch the id list and each record, store the
        result, and lower the flag in `finally`. */
    method RunLoad(q: Query, viewer: Option<string>, listed: IdList) returns (calls: seq<Call>)
      modifies this
      ensures calls == LoadCalls(q, listed, viewer)
      ensures View() == old(View()).(comments := AfterLoad(old(comments), listed, viewer), loading := false)
    {
      loading := true;
      calls := [QueryCall(q)];
      match listed {
        case ListThrew =>
        case ListMissing =>
          comments := [];
        case Listed(es) =>
          calls := calls + ProbeCalls(es, viewer);
          if |es| == 0 {
            comments := [];
          } else {
            comments := Assemble(es, viewer);
          }
      }
      loading := false;
    }

    /** `loadComments`: does nothing without a post id. */
    method LoadComments(viewer: Option<string>, listed: IdList) returns (calls: seq<Call>)
      modifies this
      ensures postId.None? ==> calls == [] && View() == old(View())
      ensures postId.Some? ==> calls == LoadCalls(ByPost(postId.value), listed, viewer)
      ensures postId.Some? ==>
        View() == old(View()).(comments := AfterLoad(old(comments), listed, viewer), loading := false)
    {
      if postId.None? {
        return [];
      }
      calls := RunLoad(ByPost(postId.value), viewer, listed);
    }

    /** `loadUserComments`: does nothing without an author; otherwise asks
        for the author's first page of ids. */
    method LoadUserComments(viewer: Option<string>, listed: IdList) returns (calls: seq<Call>)
      modifies this
      ensures !Truthy(user) ==> calls == [] && View() == old(View())
      ensures Truthy(user) ==>
        calls == LoadCalls(ByAuthor(user.value, 0, AuthorPageLimit), listed, viewer)
      ensures Truthy(user) ==>
        View() == old(View()).(comments := AfterLoad(old(comments), listed, viewer), loading := false)
    {
      if !Truthy(user) {
        return [];
      }
      calls := RunLoad(ByAuthor(user.value, 0, AuthorPageLimit), viewer, listed);
    }

    /** The effect that runs when the connection or the props change: it
        runs exactly the query ChooseQuery picks for the current props, or
        nothing; in that case the list shown before stays. */
    method Refresh(wallet: Wallet, listed: IdList) returns (calls: seq<Call>)
      modifies this
      ensures var q := ChooseQuery(wallet.isConnected, postId, user);
        && (q.None? ==> calls == [] && View() == old(View()))
        && (q.Some? ==> calls == LoadCalls(q.value, listed, wallet.userAddress))
        && (q.Some? ==>
              View() == old(View()).(comments := AfterLoad(old(comments), listed, wallet.userAddress), loading := false))
    {
      calls := [];
      if wallet.isConnected {
        if Truthy(user) {
          calls := LoadUserComments(wallet.userAddress, listed);
        } else if postId.Some? {
          calls := LoadComments(wallet.userAddress, listed);
        }
      }
    }

    /** The timer set after a locally built comment fires: it runs
        `loadComments` once. */
    method FireReload(viewer: Option<string>, listed: IdList) returns (calls: seq<Call>)
      modifies this
      ensures !old(reloadPending) ==> calls == [] && View() == old(View())
      ensures old(reloadPending) && postId.None? ==>
        calls == [] && View() == old(View()).(reloadPending := false)
      ensures old(reloadPending) && postId.Some? ==> calls == LoadCalls(ByPost(postId.value), listed, viewer)
      ensures old(reloadPending) && postId.Some? ==>
        View() == old(View()).(comments := AfterLoad(old(comments), listed, viewer), loading := false, reloadPending := false)
    {
      calls := [];
      if reloadPending {
        reloadPending := false;
        calls := LoadComments(viewer, listed);
      }
    }

    /** `handleAddComment`. A refused submission makes no call and changes
        nothing. Otherwise the text is sent; on a new id the composer is
        cleared and the new comment appended: the fetched record when there
        is one, else a locally built one, with a reload scheduled. */
    method HandleAddComment(wallet: Wallet, created: Created, fetched: Fetched, nowMs: int)
      returns (alert: Option<Alert>, calls: seq<Call>)
      modifies this
      ensures var refusal := AddRefusal(wallet.isConnected, old(commentContent), postId);
        refusal.Some? ==> alert == refusal && calls == [] && View() == old(View())
      ensures Accepts(wallet, old(commentContent)) ==>
        postId.Some? && |calls| >= 1 && calls[0] == CreateComment(postId.value, old(commentContent))
      ensures Accepts(wallet, old(commentContent)) && created == CreateThrew ==>
        alert == Some(ErrorAlert) && |calls| == 1 && View() == old(View()).(loadingAction := None)
      ensures Accepts(wallet, old(commentContent)) && created == CreateReturned(None) ==>
        alert == None && |calls| == 1 && View() == old(View()).(loadingAction := None)
      ensures Accepts(wallet, old(commentContent)) && created.CreateReturned? && created.newId.Some? ==>
        |calls| == 2 && calls[1] == GetComment(created.newId.value)
      ensures Accepts(wallet, old(commentContent)) && created.CreateReturned? && created.newId.Some? && fetched == FetchThrew ==>
        && alert == Some(ErrorAlert)
        && View() == old(View()).(commentContent := "", loadingAction := None)
      ensures Accepts(wallet, old(commentContent)) && created.CreateReturned? && created.newId.Some? && fetched.Found? ==>
        && alert == None
        && View() == old(View()).(
             comments := old(comments) + [WithId(created.newId.value, fetched.rec, false)],
             commentContent := "", loadingAction := None)
      ensures Accepts(wallet, old(commentContent)) && created.CreateReturned? && created.newId.Some? && fetched == Absent ==>
        && alert == None
        && View() == old(View()).(
             comments := old(comments) + [LocalComment(created.newId.value, postId.value, wallet.userAddress, old(commentContent), nowMs)],
             commentContent := "", loadingAction := None, reloadPending := true)
    {
      alert, calls := AddRefusal(wallet.isConnected, commentContent, postId), [];
      if alert.Some? {
        return;
      }
      var text := commentContent;
      loadingAction := Some(AddingComment);
      calls := [CreateComment(postId.value, text)];
      match created {
        case CreateThrew =>
          alert := Some(ErrorAlert);
        case CreateReturned(None) =>
        case CreateReturned(Some(id)) =>
          commentContent := "";
          calls := calls + [GetComment(id)];
          match fetched {
            case FetchThrew =>
              alert := Some(ErrorAlert);
            case Found(rec) =>
              comments := comments + [WithId(id, rec, false)];
            case Absent =>
              comments := comments + [LocalComment(id, postId.value, wallet.userAddress, text, nowMs)];
              reloadPending := true;
          }
      }
      loadingAction := None;
    }

    /** `handleLikeComment`. Without a connection it alerts and changes
        nothing. Otherwise it calls unlike or like as `alreadyLiked` says; if
        the call did not throw, the comments with that id are updated in
        place. Its answer is not looked at. */
    method HandleLikeComment(wallet: Wallet, commentId: int, alreadyLiked: bool, callThrew: bool)
      returns (alert: Option<Alert>, calls: seq<Call>)
      modifies this
      ensures !wallet.isConnected ==> alert == Some(ConnectFirst) && calls == [] && View() == old(View())
      ensures wallet.isConnected ==>
        calls == [if alreadyLiked then UnlikeComment(commentId) else LikeComment(commentId)]
      ensures wallet.isConnected && callThrew ==>
        alert == Some(ErrorAlert) && View() == old(View()).(loadingAction := None)
      ensures wallet.isConnected && !callThrew ==>
        && alert == None
        && View() == old(View()).(
             comments := ReactAll(old(comments), commentId, if alreadyLiked then Unlike else Like),
             loadingAction := None)
      ensures old(NoneDeleted(comments)) ==> NoneDeleted(comments)
      ensures Ids(comments) == Ids(old(comments))
    {
      if !wallet.isConnected {
        return Some(ConnectFirst), [];
      }
      alert := None;
      loadingAction := Some(LikingComment(commentId));
      var reaction := if alreadyLiked then Unlike else Like;
      calls := [if alreadyLiked then UnlikeComment(commentId) else LikeComment(commentId)];
      if callThrew {
        alert := Some(ErrorAlert);
      } else {
        ReactKeepsShape(comments, commentId, reaction);
        comments := ReactAll(comments, commentId, reaction);
      }
      loadingAction := None;
    }

    /** `handleDeleteComment`. Without a connection it alerts and changes
        nothing. Otherwise the comments with that id are removed when the
        service confirms; a refusal or an exception leaves the list as it was
        and alerts. */
    method HandleDeleteComment(wallet: Wallet, commentId: int, result: Deleted)
      returns (alert: Option<Alert>, calls: seq<Call>)
      modifies this
      ensures !wallet.isConnected ==> alert == Some(ConnectFirst) && calls == [] && View() == old(View())
      ensures wallet.isConnected ==> calls == [DeleteComment(commentId)]
      ensures wallet.isConnected && result == DeleteReturned(true) ==>
        alert == None && View() == old(View()).(comments := Without(old(comments), commentId), loadingAction := None)
      ensures wallet.isConnected && result == DeleteReturned(false) ==>
        alert == Some(DeleteFailed) && View() == old(View()).(loadingAction := None)
      ensures wallet.isConnected && result == DeleteThrew ==>
        alert == Some(ErrorAlert) && View() == old(View()).(loadingAction := None)
      ensures old(NoneDeleted(comments)) ==> NoneDeleted(comments)
    {
      if !wallet.isConnected {
        return Some(ConnectFirst), [];
      }
      alert := None;
      loadingAction := Some(DeletingComment(commentId));
      calls := [DeleteComment(commentId)];
      match result {
        case DeleteThrew =>
          alert := Some(ErrorAlert);
        case DeleteReturned(success) =>
          if success {
            WithoutKeepsInvariants(comments, commentId);
            comments := Without(comments, commentId);
          } else {
            alert := Some(DeleteFailed);
          }
      }
      loadingAction := None;
    }
  }

  /** The worked example: on a connected component for post 1, submitting
      "hello" that the service stores as comment 7 and hands back leaves the
      composer empty and one comment in the list. */
  method SubmitHello(rec: StoredComment) returns (composer: string, shown: seq<Comment>, calls: seq<Call>)
    ensures composer == "" && shown == [WithId(7, rec, false)]
    ensures calls == [CreateComment(1, "hello"), GetComment(7)]
  {
    var view := new CommentContainer(Some(1), None);
    view.EditComposer("hello");
    assert !IsTrimmable("hello"[0]);
    var alert;
    alert, calls := view.HandleAddComment(Wallet(true, Some("0xabc")), CreateReturned(Some(7)), Found(rec), 0);
    composer, shown := view.commentContent, view.comments;
  }

  /** A prop change the effect has no query for: after post 1's comments are
      loaded, the parent drops the post id and gives no author. The effect
      makes no call, so post 1's comments stay on screen. */
  method PropsDroppedKeepsList(es: seq<Entry>) returns (shown: seq<Comment>, calls: seq<Call>)
    ensures shown == Assemble(es, None) && calls == []
  {
    var view := new CommentContainer(Some(1), None);
    var first := view.Refresh(Wallet(true, None), Listed(es));
    view.SetProps(None, None);
    calls := view.Refresh(Wallet(true, None), ListThrew);
    shown := view.comments;
  }
}
