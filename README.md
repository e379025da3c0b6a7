# CommentContainer view-state model

This project models the comment thread component of a decentralized social
media client (`components/comment-container.tsx`). The component keeps four
pieces of view state: the comment list, the composer text, a loading flag, and
a token naming the action in flight. It loads the list from a blockchain
service by post or by author. It then edits the list locally when the viewer
adds, likes, unlikes or deletes a comment.

The service is not modelled. Each answer it gives becomes an input:

- the id list;
- for each id, the `getComment` outcome (threw, nothing, or a record) and the
  `hasLikedComment` outcome (threw or a boolean);
- the outcome of `createComment`, `likeComment`/`unlikeComment` and
  `deleteComment`.

Each handler returns the alert it raised and the service calls it made, in
order.

Modules:

- `JsText` (`js_text.dfy`): ECMAScript `String.prototype.trim`, which decides
  whether the composer text is blank.
- `Comments` (`comments.dfy`): the `Comment` record and the service record.
  It also holds JavaScript truthiness of an optional account string and the
  vocabulary of service calls.
- `Loading` (`loading.dfy`): choosing the query, and building the shown list
  from the per-id answers (a map, then a filter).
- `Edits` (`edits.dfy`): like/unlike by id, delete by id, and the locally built
  comment.
- `Container` (`container.dfy`): the component as a class. Its fields are the
  view state plus a `reloadPending` flag for the reload timer. Its methods are
  the loaders, the load effect, the three handlers, and a prop change that
  keeps the state hooks, as React does.

Details the model keeps from the code:

- The spread `{ id, ...comment }` lets an `id` field in the service record
  override the requested id (`StoredComment.ownId`).
- An empty account string is falsy, both for the viewer address and for the
  `user` prop.
- A handler that fails its connection check returns before its `try`. So it
  leaves `loadingAction` as it was.
- The like/unlike call's return value is ignored. Only an exception stops the
  local update.
- A `createComment` that returns null ends the handler with no alert and no
  change.
- If `getComment` throws after a successful create, the composer is already
  cleared, the list is unchanged, and an error alert is raised.

Where the design description and the code differ, the model follows the code:

- The composer is cleared once `createComment` returns an id, even if the
  follow-up fetch then throws. It is not held back until the comment is shown.
- Loading by author does not check the authors of the returned comments. It
  trusts the service's id list, so the model promises nothing about authors.
- The record fetched back after an add is appended without an `isDeleted`
  check. "No soft-deleted comment is shown" therefore holds after every load,
  like and delete. It does not hold after every add.

## Model

| member | source | states |
|---|---|---|
| JsText.TrimStartSpec | components/comment-container.tsx:158 | trimming the start keeps a suffix; everything dropped is whitespace or a line terminator, and the kept part starts with a kept character |
| JsText.TrimEndSpec | components/comment-container.tsx:158 | trimming the end keeps a prefix; everything dropped is trimmable, and the kept part ends with a kept character |
| JsText.TrimEmptyIffBlank | components/comment-container.tsx:158 | `trim()` gives "" exactly when every character of the text is trimmable |
| JsText.TrimIdempotent | components/comment-container.tsx:158 | trimming trimmed text changes nothing |
| Loading.ChooseQuery | components/comment-container.tsx:140-150 | a load runs only when connected; an author (truthy `user`) wins over the post id and asks for offset 0, limit 50; otherwise the post query runs only when the post id is defined |
| Loading.LikedFlag | components/comment-container.tsx:54-67 | `isLikedByUser` is true exactly when there is a truthy viewer address and the like-status call returned true; a throwing like-status call leaves it false |
| Loading.KeepLive | components/comment-container.tsx:77-81 | the filter keeps no null and no deleted entry, keeps only entries from its input, and keeps every live entry |
| Loading.KeepLiveAppend | components/comment-container.tsx:77-81 | the filter preserves order: filtering a concatenation concatenates the filtered parts |
| Loading.AssembleExact | components/comment-container.tsx:49-81 | a completed load holds no deleted comment and only comments built from fetched records; it holds every fetched record that is not deleted, with its id and like flag |
| Loading.AssembleInOrder | components/comment-container.tsx:49-81 | a load keeps id-list order: the comments of earlier ids come before those of later ids |
| Loading.AssembleOne | components/comment-container.tsx:49-81 | one id contributes its comment exactly when its record was fetched and is not deleted; with AssembleInOrder this fixes every load |
| Loading.AssembleDropsFailed | components/comment-container.tsx:49-74 | an id whose fetch threw, returned nothing or returned a deleted record is dropped, and the rest of the batch is unaffected |
| Loading.Resolve | components/comment-container.tsx:49-74 | the per-id promise gives a comment exactly when `getComment` returned a record; that comment carries the record's deletion flag, the LikedFlag of the like check, and the requested id unless the record has its own |
| Loading.ProbeCalls | components/comment-container.tsx:49-67 | the per-id calls are only `getComment` and `hasLikedComment`; every id gets a `getComment` call; a `hasLikedComment` call for the viewer is made for every fetched record exactly when the viewer is truthy, and never otherwise |
| Loading.DeletedCommentHidden | components/comment-container.tsx:77-81 | example: ids 10 (live) and 11 (soft-deleted) load as comment 10 alone |
| Edits.React | components/comment-container.tsx:229-257 | like adds one and sets the flag; unlike takes one off, never below zero, and clears the flag; no other field changes |
| Edits.ReactAll | components/comment-container.tsx:229-257 | the list keeps its length; an entry with the id gets the reaction and every other entry is unchanged |
| Edits.ReactKeepsShape | components/comment-container.tsx:229-257 | like/unlike keeps the ids in their order, keeps deleted comments out and keeps counts non-negative |
| Edits.LikeThenUnlike | components/comment-container.tsx:224-257 | unlike undoes a like of a comment that was not liked and had a non-negative count |
| Edits.UnlikeThenLike | components/comment-container.tsx:224-257 | like undoes an unlike of a liked comment with at least one like |
| Edits.Without | components/comment-container.tsx:282 | delete keeps exactly the comments with another id |
| Edits.WithoutAppend | components/comment-container.tsx:282 | delete preserves the order of the remaining comments |
| Edits.WithoutUnchangedIff | components/comment-container.tsx:282 | delete leaves the list equal to before exactly when no comment has that id |
| Edits.WithoutKeepsInvariants | components/comment-container.tsx:282 | delete keeps deleted comments out and counts non-negative |
| Comments.WithId | components/comment-container.tsx:69 | `{ id, ...comment, isLikedByUser }`: the record's own id, when present, overrides the requested one; every other field comes from the record; the like flag is the one given |
| Edits.LocalComment | components/comment-container.tsx:186-195 | the locally built comment has the new id, the post id, the submitted text, the viewer's address or "" as author, the current time floored to seconds, 0 likes, not deleted and not liked |
| Edits.Seconds | components/comment-container.tsx:191 | `Math.floor(ms / 1000)`: the whole seconds `s` with `1000*s <= ms < 1000*s + 1000` |
| Container.AfterLoad | components/comment-container.tsx:44-47 | a load whose list call threw keeps the old list; a missing or empty id list empties it; a returned list gives exactly Assemble of its entries; any load that got a list shows no deleted comment |
| Container.AddRefusal | components/comment-container.tsx:153-166 | a submission goes ahead exactly when connected, the text is not blank and the post id is defined; otherwise it gives the first failed check's alert, in the source's order |
| Container.CommentContainer.constructor | components/comment-container.tsx:32-35 | mount state: the given props, no comments, empty composer, loading, no action in flight |
| Container.CommentContainer.SetProps | components/comment-container.tsx:26-30 | new `postId`/`user` props replace the old ones while the comments, composer, flags and token are kept |
| Container.CommentContainer.EditComposer | components/comment-container.tsx:304 | typing replaces the composer text and nothing else |
| Container.CommentContainer.RunLoad | components/comment-container.tsx:40-86 | a load that reaches its `try` makes the list call and the per-id calls, stores AfterLoad of the answers, and ends with `loading` false; nothing else changes |
| Container.CommentContainer.LoadComments | components/comment-container.tsx:37-87 | without a post id nothing happens; otherwise the post query's load runs |
| Container.CommentContainer.LoadUserComments | components/comment-container.tsx:89-139 | without a truthy author nothing happens; otherwise the author query (offset 0, limit 50) runs |
| Container.CommentContainer.Refresh | components/comment-container.tsx:140-150 | the effect runs exactly the query ChooseQuery picks for the current props; when it picks none, it makes no call and changes nothing, so the list shown before stays |
| Container.CommentContainer.FireReload | components/comment-container.tsx:200-202 | a pending reload timer fires once: it clears the pending flag and runs `loadComments` |
| Container.CommentContainer.HandleAddComment | components/comment-container.tsx:152-211 | a refused submission makes no call and changes nothing. Otherwise `createComment` gets the text, and the token ends cleared. A new id clears the composer and appends exactly one comment after the old list: the fetched record (not liked), or a local one with the new id, the text, 0 likes, not deleted, not liked, plus a pending reload |
| Container.CommentContainer.HandleLikeComment | components/comment-container.tsx:212-268 | without a connection: alert, no call, no change. Otherwise one unlike or like call. If it did not throw, the list becomes ReactAll of the old list, so ids, length and order are kept. The token ends cleared |
| Container.CommentContainer.HandleDeleteComment | components/comment-container.tsx:270-292 | without a connection: alert, no call, no change. Otherwise one delete call. Success removes exactly the comments with that id; a false answer or an exception leaves the list unchanged with an alert. The token ends cleared |
| Container.PropsDroppedKeepsList | components/comment-container.tsx:140-150 | example: after post 1's comments load, dropping the post id with no author makes the effect do nothing, so post 1's comments stay shown |
| Container.SubmitHello | components/comment-container.tsx:175-182 | example: submitting "hello" for post 1, stored as comment 7 and fetched back, leaves the composer empty and that comment as the only one |

## Left out

- `components/post-container/post.tsx` and `app/layout.tsx`: static markup and a cookie read through the framework. There is no logic in them to model.
- Rendering is not modelled: the composer's visibility (`showCommentInput && !user`), the disabled send button, the per-comment busy flag and the "No comments" text.
- The service and the wallet context are opaque. Their answers are parameters (`IdList`, `Entry`, `Created`, `Deleted`, `Wallet`), and their internal behaviour is not modelled.
- Concurrency is left out. Per-id fetches run concurrently under `Promise.all`; the model resolves them as a sequential map in id order. Each handler runs to completion, with no other event between its awaits. The intermediate states (`loading` true, the token set) are therefore never visible from outside a method.
- React stale closures and unmount races are left out. The handlers and the timer use the current fields, not the values captured at render time.
- The two-second `setTimeout` is a `reloadPending` flag and a `FireReload` step. Several pending timers collapse into one.
- `Date.now()` is the `nowMs` parameter.
- `alert` becomes the returned `Alert` value, without the error message text. `console.error` is dropped.
- JavaScript numbers are unbounded integers. The model does not capture floating-point ids or counts.
- `createComment` is taken to return a number or null. An `undefined` result, which the source would treat as an id, is not modelled.
- Strings are sequences of Unicode scalar values, not UTF-16 code units. This makes no difference to `trim`, whose characters all lie in the Basic Multilingual Plane.
