# Lenster conversation page — verified model

A Dafny model of the conversation page of the Lenster web client
(`apps/web/src/components/Messages/Message.tsx`): the page that shows one XMTP
conversation between Lens profiles.

- `Js` — the JavaScript conventions the page relies on: values that may be
  `undefined`/`null`, the `??` operator and string truthiness.
- `Pagination` — `fetchNextMessages` and its `endTime` state: a JavaScript
  `Map` from conversation key to the `sent` time of the oldest loaded message
  (the cursor the next page request ends at). `TimeMap` is the `Map` object,
  updated in place; `MessageState` holds the reference that React state
  replaces. `NextCursors` is the table-level specification, and `Replay` runs a
  series of calls so that the cursor's monotonicity over time can be stated.
  Dates are their time in milliseconds (`int`), which is what `<=` on two
  `Date` objects compares.
- `Route` — `MessagePage`: the route parameter, the signed-in profile id and
  `parseConversationKey` decide between the not-found page and the
  conversation view for the `/`-joined key. `Split` is an independent inverse
  of the join, used to show that different non-empty routes give different
  keys, provided that no route segment contains `/`.
- `Conversation` — `Message`: the not-found guard, the never-shown loader, the
  page title and the props handed to the message list and composer.

Collaborators whose code is not part of this model (`parseConversationKey`,
`sanitizeDisplayName`, `formatHandle`, `APP_NAME`) are parameters, so every
property holds whatever they return. Hook results (`currentProfile`,
`profile`, `messages`, `hasMore`, `missingXmtpAuth`) are inputs.

Two behaviours of the code worth knowing:

- `MessagePage` does not check that the current profile is a member of a
  two-member key; it only needs the first member other than the current
  profile to be truthy (`Route.OutsiderPairRenders`). Any membership check
  would have to live in `parseConversationKey`, which is not part of this
  model.
- `showLoading` is false wherever it is computed, because line 59 has already
  returned when there is no profile (`Conversation.ShowLoading`,
  `Conversation.Message`).

## Model

| member | source | states |
|---|---|---|
| `Pagination.NextCursors` | apps/web/src/components/Messages/Message.tsx:48-57 | No change without more history or without a loaded message; a last message later than the current cursor is ignored; otherwise the key's cursor becomes exactly the last message's `sent`; every other key keeps its cursor and no key appears except this one; no cursor is dropped or moved later |
| `Pagination.ReplayAppend` | apps/web/src/components/Messages/Message.tsx:48-57 | Running two series of fetch calls in turn equals running their concatenation |
| `Pagination.ReplayNoLater` | apps/web/src/components/Messages/Message.tsx:51-54 | After any series of fetch calls every cursor still exists and is no later than before |
| `Pagination.CursorsNonIncreasing` | apps/web/src/components/Messages/Message.tsx:51-54 | For any series of calls and any two moments i <= j, the table at j is no later, key by key, than the table at i |
| `Pagination.ReplayWithoutPages` | apps/web/src/components/Messages/Message.tsx:49 | Calls that never have more history or a loaded message leave the table unchanged |
| `Pagination.EqualTimeRewritesSameCursor` | apps/web/src/components/Messages/Message.tsx:52-54 | A last message at exactly the current cursor passes the `<=` guard, yet every cursor keeps its value |
| `Pagination.TimeMap.constructor` | apps/web/src/components/Messages/Message.tsx:39 | `new Map()` is empty |
| `Pagination.TimeMap.Copy` | apps/web/src/components/Messages/Message.tsx:54 | `new Map(endTime)` has the same entries as its source |
| `Pagination.TimeMap.Get` | apps/web/src/components/Messages/Message.tsx:51 | `get` gives a value exactly when the key is present, and then the stored one |
| `Pagination.TimeMap.Set` | apps/web/src/components/Messages/Message.tsx:53 | `set` overwrites one key and keeps the others |
| `Pagination.MessageState.constructor` | apps/web/src/components/Messages/Message.tsx:39 | The view starts with a fresh, empty cursor map |
| `Pagination.MessageState.CursorFor` | apps/web/src/components/Messages/Message.tsx:40-44 | The end time of the page request is the stored cursor of this key, or none when there is none |
| `Pagination.MessageState.FetchNextMessages` | apps/web/src/components/Messages/Message.tsx:48-57 | The new table is `NextCursors` of the old; the state is replaced exactly when the guard and the comparison pass; then the state is a fresh map and the previous map object holds the same entries (written in place before the copy); otherwise the state is the same object with the same entries |
| `Route.Join` | apps/web/src/components/Messages/Message.tsx:132 | An empty route joins to the empty key; a non-empty route's key starts with its first segment (its inverse is stated by `Route.SplitJoin`) |
| `Route.JoinEndsWithLast` | apps/web/src/components/Messages/Message.tsx:132 | A non-empty route's key ends with its last segment |
| `Route.SplitJoin` | apps/web/src/components/Messages/Message.tsx:132 | Cutting the joined key at `/` gives back the route segments, for a non-empty route whose segments hold no `/` |
| `Route.JoinInjective` | apps/web/src/components/Messages/Message.tsx:132 | Two different non-empty routes whose segments hold no `/` never join to the same key (with a `/` inside a segment they can: `["a/b"]` and `["a", "b"]`) |
| `Route.FindOther` | apps/web/src/components/Messages/Message.tsx:140 | Nothing is found exactly when every member is the current profile; otherwise the result is a member, not the current profile, and every member before it is the current profile |
| `Route.FindOtherTruthy` | apps/web/src/components/Messages/Message.tsx:140-142 | What `find` returns is truthy exactly when some member differs from the current profile, is not empty, and every member before it is the current profile |
| `Route.MessagePage` | apps/web/src/components/Messages/Message.tsx:124-146 | Not-found without a route array or a truthy profile id, for a key that does not parse, and for a group whose members are all the current profile; a rendered view gets the `/`-joined route, which parses; a rendered group has a non-empty member other than the current profile; a key of at most one member renders; a group with no empty member renders exactly when some member is not the current profile; in general a key that parses renders exactly when it has at most one member or its first member other than the current profile is not empty |
| `Route.OutsiderPairRenders` | apps/web/src/components/Messages/Message.tsx:139-146 | A two-member key naming two other profiles renders the view: the page does not check that the current profile is a member |
| `Route.EmptyFirstOtherHidesLaterMember` | apps/web/src/components/Messages/Message.tsx:140-143 | For any key of more than one member whose first member other than the current profile is the empty string, the page is not-found, whatever members follow |
| `Conversation.ShowLoading` | apps/web/src/components/Messages/Message.tsx:63 | The loader flag is false whenever a profile is signed in, and whenever the credential is known to be missing |
| `Conversation.UserNameForTitle` | apps/web/src/components/Messages/Message.tsx:65-66 | A defined display name is used even when empty; the handle only when the display name is null or undefined; the result is truthy exactly when the display name is truthy, or is nullish and the handle is truthy |
| `Conversation.Title` | apps/web/src/components/Messages/Message.tsx:68-70 | The title is the application name alone exactly when the user name is not truthy; otherwise it is the user name, then ` • `, then the application name |
| `Conversation.EmptyDisplayNameHidesHandle` | apps/web/src/components/Messages/Message.tsx:65-70 | A display name that sanitizes to the empty string gives the application name alone as title, even when the handle is truthy |
| `Conversation.Message` | apps/web/src/components/Messages/Message.tsx:59-104 | Not-found exactly when no profile is signed in; otherwise the loader is never shown; the title is the application name alone exactly when the name for the title is not truthy (a display name that sanitizes to the empty string hides a truthy handle); it is a truthy display name, or else a truthy handle when the display name is nullish, then ` • `, then the application name; the composer and the list are disabled exactly when `missingXmtpAuth` is `true`; the children get this key, `hasMore`, and the loaded messages or an empty list |

## Left out

- `apps/web/src/lib/uploadToArweave.ts`: one HTTP POST whose result or failure comes from a remote service; there is no logic of its own to model.
- JSX layout and the child components (`PreviewList`, `MessageHeader`, `MessagesList`, `Composer`, `MetaTags`, `Loader`, `Custom404`): the rendered page is a `View` or `PageOutcome` value.
- The hooks `useGetMessages`, `useStreamMessages`, `useSendMessage`, `useGetProfile` and the app and message stores: network and store access; their results are inputs.
- `parseConversationKey`, `sanitizeDisplayName`, `formatHandle` and `APP_NAME` are not part of this model; they are parameters.
- Page-view tracking (line 120) is an analytics side effect and is not modelled.
- React re-render mechanics: `setEndTime` is modelled as an immediate replacement of the state; callbacks holding an older `endTime` are not modelled.
- Invalid `Date` values (whose time is NaN, which fails every comparison) are not modelled; times are integers.
- Cancelling a page request when the conversation changes: the code has none.
- Route segments that contain `/` (a `%2F` in the path may decode to one): `Route.SplitJoin` and `Route.JoinInjective` assume there are none, which nothing in the page establishes.
