# ProcrastiPlanner client session layer, in Dafny

This project models the browser side of ProcrastiPlanner's authentication and
the small deterministic helpers of its pages.

- **Credential store** (`CredentialStore`). `persistToken` writes the bearer
  token to `localStorage` under `procrastiPlanner.authToken` and mirrors it
  into an `auth-session` cookie. `readToken` comes in two versions: the
  `useAuth` one does not catch a throwing `localStorage`, the `lib/fetcher.ts`
  one does. The cookie jar applies `Max-Age` as section 5.2.2 of RFC 6265
  says, so a lifetime of zero or less deletes the cookie.
- **Session hook** (`Session`). `useAuth` is a class with `user`, `loading`
  and the `isMounted` liveness flag. Every server reply is a parameter: either
  "threw" or a status with an optional parsed body. `fetchSession`, the
  bootstrap effect, `login`, `refreshUser` and `logout` are each stated as a
  function of the old credential media and the reply. Writes to `user` and
  `loading` are dropped once the component has unmounted.
- **Request wrapper** (`RequestClient`). `fetcher` builds a case-insensitive
  `Headers` object, as section 5.1 of RFC 9110 requires. It adds
  `Authorization: Bearer <token>` (section 2.1 of RFC 6750) and defaults for
  `Content-Type` and `Accept`, but never overrides a caller's header. It
  derives the error message of a non-ok reply. It picks the decode path: 204
  No Content (section 15.3.5 of RFC 9110), JSON, or text.
- **Page helpers**:
  - the project-list view of `useProjects` (`ProjectsHook`);
  - the active-link rule and the menu flags of the navigation bar (`Navbar`);
  - initials, user id, stats key, password checks, and the submit and avatar
    handlers of the profile page (`ProfilePage`);
  - the idea summary, the per-day buckets, the bar width and the add/edit/remove
    guards of the idea board (`IdeaBoard`);
  - the duplicate-free trimmed tag lists of the new-project page
    (`NewProjectPage`);
  - the delete-by-id handlers of the dashboard (`DashboardContent`).

Shared vocabulary:
- `Wrappers` holds `Option`.
- `JsValues` holds JSON values, JavaScript truthiness, `??`, `String()` and thrown values.
- `Text` holds the digits of an integer, `trim`, ASCII case mapping and substring search.
- `Sequences` holds `filter` and duplicate-freedom.

Abstract inputs:
- Browser functions (`encodeURIComponent`, date parsing, `toLocaleString`,
  `toLocaleDateString`, and the time of a day label) are function-typed
  parameters or fields.
- The answers of `window.prompt` and `window.confirm` are method parameters.

## Behaviour worth knowing

- The `useAuth` copies of `readToken` and `persistToken` have no `try`/`catch`.
  A throwing `localStorage` therefore makes them throw. In `logout`, that
  throw happens in the `finally` block before `user` and `loading` are reset
  (`Session.AuthHook.Logout`).
- The stored token and its cookie do not always agree. When the server sends
  an `expiresIn` of zero or less, the token is stored but the cookie is
  deleted at once (`CredentialStore.NonPositiveLifetimeSplitsMedia`,
  `Session.LoginZeroExpirySplitsMedia`).

## Model

| member | source | states |
|---|---|---|
| JsValues.Prop | app/hooks/useAuth.ts:165-172 | Reading a property gives a value exactly when the value is an object that has that key, and then the key's value. |
| JsValues.HasKey | app/hooks/useAuth.ts:119 | The `in` operator is defined only on objects and arrays, and is true exactly for an object holding the key. |
| JsValues.Or | lib/fetcher.ts:50 | `a \|\| b` is `a` when `a` is present and truthy, else `b`. |
| JsValues.Coalesce | app/hooks/useAuth.ts:166 | `a ?? b` is `a` when `a` is present and not `null`, else `b`. |
| Text.IntToString | app/hooks/useAuth.ts:50-52 | The decimal text of an integer is non-empty and all digits, with a leading `-` for a negative number. |
| Text.NatToStringRoundTrip | app/hooks/useAuth.ts:50-52 | Reading back the decimal text of a natural number gives the number. |
| Text.Trim | app/projects/new/page.tsx:25 | `trim` returns a trimmed string that is no longer than its input. |
| Text.TrimCuts | app/projects/new/page.tsx:25 | `trim` keeps the infix between a whitespace-only prefix and a whitespace-only suffix, and that infix neither starts nor ends with whitespace. |
| Text.TrimStart | app/projects/new/page.tsx:25 | The leading cut is all whitespace, and what remains is a suffix that does not start with whitespace. |
| Text.TrimEnd | app/projects/new/page.tsx:25 | The trailing cut is all whitespace, and what remains is a prefix that does not end with whitespace. |
| Text.TrimEmptyIff | app/components/IdeaBoard.tsx:64-67 | A string trims to empty exactly when it is all whitespace. |
| Text.TrimIdempotent | app/projects/new/page.tsx:25-26 | Trimming twice is trimming once. |
| Text.ToLower | lib/fetcher.ts:26 | Lower-casing keeps the length and maps every character. |
| Text.ToUpper | app/profile/ProfilePage.tsx:106 | Upper-casing keeps the length and maps every character. |
| Text.Contains | lib/fetcher.ts:63 | `includes` is true exactly when the needle occurs at some position. |
| Sequences.Filter | components/dashboard-content.tsx:76 | `filter` keeps exactly the elements that pass the test and is no longer than its input. |
| Sequences.FilterConcat | components/dashboard-content.tsx:76 | Filtering a concatenation filters each part, so kept elements stay in order. |
| Sequences.FilterKeepsAll | components/dashboard-content.tsx:76 | When every element passes, filtering returns the list unchanged. |
| Sequences.FilterNoDuplicates | app/projects/new/page.tsx:32 | Filtering a duplicate-free list gives a duplicate-free list. |
| Sequences.AppendNoDuplicates | app/projects/new/page.tsx:26 | Appending a new element to a duplicate-free list keeps it duplicate-free. |
| CredentialStore.MaxAgeSeconds | app/hooks/useAuth.ts:50-52 | A `max-age` attribute is read only as an optional `-` followed by digits. |
| CredentialStore.MaxAgeOfDecimal | app/hooks/useAuth.ts:50-52 | The `max-age` text the client writes for an integer is read back as that integer. |
| CredentialStore.StoreCookie | app/hooks/useAuth.ts:50-55 | Storing a cookie line touches only its own name. A `max-age` of zero or less removes the name; otherwise the name maps to the value, persistent exactly when `max-age` was given. |
| CredentialStore.ReadToken | app/hooks/useAuth.ts:59-65 | Gives `null` outside a browser. Throws exactly in a browser with a throwing `localStorage`. Otherwise gives the stored token. |
| CredentialStore.ReadTokenCaught | lib/fetcher.ts:7-17 | The same read, with a throw caught as `null`. It gives a token only in a browser. |
| CredentialStore.PersistThenRead | app/hooks/useAuth.ts:42-65 | After persisting a non-empty token, both readers return it. |
| CredentialStore.ClearThenRead | app/hooks/useAuth.ts:47-55 | After persisting `null` or `""` (the guard is truthiness), both readers return `null`. |
| CredentialStore.ServerSideNoOp | app/hooks/useAuth.ts:42-65 | Outside a browser, persisting changes nothing and reading gives `null`. |
| CredentialStore.StorageFailureChangesNothing | app/hooks/useAuth.ts:48 | A throwing `localStorage` makes persisting throw its error with both media unchanged, and the fetcher's read gives `null`. |
| CredentialStore.SetCookieStored | app/hooks/useAuth.ts:49-52 | Setting writes `auth-session=<encoded token>; path=/; max-age=<n>; samesite=strict`, with `secure` exactly on `https:`. A positive lifetime keeps the cookie in the jar. |
| CredentialStore.DefaultLifetimeKeepsMirror | app/hooks/useAuth.ts:27-52 | With the default lifetime of 86400 seconds, the jar holds the encoded token. |
| CredentialStore.ClearDeletesMirror | app/hooks/useAuth.ts:53-55 | Clearing writes `max-age=0` without `secure`, removes the storage key, and deletes the cookie. |
| CredentialStore.NonPositiveLifetimeSplitsMedia | app/hooks/useAuth.ts:47-52 | With a lifetime of zero or less, the token is stored but the cookie is gone. |
| CredentialStore.Store.PersistToken | app/hooks/useAuth.ts:42-57 | The store's new media and the thrown error are those of `Persist` on the old media. |
| Session.ExtractMessage | app/hooks/useAuth.ts:31-40 | Gives a message exactly when the input is an object whose `message` is a string, and then that string. |
| Session.AsUser | app/hooks/useAuth.ts:119-122 | JSON `null` is "no user"; any other value is the user. |
| Session.AsError | app/hooks/useAuth.ts:179 | The result is always an `Error`, and an `Error` passes through unchanged. |
| Session.LoginToken | app/hooks/useAuth.ts:166 | The token is `accessToken` unless that is absent or `null`, else `token`, else `null`. |
| Session.SessionUser | app/hooks/useAuth.ts:109-122 | A user comes only from an ok reply with a parsed body. For an object body it is the `user` field when present, else the whole body. |
| Session.SessionEffect | app/hooks/useAuth.ts:97-128 | A user is resolved only when the token could be read. |
| Session.SessionFailureGivesNoUser | app/hooks/useAuth.ts:109-127 | A non-ok reply or a thrown `fetch` resolves to `null`. |
| Session.SessionClearsOnlyOn401 | app/hooks/useAuth.ts:110-112 | The media change only on a 401, and a 401 clears the token and the cookie. |
| Session.SessionSuccess | app/hooks/useAuth.ts:99-122 | The stored token is sent as `Bearer <token>`, a `user` field is unwrapped, and the media are untouched. |
| Session.LoginFailureKeepsCredential | app/hooks/useAuth.ts:153-163 | A non-ok login throws the server's `message` or `Credenziali non valide. Riprova.`; an unparsable body counts as `null`. The media are unchanged. |
| Session.LoginRejectedWithServerMessage | app/hooks/useAuth.ts:160-163 | A 401 carrying a `message` throws exactly that message. |
| Session.LoginAdoptsPayloadUser | app/hooks/useAuth.ts:165-175 | With a user in the payload, login returns it without a session check. It persists `accessToken ?? token` with `expiresIn ?? 86400`, so the next read gives the token. |
| Session.LoginFallsBackToSession | app/hooks/useAuth.ts:165-177 | Without a user in the payload, login resolves to what the session check resolves, on the media after persisting. |
| Session.LoginZeroExpirySplitsMedia | app/hooks/useAuth.ts:168-170 | An `expiresIn` of 0 stores the token but deletes the cookie. |
| Session.LogoutRequestResult | app/hooks/useAuth.ts:194-215 | The request part succeeds exactly on an ok reply. A failure throws the server's `message`, or `Impossibile completare il logout.`, or `Errore di rete durante il logout.` for a non-`Error` throw. |
| Session.LogoutServerErrorStillClears | app/hooks/useAuth.ts:203-217 | A 500 from the server is reported, and the token and cookie are cleared anyway. |
| Session.AuthHook.constructor | app/hooks/useAuth.ts:74-76 | Starts with no user, loading, and not mounted. |
| Session.AuthHook.Mount | app/hooks/useAuth.ts:78-79 | Mounting sets the liveness flag. |
| Session.AuthHook.Unmount | app/hooks/useAuth.ts:80-82 | The cleanup clears the liveness flag. |
| Session.AuthHook.SetSafeUser | app/hooks/useAuth.ts:85-89 | `user` changes only while mounted. |
| Session.AuthHook.SetSafeLoading | app/hooks/useAuth.ts:91-95 | `loading` changes only while mounted. |
| Session.AuthHook.FetchSession | app/hooks/useAuth.ts:97-128 | Never throws. The new media, the returned user and the sent header are `SessionEffect`'s. `user` is set to the result only while mounted. |
| Session.AuthHook.Bootstrap | app/hooks/useAuth.ts:130-136 | The session check runs, and `loading` ends false while mounted. |
| Session.AuthHook.RefreshUser | app/hooks/useAuth.ts:187-189 | It is the session check, and it leaves `loading` alone. |
| Session.AuthHook.Login | app/hooks/useAuth.ts:138-185 | The media and the outcome (a user, or a thrown error) are `LoginEffect`'s. `user` is set only on success, and `loading` ends false while mounted. |
| Session.AuthHook.AdoptLoginPayload | app/hooks/useAuth.ts:165-177 | The success branch of login: media and outcome as `LoginSuccessEffect` states. |
| Session.AuthHook.Logout | app/hooks/useAuth.ts:191-221 | The credential is always cleared. The request's failure is still reported, and `user` and `loading` are reset while mounted. A throwing `localStorage` replaces the error and skips the reset. |
| RequestClient.AppendHeader | lib/fetcher.ts:23 | Appending under a name in any letter case adds to the lower-cased entry, joined by `, `, and touches nothing else. |
| RequestClient.HeaderListNames | lib/fetcher.ts:23 | A header is present exactly when some caller pair spells its name in some letter case. |
| RequestClient.HeaderListSingle | lib/fetcher.ts:23 | A name the caller gives once keeps exactly that value. |
| RequestClient.Headers.constructor | lib/fetcher.ts:23 | The new `Headers` holds every caller pair appended in order. |
| RequestClient.Headers.Set | lib/fetcher.ts:26-37 | `set` replaces all values of the lower-cased name. |
| RequestClient.AuthorizationName | lib/fetcher.ts:26 | `Authorization` is matched as `authorization`. |
| RequestClient.ContentTypeName | lib/fetcher.ts:31 | `Content-Type` is matched as `content-type`. |
| RequestClient.AcceptName | lib/fetcher.ts:35 | `Accept` is matched as `accept`. |
| RequestClient.PrepareAuthorization | lib/fetcher.ts:24-28 | `Authorization: Bearer <token>` is added exactly when a token was read and the caller set none. The caller's value is kept otherwise. |
| RequestClient.CallerAuthorizationWins | lib/fetcher.ts:26 | Any spelling of `Authorization` from the caller blocks the bearer credential and keeps its own value. |
| RequestClient.PrepareContentType | lib/fetcher.ts:30-33 | `Content-Type: application/json` is added exactly for a truthy non-`FormData` body when the caller set none. |
| RequestClient.PrepareAccept | lib/fetcher.ts:35-37 | `Accept` is the caller's value, else `application/json`. |
| RequestClient.PreparePassesThrough | lib/fetcher.ts:39-43 | The input and every other init field pass through. Other headers are the caller's. `credentials` is always `include`. |
| RequestClient.FailureMessage | lib/fetcher.ts:46-53 | An unparsable body gives `Request failed`. |
| RequestClient.FailureMessageRule | lib/fetcher.ts:46-55 | For every body, the message is `String(payload?.message \|\| payload?.error \|\| 'Request failed')`, and `Request failed` when the body did not parse. |
| RequestClient.FailureMessageOfNumber | lib/fetcher.ts:50-55 | A truthy non-string `message` such as `42` is converted, so the error reads `42`. |
| RequestClient.FailureMessageOfError | lib/fetcher.ts:50 | Without a truthy `message`, a non-empty `error` string is the message, whatever other keys the body holds. |
| RequestClient.FailureMessageFallsThrough | lib/fetcher.ts:50 | An empty `message` falls through to `error`, and an empty `error` to `Request failed`. |
| RequestClient.FailureMessageOfNonObject | lib/fetcher.ts:50 | A body that is not an object gives `Request failed`. |
| RequestClient.Decode | lib/fetcher.ts:45-67 | Only an ok reply resolves. A non-ok reply throws the derived message, and a failed `fetch` rethrows its error. |
| RequestClient.NoContentIgnoresBody | lib/fetcher.ts:58-60 | A 204 resolves to `undefined` whatever the headers and body. |
| RequestClient.DecodePath | lib/fetcher.ts:62-67 | Any other ok reply is JSON exactly when its content type contains `application/json`, else text. |
| RequestClient.JsonWithParameters | lib/fetcher.ts:62-64 | `application/json; charset=utf-8` is still decoded as JSON. |
| RequestClient.BuildRequest | lib/fetcher.ts:23-43 | The three guarded `set` calls on the caller's `Headers` give the request `Prepare` specifies. |
| RequestClient.SettleReply | lib/fetcher.ts:45-67 | The reply steps give the outcome `Decode` specifies. |
| RequestClient.Fetch | lib/fetcher.ts:19-68 | Sends the request prepared with the fetcher's own token read, and settles as `Decode`. |
| ProjectsHook.FetchProjects | app/hooks/useProjects.ts:14-22 | Resolves exactly on an ok parsed reply, to its body. Otherwise rejects with `Failed to fetch projects` or the thrown error. |
| ProjectsHook.View | app/hooks/useProjects.ts:27-31 | The error passes through unchanged. |
| ProjectsHook.ProjectsDefault | app/hooks/useProjects.ts:28 | `projects` is the data when defined and not `null`, else the empty list. |
| ProjectsHook.LoadingWhileValidating | app/hooks/useProjects.ts:29 | A revalidation in flight always reads as loading. |
| ProjectsHook.LoadedWhenDataPresent | app/hooks/useProjects.ts:29 | With data and no revalidation, the view is not loading. |
| ProjectsHook.LoadingWithoutData | app/hooks/useProjects.ts:28-29 | Without data, the view is loading exactly when there is no error or a revalidation runs. |
| Navbar.RootActiveOnlyOnRoot | app/components/Navbar.tsx:50-51 | The `/` link is active exactly on `/`. |
| Navbar.ActiveIsPrefix | app/components/Navbar.tsx:50-51 | Any other link is active exactly when its href is a prefix of the path. |
| Navbar.NoSegmentBoundary | app/components/Navbar.tsx:51 | `/projectsX` activates `/projects`: there is no segment-boundary check. |
| Navbar.AriaCurrent | app/components/Navbar.tsx:65 | `aria-current` is `page` exactly for an active link, and absent otherwise. |
| Navbar.NavbarState.constructor | app/components/Navbar.tsx:25-27 | Starts with the menu closed and not logging out. |
| Navbar.NavbarState.ToggleMenu | app/components/Navbar.tsx:149 | The toggle flips `isMenuOpen`. |
| Navbar.NavbarState.Navigate | app/components/Navbar.tsx:29-31 | A path change closes the menu. |
| Navbar.NavbarState.HandleLogout | app/components/Navbar.tsx:33-47 | Does nothing without `logout`. Otherwise the session's logout runs and its error is swallowed, the credential is cleared, and both flags end false. |
| ProfilePage.FormatDate | app/profile/ProfilePage.tsx:37-44 | A missing or empty value, or one that does not parse, gives `—`. Otherwise the result is the formatted date. |
| ProfilePage.Split | app/profile/ProfilePage.tsx:102 | `split(' ')` gives at least one segment, none holding a space. |
| ProfilePage.SplitJoin | app/profile/ProfilePage.tsx:102 | Joining the segments with spaces gives the source back. |
| ProfilePage.HeadsOfSplit | app/profile/ProfilePage.tsx:101-104 | The joined first characters of the segments are the characters that start a word. |
| ProfilePage.InitialsSource | app/profile/ProfilePage.tsx:96-100 | Picks the first truthy of name, display name and email, and is absent exactly when all three are falsy. |
| ProfilePage.Initials | app/profile/ProfilePage.tsx:95-98 | Without a source, the initials are `U`. |
| ProfilePage.InitialsOfWords | app/profile/ProfilePage.tsx:100-106 | Otherwise the initials are the first two word starts, upper-cased, at most two characters long. |
| ProfilePage.SpacesHaveNoInitials | app/profile/ProfilePage.tsx:103 | Empty segments contribute nothing. |
| ProfilePage.UserId | app/profile/ProfilePage.tsx:81 | `_id` when truthy, else `id`. |
| ProfilePage.StatsKey | app/profile/ProfilePage.tsx:82 | `null` exactly without a user id, else `/api/users/<id>/stats`. |
| ProfilePage.MismatchBlocksSubmit | app/profile/ProfilePage.tsx:153 | The on-screen mismatch implies the submit guard rejects. The guard also rejects a new password with an empty confirmation. |
| ProfilePage.PayloadFields | app/profile/ProfilePage.tsx:164-169 | Name and email are trimmed, the current password is verbatim, and `newPassword` is present exactly when non-empty. |
| ProfilePage.SubmitRequest | app/profile/ProfilePage.tsx:148-174 | No request is made without a user id or with mismatched passwords. Otherwise the request is `PUT /api/users/<id>` with the payload. |
| ProfilePage.ProfileState.constructor | app/profile/ProfilePage.tsx:49-50 | Both busy flags start false. |
| ProfilePage.ProfileState.OnSubmit | app/profile/ProfilePage.tsx:148-200 | Sends exactly `SubmitRequest`'s request. Once sent, `isSubmitting` ends false. The form is reset and the user refreshed only after a successful update. |
| ProfilePage.ProfileState.HandleAvatarChange | app/profile/ProfilePage.tsx:113-146 | Uploads to `/api/users/<id>/avatar` exactly with a file and a user id. Then `isUploadingAvatar` ends false and the input is cleared, and the user is refreshed only after a successful upload. |
| IdeaBoard.IdeaSummary | app/components/IdeaBoard.tsx:20-36 | Total is the length. An empty list gives empty text and date. Otherwise the text is the last idea's, and the date is its formatted time or the raw `createdAt` when that does not parse. |
| IdeaBoard.Keys | app/components/IdeaBoard.tsx:48 | The keys of the entries, position by position. |
| IdeaBoard.LookupFinds | app/components/IdeaBoard.tsx:45 | `Map.get` finds a key exactly when it was set. |
| IdeaBoard.SetCountKeys | app/components/IdeaBoard.tsx:45-48 | `Map.set` keeps insertion order: a new key goes last, and an old key keeps its place. |
| IdeaBoard.SetCountLookup | app/components/IdeaBoard.tsx:45 | After `set`, the key reads the new count and other keys are unchanged. |
| IdeaBoard.SetCountSum | app/components/IdeaBoard.tsx:45 | `set` changes the sum of counts by the difference between the new and the old count. |
| IdeaBoard.SetCountPositive | app/components/IdeaBoard.tsx:45 | Positive counts stay positive. |
| IdeaBoard.LookupDistinct | app/components/IdeaBoard.tsx:45 | With distinct keys, `get` returns an entry's own count. |
| IdeaBoard.TallyKeysDistinct | app/components/IdeaBoard.tsx:39-48 | The `Map` the loop fills never holds a key twice. |
| IdeaBoard.TallyLookup | app/components/IdeaBoard.tsx:39-46 | `counts.get(key)` is the number of ideas with that label, and absent when there are none. |
| IdeaBoard.TallyPositive | app/components/IdeaBoard.tsx:45 | Every count in the `Map` is at least 1. |
| IdeaBoard.TallySum | app/components/IdeaBoard.tsx:40-46 | The counts add up to the number of ideas. |
| IdeaBoard.TallyCounts | app/components/IdeaBoard.tsx:39-48 | The tallied keys are distinct, each count is the number of ideas with that label and at least 1, and the counts sum to the number of ideas. |
| IdeaBoard.TallyEntry | app/components/IdeaBoard.tsx:39-48 | Each tallied entry counts its label's ideas, at least once. |
| IdeaBoard.InsertPermutes | app/components/IdeaBoard.tsx:49-53 | Inserting adds exactly one entry. |
| IdeaBoard.SortByDayPermutes | app/components/IdeaBoard.tsx:49-53 | Sorting is a permutation of the entries. |
| IdeaBoard.InsertSorted | app/components/IdeaBoard.tsx:49-53 | Inserting into a sorted list keeps it sorted by the comparator. |
| IdeaBoard.SortByDaySorted | app/components/IdeaBoard.tsx:49-53 | The sorted entries are in comparator order. |
| IdeaBoard.InsertKeys | app/components/IdeaBoard.tsx:49-53 | Inserting a new key keeps keys distinct and adds exactly that key. |
| IdeaBoard.SortByDayKeys | app/components/IdeaBoard.tsx:49-53 | Sorting keeps the set of keys and their distinctness. |
| IdeaBoard.UnknownDateLast | app/components/IdeaBoard.tsx:50-51 | In the sorted entries, `Unknown date` can only be last. |
| IdeaBoard.LastFive | app/components/IdeaBoard.tsx:55 | `slice(-5)` is the suffix of length `min(5, n)`. |
| IdeaBoard.CountByDay | app/components/IdeaBoard.tsx:39-46 | The `forEach` loop fills the map `Tally` specifies. |
| IdeaBoard.SuffixSortedDistinct | app/components/IdeaBoard.tsx:55 | A suffix of sorted distinct entries is sorted and distinct. |
| IdeaBoard.SortedTally | app/components/IdeaBoard.tsx:39-53 | The sorted tally is sorted, with distinct keys and the same keys as the tally. |
| IdeaBoard.SortedEntry | app/components/IdeaBoard.tsx:39-53 | Each sorted entry counts its label's ideas, at least once. |
| IdeaBoard.RecentIdeaBuckets | app/components/IdeaBoard.tsx:38-56 | The last five entries of the sorted tally: at most 5, sorted, distinct keys, each count its label's number of ideas and at least 1, `Unknown date` only last. |
| IdeaBoard.BarWidth | app/components/IdeaBoard.tsx:240 | `min(count*20, 100)`: never above 100, and exactly 100 from 5 on. |
| IdeaBoard.BarWidthOfBucket | app/components/IdeaBoard.tsx:240 | For counts of at least 1, the width lies in [20, 100]. |
| IdeaBoard.IdeaBoardState.constructor | app/components/IdeaBoard.tsx:18 | The draft starts empty. |
| IdeaBoard.IdeaBoardState.HandleAdd | app/components/IdeaBoard.tsx:58-71 | `onAdd` receives the trimmed draft exactly when the handler exists and the draft trims to non-empty; the draft is then cleared. Otherwise the draft is kept. |
| IdeaBoard.HandleEdit | app/components/IdeaBoard.tsx:73-83 | The prompt shows the current text. `onEdit(idx, answer.trim())` is called exactly when the answer trims to non-empty. |
| IdeaBoard.HandleRemove | app/components/IdeaBoard.tsx:85-93 | Asks exactly when the handler exists, and removes exactly on confirmation. |
| NewProjectPage.AddTag | app/projects/new/page.tsx:24-29 | An accepted draft (trims to non-empty and not yet listed) is appended trimmed and the draft cleared. Otherwise list and draft are unchanged. |
| NewProjectPage.RemoveTag | app/projects/new/page.tsx:31-33 | The removed tag is gone, and exactly the other entries remain. |
| NewProjectPage.AddTagKeepsInvariant | app/projects/new/page.tsx:24-29 | Adding keeps the list duplicate-free with trimmed, non-empty entries. |
| NewProjectPage.RemoveTagKeepsInvariant | app/projects/new/page.tsx:31-33 | Removing keeps that invariant. |
| NewProjectPage.RemoveAbsentTag | app/projects/new/page.tsx:32 | Removing an unlisted tag changes nothing. |
| NewProjectPage.RemoveUndoesAdd | app/projects/new/page.tsx:24-33 | Removing the tag just added gives the old list back, in order. |
| NewProjectPage.RemoveListedTag | app/projects/new/page.tsx:31-33 | In a duplicate-free list, removing the tag at one position drops that position alone and keeps the order of the rest. |
| NewProjectPage.AddTwiceAddsOnce | app/projects/new/page.tsx:25 | Adding the same draft again is refused. |
| NewProjectPage.NewProjectForm.constructor | app/projects/new/page.tsx:18-21 | Drafts and lists start empty, with the invariant holding. |
| NewProjectPage.NewProjectForm.AddTechnology | app/projects/new/page.tsx:24-29 | The technology list and draft become `AddTag`'s. The features are untouched. The invariant is kept. |
| NewProjectPage.NewProjectForm.RemoveTechnology | app/projects/new/page.tsx:31-33 | The technology list becomes `RemoveTag`'s. Everything else is untouched. |
| NewProjectPage.NewProjectForm.AddFeature | app/projects/new/page.tsx:35-40 | The feature list and draft become `AddTag`'s. The technologies are untouched. |
| NewProjectPage.NewProjectForm.RemoveFeature | app/projects/new/page.tsx:42-44 | The feature list becomes `RemoveTag`'s. Everything else is untouched. |
| DashboardContent.WithoutId | components/dashboard-content.tsx:76 | No remaining entry carries the id. Every entry with another id remains, and nothing new appears. |
| DashboardContent.WithoutAbsentId | components/dashboard-content.tsx:76 | Deleting an id no entry carries leaves the list unchanged. |
| DashboardContent.WithoutIdConcat | components/dashboard-content.tsx:76 | Deleting works piecewise, so remaining entries keep their order. |
| DashboardContent.WithoutIdIdempotent | components/dashboard-content.tsx:76 | Deleting twice is deleting once. |
| DashboardContent.WithoutIdOfDistinct | components/dashboard-content.tsx:75-77 | With distinct ids, deleting the id at position k removes exactly that entry. |
| DashboardContent.MockIdsDistinct | components/dashboard-content.tsx:29-63 | The example ideas and projects each have distinct ids. |
| DashboardContent.Dashboard.constructor | components/dashboard-content.tsx:66-67 | Both lists start empty. |
| DashboardContent.Dashboard.LoadMockData | components/dashboard-content.tsx:69-73 | The lists become the example data, whose ids are distinct. |
| DashboardContent.Dashboard.DeleteIdea | components/dashboard-content.tsx:75-77 | The ideas become `WithoutId`'s, none with that id. The projects are unchanged. |
| DashboardContent.Dashboard.DeleteProject | components/dashboard-content.tsx:79-81 | The projects become `WithoutId`'s, none with that id. The ideas are unchanged. |

## Left out

- Network, JSON parsing and `response.text()`: each reply is an input: a status plus an optional parsed body, or "threw". A `fetch` that rejects is `Threw`, and an unparsable body is an absent body.
- SWR: caching, de-duplication, revalidation and `mutate` are library internals. `useProjects` is modelled only through the tuple `data`/`error`/`isValidating` that SWR hands it.
- React scheduling: effect ordering and interleaving between overlapping `login` or bootstrap calls are not modelled. Only the `isMountedRef` flag is, as a field.
- Rendering: JSX, styling, toasts, `router.push`, `react-hook-form`, `console.error` and the avatar file picker click are left out. The prompt and confirm answers, and whether an upload or update succeeded, are parameters.
- `encodeURIComponent`, `new Date`, `toLocaleString`, `toLocaleDateString`, and the time of a day label are abstract functions. The comparator's `NaN` case (two unparsable labels) is not modelled: day-label times are integers.
- IdeaBoard.SortByDay: the in-place `Array.prototype.sort` is modelled on sequence values as a stable insertion sort with the source comparator. The model does not capture update in place.
- Text.Trim: whitespace is the ECMAScript set of spaces and line terminators, listed character by character. No Unicode database is consulted.
- Text.ToUpper: ASCII-only. JavaScript `toUpperCase` can lengthen a string (for example `ß` becomes `SS`), so the two-character bound of `ProfilePage.InitialsOfWords` holds in the model but not always in the browser.
- JsValues.Json: numbers are integers. `String()` of a fractional `expiresIn` is not modelled.
- A component that unmounts while `login`, `logout` or the bootstrap effect awaits its reply is not modelled: the liveness flag is fixed for the length of each method, so a request that starts mounted and ends unmounted cannot be stated. The credential writes are not gated on the flag in either case; only the dead component's `loading` and `user` would differ.
- ProfilePage.Initials: `segment[0]` and `slice(0, 2)` index UTF-16 code units, while the model indexes characters. For names outside the Basic Multilingual Plane the browser keeps half of a surrogate pair where the model keeps the whole character.
- RequestClient.Headers.Set: the browser's `Headers` rejects invalid header names and values with a `TypeError` and strips leading and trailing whitespace from values. The model keeps names and values as given.
- The email pattern check of the profile form needs a regular-expression engine and is left out.
- ProfilePage: fetching the stats with `useSWR` and showing them is rendering; only the key is modelled.
- The mock and redirect pages (`app/login/page.tsx`, `app/ideas/new/page.tsx`, `components/dashboard-header.tsx`, `app/page.tsx`, `app/dashboard/page.tsx`), the context glue of `app/components/AuthProvider.tsx`, the build settings in `next.config.mjs`, and the rendering-only project components are not part of this model. The dashboard's `formatDate` and the new-project `handleSubmit` timer are left out with them.
