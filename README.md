# VK → Telegram crossposting client, v6.1 core

This is a Dafny model of the client half of a bot that reposts posts from
VK groups into Telegram chats. The client runs as a Google Apps Script
bound to a spreadsheet. Two parts of the client are modelled. The first
is the set of functions added in v6.1 (`client_patches/functions_added_v6.1.js`):

- **The license cache.** It has three tiers: the `appState.license` memory
  slot, the `LICENSE_KEY` and `LICENSE_META` user properties, and a call to
  the server. Its operations are `getLicenseCached`, `changeLicense` and
  `saveLicenseWithCheck`.
- **The publication ledger.** Each VK group has one sheet in the
  spreadsheet, named after the group's screen name
  (`extractSheetNameFromVkUrl`). A row in that sheet records that a post
  was delivered. The operations are `isPostAlreadySent`, `markPostAsSent`
  and `ensureAllPublishedSheetsExist`.
- **The VK link rewriter `processVkLinks`.** It turns VK's
  `[ref|caption]` markup into Telegram Markdown links.
- **The sync entry points.** These are `safePickLastPost`,
  `checkNewPosts`, `publishLastPost` and `getInitialData`.

The second part is the `cleanupOrphanedCache` routine that v6.1 removed
(`client_patches/functions_removed_v6.1.js`). It deleted the old
`Published_<group id>` sheets of groups that no binding refers to.

Modules:

| module | models |
|---|---|
| `Wrappers` | `Option` and `Result` |
| `Text` | `String.prototype.trim` and the regular-expression character classes |
| `VkLinks` | `processVkLinks` |
| `SheetNames` | `extractSheetNameFromVkUrl` |
| `Bindings` | a binding record, the active filter, `find` by id |
| `Posts` | `safePickLastPost` |
| `Ledger` | `class Workbook`: the spreadsheet's sheets as a map from name to rows, with `isPostAlreadySent`, `markPostAsSent` and `ensureAllPublishedSheetsExist` |
| `Licensing` | `class LicenseCache`: the memory slot, the two user properties, `getLicenseCached`, `changeLicense` and `saveLicenseWithCheck` |
| `Sync` | `checkNewPosts`, `publishLastPost` and `getInitialData` |
| `Cleanup` | `cleanupOrphanedCache` |

State that the scripts change in place lives in classes:

- `Workbook.sheets` is the spreadsheet;
- `LicenseCache.memory`, `keyProp` and `metaProp` are the memory slot and
  the two user properties.

The methods that change them are proved against specification functions,
and the specification functions carry the lemmas. The JavaScript
loops are kept as loops:

- the row scan of `isPostAlreadySent`;
- the `forEach` of `ensureAllPublishedSheetsExist`;
- the picking loop of `safePickLastPost`;
- the filter and send loops of `checkNewPosts`;
- the group collection and sheet sweep of `cleanupOrphanedCache`.

The forEach of `ensureAllPublishedSheetsExist`, the filter and send loops
and the group collection keep an invariant that ties the state so far to
a fold of the specification over the prefix already processed. The row
scan keeps "no row so far holds the id". The picking loop keeps "the pick
of what remains is the pick of the whole list". The sheet sweep keeps
"the sheets visited so far are swept as the specification says".

The server, VK and the spreadsheet service are not part of this model.
Their answers are parameters:

- `remote` is what `getLicense()` returns;
- `bindings` is the outcome of `getBindingsWithNames()`;
- `groupIdOf` is `extractVkGroupId`;
- `fetch` is `getVkPosts`;
- `send` is `sendPostToServer`;
- `reply` is the parsed answer of the license server.

`Date.now()` is an integer parameter `now`. The formatted timestamp of a
ledger row is a string parameter, and one call uses one timestamp for all
its rows.

JavaScript's falsy values are modelled as follows:

- an absent or empty string is `""`;
- an absent post id or `syncPostsCount` is `0`;
- an absent license is `None`.

Where the code and its accompanying documentation disagree, the model
follows the code:

- **License refresh failure.** When the server has no license,
  `getLicenseCached` returns `null` and writes nothing (:64-87). No
  degraded license is kept.
- **`isPostAlreadySent` ignores the status column.** It compares only
  column 0 of rows 1.. (:151-156).
- **Full URLs are kept.** `processVkLinks` keeps a reference that is
  already a URL, such as `vk.com/daoqub`, verbatim (:276-277). It emits
  Markdown rather than HTML.
- **Binding URL fields.** `checkNewPosts` and `publishLastPost` read only
  `vkGroupUrl`. `ensureAllPublishedSheetsExist` and
  `cleanupOrphanedCache` fall back to `vk_group_url`.
- **Cleanup uses every binding.** `cleanupOrphanedCache` collects group
  ids from every binding, whatever its status, despite calling them
  "active groups".
- **Trim.** `trim` removes the whole WhiteSpace and LineTerminator set of
  ECMA-262, not only ASCII white space.
- **Scheme stripping.** Stripping `https://`, `m.` and `www.` in
  `extractSheetNameFromVkUrl` can never change its result, because the
  stripped text contains no `v`, `?` or `#`
  (`SheetNames.ExtractIsUnstripped`).
- **An existing empty sheet.** If the group's sheet exists but has no
  rows at all (no header), `markPostAsSent` appends the post as row 0.
  `isPostAlreadySent` skips row 0, so the post is not seen as sent
  (`Ledger.MarkOnEmptySheetNotRecorded`). Sheets that the code creates
  always get the header first, so the round trip holds for them
  (`Ledger.MarkThenRecorded`).

## Model

| member | source | states |
|---|---|---|
| Text.Trim | client_patches/functions_added_v6.1.js:315 | the trimmed string is never longer than the input |
| Text.TrimSpec | client_patches/functions_added_v6.1.js:315 | `trim` returns the slice of its input that only white space precedes and follows, with no white space at either of its own ends; it is empty exactly when the input is all white space |
| Text.TrimIdempotent | client_patches/functions_added_v6.1.js:280 | trimming a trimmed caption changes nothing |
| Text.RunIsMaximal | client_patches/functions_added_v6.1.js:263 | a greedy character-class run holds only class characters and stops at a character outside the class |
| Text.RunEndsAt | client_patches/functions_added_v6.1.js:263 | a run of class characters followed by a non-class character (or the end) is exactly what the greedy quantifier takes |
| VkLinks.ProcessVkLinks | client_patches/functions_added_v6.1.js:259 | empty text is returned as it is |
| VkLinks.UnchangedIffNoLink | client_patches/functions_added_v6.1.js:258-287 | the output equals the input if and only if the text contains no VK link markup match |
| VkLinks.SingleLinkRewritten | client_patches/functions_added_v6.1.js:265-281 | a text with one markup and no `[` around it: the match becomes `[trim(caption)](url)` and the text around it is kept character for character |
| VkLinks.LinkRewritten | client_patches/functions_added_v6.1.js:263-281 | for any text following the first match: the text before it is kept, the match becomes `[trim(caption)](url)`, and what follows is rewritten as if on its own |
| VkLinks.ScanShift | client_patches/functions_added_v6.1.js:265 | the global replace continues on a tail of the text exactly as it would on that tail alone |
| VkLinks.PlainPreserved | client_patches/functions_added_v6.1.js:265 | text between matches is copied unchanged, one character at a time |
| VkLinks.LinkAtGroups | client_patches/functions_added_v6.1.js:263 | the captured reference has no bar or `]`, the caption has no `]`, and both are non-empty |
| VkLinks.LinkAtMarkup | client_patches/functions_added_v6.1.js:263 | the matched text is exactly `[`, ref, a bar, caption and `]` |
| VkLinks.MarkupIsMatched | client_patches/functions_added_v6.1.js:263 | the markup of a reference and caption written into a text with well-formed groups is matched at that position with exactly those groups |
| VkLinks.UrlRule | client_patches/functions_added_v6.1.js:269-278 | a reference in one of the three languages gets the `https://vk.com/` prefix, and any other reference is used verbatim. The languages are `id`, `club`, `public` or `event` followed by one digit or more; `wall`, an optional `-`, digits, `_` and digits; and non-empty strings over `[a-zA-Z0-9_.]`. Each is stated as strings built from pieces, not through the matching code |
| VkLinks.ResolveUrl | client_patches/functions_added_v6.1.js:268-277 | the URL ends with the reference: either branch only ever puts something in front of it (which prefix, and when, is UrlRule) |
| VkLinks.RenderShape | client_patches/functions_added_v6.1.js:280 | the callback returns a Telegram Markdown link: `[`, the trimmed caption, `](`, the resolved URL and `)`, in that order and nothing else |
| VkLinks.DigitsAfterSpec | client_patches/functions_added_v6.1.js:269 | the run-based test for `^<prefix>\d+$` accepts exactly the prefix followed by one digit or more |
| VkLinks.WallSpec | client_patches/functions_added_v6.1.js:269 | the run-based test for `^wall-?\d+_\d+$` accepts exactly `wall`, an optional `-`, digits, `_` and digits |
| VkLinks.ShortIdSpec | client_patches/functions_added_v6.1.js:269 | the short-id test accepts exactly the union of the four digit languages and the wall language |
| VkLinks.ScreenNameSpec | client_patches/functions_added_v6.1.js:271 | the run-based test for `^[a-zA-Z0-9_.]+$` accepts exactly the non-empty strings over that class |
| VkLinks.IdExample | client_patches/functions_added_v6.1.js:262 | `id123456` resolves to `https://vk.com/id123456` |
| VkLinks.ClubExample | client_patches/functions_added_v6.1.js:262 | `club123` resolves to `https://vk.com/club123` |
| VkLinks.WallExample | client_patches/functions_added_v6.1.js:269 | `wall-1_2` resolves to `https://vk.com/wall-1_2` |
| VkLinks.ScreenNameExample | client_patches/functions_added_v6.1.js:271-273 | `durov` resolves to `https://vk.com/durov` |
| VkLinks.VerbatimRef | client_patches/functions_added_v6.1.js:274-277 | a reference with a character outside `[a-zA-Z0-9_.]` that does not start with `wall` is used verbatim |
| VkLinks.VerbatimExamples | client_patches/functions_added_v6.1.js:274-277 | `https://example.com` and `vk.com/daoqub` are used verbatim |
| SheetNames.ExtractSheetName | client_patches/functions_added_v6.1.js:105 | an empty URL gives no sheet name |
| SheetNames.SheetNameIsName | client_patches/functions_added_v6.1.js:114-119 | a sheet name is a non-empty string over `[a-zA-Z0-9_.]` |
| SheetNames.FindVkSpec | client_patches/functions_added_v6.1.js:114 | the match of `vk\.com\/[a-zA-Z0-9_.]` found is the leftmost, and none is found only when there is none |
| SheetNames.ExtractIsUnstripped | client_patches/functions_added_v6.1.js:109 | removing the scheme and `m.`/`www.` never changes the result |
| SheetNames.ExtractIgnoresPrefix | client_patches/functions_added_v6.1.js:109 | a prefix without `v`, `?` or `#` in front of a URL does not change the result |
| SheetNames.ExtractIgnoresQuery | client_patches/functions_added_v6.1.js:109 | a `?query` suffix does not change the result |
| SheetNames.ExtractIgnoresFragment | client_patches/functions_added_v6.1.js:109 | a `#fragment` suffix does not change the result |
| SheetNames.NameOfVkPath | client_patches/functions_added_v6.1.js:111-119 | `vk.com/` + name gives name back, for any name over `[a-zA-Z0-9_.]` |
| SheetNames.NameOfFullUrl | client_patches/functions_added_v6.1.js:109-119 | `https://www.vk.com/` + name + `?query` + `#fragment` gives name back |
| Bindings.GroupUrlOf | client_patches/functions_added_v6.1.js:225 | the URL with its `vk_group_url` fallback is empty only when both fields are |
| Bindings.ActiveOnly | client_patches/functions_added_v6.1.js:393-395 | the filtered list is no longer than the input and holds only `active` bindings |
| Bindings.ActiveOnlySpec | client_patches/functions_added_v6.1.js:393-395 | the filter keeps exactly the bindings whose status is `active` |
| Bindings.ActiveOnlyAppend | client_patches/functions_added_v6.1.js:393-395 | the filter works binding by binding: filtering a + b gives the filtered a followed by the filtered b, so order and repetitions are kept |
| Bindings.ActiveOnlySingle | client_patches/functions_added_v6.1.js:393-395 | a single binding is kept exactly when its status is `active` |
| Bindings.FindBinding | client_patches/functions_added_v6.1.js:487-489 | a binding found has the id asked for |
| Bindings.FindBindingSpec | client_patches/functions_added_v6.1.js:487-489 | `find` returns the first binding with that id, and nothing exactly when none has it |
| Posts.SafePickLastPost | client_patches/functions_added_v6.1.js:298-335 | the loop returns the first post that has an id and either non-blank text or an attachment |
| Posts.FirstPublishable | client_patches/functions_added_v6.1.js:306-329 | a post picked has an id and either non-blank text or an attachment |
| Posts.FirstPublishableSpec | client_patches/functions_added_v6.1.js:300-329 | the post picked is publishable and no earlier one is; no post is picked exactly when none is publishable, the empty list included |
| Posts.HasTextSpec | client_patches/functions_added_v6.1.js:315 | a post has text exactly when its text is not all white space |
| Ledger.Workbook.IsPostAlreadySent | client_patches/functions_added_v6.1.js:137-164 | the answer is true exactly when the name and id are set, the sheet exists and some row after the header holds the id in column 0; the workbook is not changed |
| Ledger.Workbook.MarkPostAsSent | client_patches/functions_added_v6.1.js:172-204 | the new sheets are those of the specification: nothing without a name or id, otherwise the sheet (created with the 6-column header when missing) gets one `sent` row appended |
| Ledger.MarkThenRecorded | client_patches/functions_added_v6.1.js:172-197 | after marking, the post is reported as sent, when the sheet was missing or had its header |
| Ledger.MarkOnEmptySheetNotRecorded | client_patches/functions_added_v6.1.js:151-152 | on an existing sheet with no rows the marked post is not reported as sent |
| Ledger.MarkFrame | client_patches/functions_added_v6.1.js:190-197 | marking appends exactly one row to the named sheet and leaves the prior rows and every other sheet unchanged |
| Ledger.MarkKeepsRecords | client_patches/functions_added_v6.1.js:190 | every post recorded before marking is still recorded after it |
| Ledger.Workbook.EnsureAllPublishedSheetsExist | client_patches/functions_added_v6.1.js:210-247 | on a bindings failure the error is returned and nothing changes; otherwise the fold over the bindings is applied and `total` is the binding count, `created` the number of sheets added |
| Ledger.EnsuredIsWithSheets | client_patches/functions_added_v6.1.js:224-236 | the loop adds a header-only sheet for each extracted name that has none, and nothing else |
| Ledger.NamesOfSpec | client_patches/functions_added_v6.1.js:225-227 | the names are exactly the sheet names extracted from the bindings' URLs |
| Ledger.WithSheetsFrame | client_patches/functions_added_v6.1.js:227 | existing sheets keep their rows, and new ones get only the header |
| Ledger.CreatedCount | client_patches/functions_added_v6.1.js:232 | `created` is the number of names that had no sheet |
| Ledger.EnsureTwice | client_patches/functions_added_v6.1.js:227-232 | a second run changes nothing and creates 0 sheets |
| Licensing.LicenseCache.GetLicenseCached | client_patches/functions_added_v6.1.js:29-93 | the license returned and the new memory slot and properties are those of the three-tier lookup |
| Licensing.MemoryTier | client_patches/functions_added_v6.1.js:32-38 | a fresh memory entry is returned without touching the properties, and the server's answer does not matter |
| Licensing.StoreTier | client_patches/functions_added_v6.1.js:41-59 | when the memory slot is not fresh but both properties are, the stored license is promoted to memory and returned |
| Licensing.ForceBypassesTiers | client_patches/functions_added_v6.1.js:32-67 | with forceRefresh the cached state does not influence the result |
| Licensing.RefreshWrites | client_patches/functions_added_v6.1.js:67-84 | a server answer with a key gets `cachedAt := now` and is written to memory, `LICENSE_KEY` and `LICENSE_META` before it is returned |
| Licensing.RefreshFails | client_patches/functions_added_v6.1.js:69-87 | without a key from the server the result is `null` and nothing is written |
| Licensing.TtlBoundary | client_patches/functions_added_v6.1.js:16-34 | the TTL is 86400000 ms; an entry is fresh one millisecond before it and stale at it |
| Licensing.RefreshThenMemoryHit | client_patches/functions_added_v6.1.js:32-72 | after a refresh, a lookup within the TTL is served from memory |
| Licensing.RefreshThenStoreHit | client_patches/functions_added_v6.1.js:45-81 | after a refresh, a lookup within the TTL with an empty memory slot is served from the properties |
| Licensing.LicenseCache.ChangeLicense | client_patches/functions_added_v6.1.js:589-605 | both properties and the memory slot are empty afterwards |
| Licensing.ClearedGoesToServer | client_patches/functions_added_v6.1.js:593-595 | after `changeLicense` the next lookup asks the server |
| Licensing.LicenseCache.SaveLicenseWithCheck | client_patches/functions_added_v6.1.js:546-583 | a blank key is refused with its message and nothing written; a refused key changes nothing; an accepted key is stored and the cache refreshed by force |
| Sync.FetchCount | client_patches/functions_added_v6.1.js:417-420 | the count asked for is never 0 and never above 10 |
| Sync.FetchCountSpec | client_patches/functions_added_v6.1.js:417-420 | the fetch count is 1 without a setting, the setting up to 10, and never above 10 |
| Sync.FilterNew | client_patches/functions_added_v6.1.js:428-430 | the loop keeps exactly the posts the specification filter keeps |
| Sync.NewPosts | client_patches/functions_added_v6.1.js:428-430 | the filter never returns more posts than it is given |
| Sync.NewPostsSpec | client_patches/functions_added_v6.1.js:428-430 | the new posts are exactly the fetched posts whose id the ledger does not hold |
| Sync.NewPostsAppend | client_patches/functions_added_v6.1.js:428-430 | the filter works post by post: filtering a + b gives the new posts of a followed by those of b, so the posts are sent and recorded in the order VK returned them, repetitions included |
| Sync.NewPostsSingle | client_patches/functions_added_v6.1.js:428-430 | a single post is kept exactly when the ledger does not hold its id |
| Sync.SendPosts | client_patches/functions_added_v6.1.js:435-446 | the send loop's ledger, count and results are those of the specification fold |
| Sync.CheckOneBinding | client_patches/functions_added_v6.1.js:402-452 | one binding's turn is the specification's step |
| Sync.CheckNewPosts | client_patches/functions_added_v6.1.js:378-466 | the license gate, the bindings failure, and on success the fold over the active bindings for ledger, `totalSent` and `results`; the cache state is that of a non-forced lookup |
| Sync.TotalSentIsSuccesses | client_patches/functions_added_v6.1.js:437-445 | `totalSent` equals the number of successful sends among the results |
| Sync.SendAllResults | client_patches/functions_added_v6.1.js:435-446 | every new post is sent and gets its result entry, in order, whatever happened to the posts before it |
| Sync.SendAllNoSuccess | client_patches/functions_added_v6.1.js:437-442 | without a successful send, the ledger is unchanged |
| Sync.SendAllRows | client_patches/functions_added_v6.1.js:435-442 | the binding's sheet afterwards is its old rows, or a new header, followed by one `sent` row per successful send of a post with an id, in order; it is created only when such a row is written; a blank sheet name writes nothing |
| Sync.SendAllFailedNotRecorded | client_patches/functions_added_v6.1.js:437-442 | a post not recorded before stays unrecorded when every send of a post with its id fails, whatever the other sends do |
| Ledger.MarkOtherNotRecorded | client_patches/functions_added_v6.1.js:172-197 | marking a post never makes a post with another id recorded |
| Sync.SendAllRecordsSuccesses | client_patches/functions_added_v6.1.js:437-442 | every post sent successfully is recorded afterwards, when its sheet was missing or had its header |
| Sync.SendAllKeepsRecords | client_patches/functions_added_v6.1.js:438 | the sends keep every earlier record |
| Sync.SendAllOtherSheets | client_patches/functions_added_v6.1.js:438 | the sends leave every other sheet unchanged |
| Sync.CheckBindingSkips | client_patches/functions_added_v6.1.js:407-414 | a binding without a group id or sheet name adds nothing |
| Sync.CheckBindingResults | client_patches/functions_added_v6.1.js:424-445 | a binding's turn only appends results, all naming that binding |
| Sync.OnlyActiveBindings | client_patches/functions_added_v6.1.js:393-402 | every reported result belongs to a binding whose status is `active` |
| Sync.PublishLastPost | client_patches/functions_added_v6.1.js:472-540 | the license gate, the bindings failure, then the specification of publishing, with messages, reply and ledger |
| Sync.PublishNeverResends | client_patches/functions_added_v6.1.js:509-519 | a send happens only for the first publishable post, and only when the ledger does not hold it |
| Sync.PublishTwice | client_patches/functions_added_v6.1.js:515-526 | when no existing sheet is empty and VK returns the same wall: after a successful publication, publishing again reports "❌ Пост уже был отправлен" and writes nothing. On an existing empty sheet the second call sends again (see Ledger.MarkOnEmptySheetNotRecorded) |
| Sync.PublishOnRecorded | client_patches/functions_added_v6.1.js:515-517 | a recorded picked post gives "❌ Пост уже был отправлен" and leaves the ledger unchanged |
| Sync.GetInitialData | client_patches/functions_added_v6.1.js:345-372 | the license is missing, or the bindings failure, or both are returned; the cache state is that of a non-forced lookup |
| Cleanup.CollectActiveGroups | client_patches/functions_removed_v6.1.js:30-36 | the loop builds the specification list of group ids |
| Cleanup.ActiveGroupsSpec | client_patches/functions_removed_v6.1.js:30-36 | each non-empty group id of the bindings appears exactly once, and nothing else does |
| Cleanup.PublishedGroupIdSpec | client_patches/functions_removed_v6.1.js:53 | the match fails exactly when no position of the name holds `Published_` followed by a digit or by `-` and a digit; otherwise the group has the shape `-?\d+`, follows `Published_` at the leftmost such position, and takes the whole run of digits |
| Cleanup.MatchAtSpec | client_patches/functions_removed_v6.1.js:53 | at one position the expression matches exactly when `Published_` is followed by a digit or by `-` and a digit, and then captures `-?` and the whole digit run |
| Cleanup.MatchFromSpec | client_patches/functions_removed_v6.1.js:53 | the search finds nothing exactly when no match starts at or after its start, and otherwise returns the group of the leftmost match |
| Cleanup.PublishedGroupIdOfName | client_patches/functions_removed_v6.1.js:53-56 | the sheet `Published_` + id gives that id back |
| Cleanup.CleanupOrphanedCache | client_patches/functions_removed_v6.1.js:19-79 | on a bindings failure the error is returned and nothing is deleted; otherwise exactly the orphans are deleted, `checked` counts the `Published_` sheets and `cleaned` the orphans |
| Cleanup.SweepSheets | client_patches/functions_removed_v6.1.js:45-67 | the sweep deletes exactly the orphan sheets and counts as it goes |
| Cleanup.CleanedSpec | client_patches/functions_removed_v6.1.js:49-65 | a sheet is deleted exactly when it is an orphan; other sheets keep their rows; a kept `Published_` sheet has no captured id or an active one |
| Cleanup.CleanedAtMostChecked | client_patches/functions_removed_v6.1.js:73 | `cleaned <= checked` |
| Cleanup.CleanupTwice | client_patches/functions_removed_v6.1.js:45-67 | a second cleanup deletes nothing |
| Cleanup.ActiveGroupSheetKept | client_patches/functions_removed_v6.1.js:33-58 | the `Published_` sheet of a group some binding refers to is kept |

## Left out

- Logging (`logEvent`) has no effect on results.
- Concurrency is not modelled. `checkNewPosts` checks a post with
  `isPostAlreadySent` and only later records it with `markPostAsSent`, and
  `publishLastPost` does the same, without a lock (:428-438, :515-522).
  Two overlapping trigger runs can therefore both send the same post. The
  model runs calls one after another, so `Sync.PublishTwice` and
  `Sync.PublishNeverResends` hold only for runs in sequence.
- The `try`/`catch` branches are not modelled, because exceptions from
  the spreadsheet service, the HTTP client or JSON parsing are outside
  the model. This includes the per-binding catch of `checkNewPosts`
  (:448-451).
- `saveLicenseWithCheck`: the HTTP POST and the parsing of its answer are
  not modelled, because network I/O is outside the model. Their outcome
  is the `reply` parameter.
- `changeLicense` ends by calling `loadInitialData()`. That function
  lives in the client's UI script, outside the modelled files, so it is
  not part of this model.
- The `LICENSE_META` property is reduced to its parse outcome: missing,
  unparsable, or the four fields. JSON text is not modelled.
- Sheet tab order is not modelled. `ss.getSheets()` is iterated as a
  set, which suffices because each sheet's fate does not depend on the
  others.
- A post id is a single integer. JavaScript's loose `==` between a cell
  value and the id (:152) is not modelled, because ids are compared
  within one type.
- Post attachments are modelled as a count, because only their number
  is used.
- `formatSettings.syncPostsCount` is an integer field of the binding. An
  absent `formatSettings` is `0`.
- Of the example literals in the code's comments, only the short ones
  are stated as lemmas. Lemmas on longer literal Cyrillic texts are left
  out, because the solver evaluates each character.
