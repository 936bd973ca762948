# cyblog-cms admin panel, modelled in Dafny

This project models the core of the cyblog-cms blog administration panel, a
Next.js application backed by MongoDB, and proves properties of that model.

The server side is the set of API route handlers:

- the visitor log (`/api/visitors`): listing with crawler exclusion,
  filters, username pre-resolution, newest-first pagination, geo-location
  enrichment with write-back, and user and article joins; and the bulk
  delete over a time range;
- the visitor filter options, comments and comment counts, articles, the
  dashboard statistics, the settings document, users, the user profile, the
  avatar update and the administrator check;
- the middleware that sends signed-out requests to the login page.

The client side is the set of panels and their handlers: the visitor panel's
URL builders and state transitions, the article editor (validation, tag
field, generated summary and tags, reset), the article list's hand-off to the
editor, the settings page, the user context and its local storage entries,
the comment, user and tag pages, the sidebar and the code block renderer.

Each source file is one module. Collections are `seq` fields of store
classes (`VisitorLogStore`, `CommentStore`, `ArticleStore`, `UserStore`,
`SettingsStore`), and each handler that changes them is a method whose
`ensures` gives the new contents in terms of a specification function on the
old ones. Page components whose handlers update state are classes with those
state fields. The parts that only compute are functions, with lemmas that
state what the source promises about them.

What the model does not contain is replaced by parameters:

- the geo-location service is a map from IP address to its reply; a missing
  address is a failed lookup;
- a failed store write is a set of entry ids whose write fails;
- `ObjectId.isValid`, password hashing, `encodeURIComponent`, `JSON.stringify`
  and `JSON.parse` are function parameters;
- the current time and fresh ids are parameters;
- whether a client request succeeded is a boolean or an `Option` parameter;
- sign-outs and router pushes are recorded in sequence fields.

Shared modules: `Wrappers` (options and HTTP error results), `Strings` (the
JavaScript string operations used: `||` on strings, ASCII `toLowerCase`,
`includes`, `trim`, `split`, `join`), `Seqs` (filter, limit, a stable
descending sort, `find`, subsequences), `Grouping` (group-and-count),
`QueryString` (building and reading back query strings) and `Records` (the
stored documents).

The editor's local storage and the article list's session storage are two
separate maps. The article list writes the hand-off to session storage, and
the editor reads and clears local storage.

The model follows the code where the code and its own comments disagree.
For example, `type=all` on the options route answers two empty lists,
although the comment beside it says the lists were filled above
(src/app/api/visitors/options/route.js:67-73).

## Model

| member | source | states |
|---|---|---|
| Middleware.Decide | src/middleware.js:7-46 | static assets always pass; a signed-in request for exactly `/login` goes to `/`; a signed-out request for a non-public, non-asset path goes to `/login`; nothing else is redirected |
| Middleware.PublicIff | src/middleware.js:5-13 | a path is public exactly when it starts with `/login` or contains `/api/auth` (the `/api/auth` prefix test is subsumed) |
| Middleware.PublicNeverToLogin | src/middleware.js:11-13 | a public path is never redirected to the login page, signed in or not (also lines 41-43) |
| Middleware.LoginExactly | src/middleware.js:36-38 | only the exact path `/login` sends a signed-in user home; `/login/...` passes |
| Middleware.ProtectedToLogin | src/middleware.js:16-24 | a signed-out request for `/` is sent to `/login`, while an image under `/images/` passes (also lines 41-43) |
| PermissionRoute.Check | src/app/api/auth/check-permission/route.js:4-33 | a falsy email is a 400; otherwise the answer is yes (with no message) exactly when the first user with that email has role `admin`, and no (with the refusal message) otherwise |
| PermissionRoute.AdminIff | src/app/api/auth/check-permission/route.js:21-27 | with unique emails, the answer is yes exactly when some stored user has that email and role `admin` |
| PermissionRoute.EmailIsFirst | src/app/api/auth/check-permission/route.js:21 | with unique emails, the lookup by email returns the one user that has it |
| PermissionRoute.PermissionIgnored | src/app/api/auth/check-permission/route.js:26 | replacing every user's `permission` field leaves every answer unchanged: only the role is read |
| PermissionRoute.SameEmails | src/app/api/auth/check-permission/route.js:21 | two user lists that agree on emails and roles find a user for the same emails, with the same role |
| PermissionRoute.PermissionAloneRefused | src/app/api/auth/check-permission/route.js:26-32 | a user with `permission: admin` but role `user` is refused, with the refusal message |
| CommentCountRoute.PostIds | src/app/api/comments/count/route.js:15 | the grouping key of each comment is its post id, in order |
| CommentCountRoute.CommentCounts | src/app/api/comments/count/route.js:11-27 | one item per group, carrying exactly the group's key as `articleId` and its size as `count` |
| CommentCountRoute.CountsPerPost | src/app/api/comments/count/route.js:11-27 | each post with comments appears exactly once, its count is the number of its comments and is positive, and every commented post is listed |
| CommentCountRoute.CountsDistinct | src/app/api/comments/count/route.js:14-16 | no two items carry the same `articleId` |
| CommentCountRoute.CountsAreOccurrences | src/app/api/comments/count/route.js:16 | each count is the number of comments on that post and is never zero |
| CommentCountRoute.CountsCoverPosts | src/app/api/comments/count/route.js:14-15 | every comment's post appears among the items |
| CommentCountRoute.CountTotalIsTotal | src/app/api/comments/count/route.js:20-24 | the projection keeps the counts, so their sum is the sum of the group sizes |
| CommentCountRoute.CountsSumToTotal | src/app/api/comments/count/route.js:11-27 | the counts add up to the number of comments |
| CommentsRoute.List | src/app/api/comments/route.js:6-37 | the listing is sorted newest first and is a permutation of the stored comments, narrowed to the post when one is given |
| CommentsRoute.ListMembers | src/app/api/comments/route.js:17-34 | a comment is listed exactly when it is stored and, with a post id given, belongs to that post |
| CommentsRoute.Record | src/app/api/comments/route.js:63-70 | the stored document: given post id and content, the given author or the anonymous one, the given status or `pending`, both timestamps the current time |
| CommentsRoute.ParentNotKept | src/app/api/comments/route.js:63-70 | a `parentId` in the body is not stored |
| CommentsRoute.CommentStore.Post | src/app/api/comments/route.js:49-84 | a body without post id or content is a 400 and stores nothing; otherwise exactly one record is appended and its id returned; ids stay unique |
| ArticlesRoute.Record | src/app/api/articles/route.js:18-29 | the stored article: the given title and content, the summary or `''`, the tags or `[]`, and the creation time shifted by eight hours |
| ArticlesRoute.List | src/app/api/articles/route.js:61-75 | every stored article, as a permutation, sorted newest first |
| ArticlesRoute.ArticleStore.Post | src/app/api/articles/route.js:4-49 | a body without title or content is a 400 and stores nothing; otherwise exactly one record is appended and its id returned; ids stay unique |
| UsersRoute.List | src/app/api/users/route.js:7-21 | every stored user, as a permutation, sorted newest first |
| UsersRoute.Record | src/app/api/users/route.js:66-82 | the stored user: name copied to `username`, the password hashed, role `user` and status `active` by default, a falsy avatar stored as null, and `permission` `admin` exactly for role `admin` |
| UsersRoute.PermissionFollowsRole | src/app/api/users/route.js:77-80 | the stored permission is `admin` exactly when the stored role is `admin` |
| UsersRoute.InsertKeepsUnique | src/app/api/users/route.js:51-63 | appending a user whose name and email are not taken, under a fresh id, keeps ids, names and emails unique (also line 85) |
| UsersRoute.UserStore.Post | src/app/api/users/route.js:33-92 | a missing name, email or password is a 400; a name or email in use is a 400; both store nothing; otherwise exactly one record is appended and its id returned; uniqueness is kept |
| UsersRoute.WithAvatar | src/app/api/users/update-avatar/route.js:68-77 | same length; the user with the id gets avatar, image and update time set, and every other user is unchanged |
| UsersRoute.WithAvatarKeepsUnique | src/app/api/users/update-avatar/route.js:68-77 | the avatar update keeps ids, names and emails unique |
| UsersRoute.UserStore.SetAvatar | src/app/api/users/update-avatar/route.js:68-77 | returns 1 exactly when some user has the id and 0 otherwise, and leaves the collection equal to `WithAvatar` of the old one |
| AvatarRoute.ProfileImage | src/app/api/users/update-avatar/route.js:78 | the avatar when it is non-empty, else the image, else null |
| AvatarRoute.UpdateAvatar | src/app/api/users/update-avatar/route.js:8-86 | no session user is a 401, an invalid id or an empty URL a 400, an unknown id a 404, all leaving the users unchanged; otherwise the users become `WithAvatar` of the old ones and the profile returned is that of the updated user, showing the new avatar |
| AvatarRoute.AvatarSet | src/app/api/users/update-avatar/route.js:46-68 | after the update, the lookup by id finds the user, carrying the new avatar, image and update time |
| ProfileRoute.OrNull | src/app/api/users/profile/route.js:112 | a non-empty value is kept; an empty or missing one becomes null |
| ProfileRoute.Shape | src/app/api/users/profile/route.js:105-114 | the profile carries the id, email and image; the name is the name, else the username, else the email up to its first '@'; the role is the role, else the permission, else `user`; no name, username or email is the handler's 500 |
| ProfileRoute.CallerId | src/app/api/users/profile/route.js:25-41 | the session's user id when set, else the `user_id` cookie when non-empty, else none |
| ProfileRoute.Lookup | src/app/api/users/profile/route.js:76-91 | the user with the id when there is one; otherwise, with a session email, the first user with that email |
| ProfileRoute.Get | src/app/api/users/profile/route.js:9-124 | no caller id is a 401, an invalid id a 400, no user found a 404, and otherwise the shaped profile of the user found, with its avatar or null as image |
| ProfileRoute.ProfileOfStoredUser | src/app/api/users/profile/route.js:76-114 | a successful profile belongs to a stored user, which either has the caller's id or has the session email |
| SettingsRoute.Field | src/app/api/settings/route.js:55-59 | a key is present only on an object that has it |
| SettingsRoute.AllFlagsRequired | src/app/api/settings/route.js:56-65 | the three named flags being booleans is exactly every entry of the required list being a boolean |
| SettingsRoute.Cleaned | src/app/api/settings/route.js:72-78 | the saved `articles` object has exactly the three flag keys, each with the body's value; every other key is dropped |
| SettingsRoute.Flags | src/app/api/settings/route.js:16-22 | the `articles` object with exactly the three keys, each a boolean (also lines 72-78) |
| SettingsRoute.FirstInvalid | src/app/api/settings/route.js:56-65 | none exactly when all three flags are booleans; otherwise the first flag, in list order, that is not |
| SettingsRoute.Upsert | src/app/api/settings/route.js:81-85 | the first document gets the `articles` field and keeps its other fields; an empty collection gets one document with only `articles` |
| SettingsRoute.ReadAfterWrite | src/app/api/settings/route.js:12 | a read after a write returns the written flags and keeps the document's other fields, and writing twice equals writing the second value once (also lines 81-85) |
| SettingsRoute.SettingsStore.Get | src/app/api/settings/route.js:5-29 | an empty store gets the defaults (all three flags true) inserted and returned; otherwise the stored document is returned and nothing changes |
| SettingsRoute.SettingsStore.Post | src/app/api/settings/route.js:41-92 | a falsy `articles` is a 400 saying the articles field is missing; a flag that is not a boolean is a 400 whose message names the first such flag in list order; both leave the store alone; otherwise exactly the cleaned flags are upserted and returned |
| DashboardRoute.TopTags | src/app/api/dashboard/route.js:28-35 | at most ten items, each exactly the name and count of the corresponding group of the sorted and limited tag aggregation (also lines 69-73) |
| DashboardRoute.Digests | src/app/api/dashboard/route.js:40-46 | one projection per article, in order, keeping title, summary, creation time, view count and tags |
| DashboardRoute.SumViews | src/app/api/dashboard/route.js:18-27 | the view total is at least every single view count, and 0 when no article has one |
| DashboardRoute.SumViewsAppend | src/app/api/dashboard/route.js:23 | the total of two runs of articles is the sum of their totals |
| DashboardRoute.SumViewsPermutation | src/app/api/dashboard/route.js:23 | the total does not depend on the order the articles are stored in |
| DashboardRoute.Answer | src/app/api/dashboard/route.js:14-47 | what the seven queries answer: the total is the number of articles, published plus draft is at most that, and the lists hold at most ten tags and five articles |
| DashboardRoute.Assemble | src/app/api/dashboard/route.js:62-89 | with no rejected query every part is its query's answer; a rejected one never gives more than its answer |
| DashboardRoute.Respond | src/app/api/dashboard/route.js:4-93 | with every query answered: the counts of all, published and draft articles, the view total, the top tags and the two top-five lists; at most ten tags and five articles in any case |
| DashboardRoute.PublishedPlusDraft | src/app/api/dashboard/route.js:15-17 | when the total count is answered, published plus draft articles are at most all articles (also lines 62-64) |
| DashboardRoute.FailureIsolated | src/app/api/dashboard/route.js:14 | a query that fails gives its default (0 or `[]`) and every other part of the response stays as it was (also lines 62-76) |
| DashboardRoute.TagCountsSpec | src/app/api/dashboard/route.js:28-35 | ten tags are listed, or every tag when there are fewer; they are ordered by count, most used first, and each count is the positive number of uses of that tag over all articles (also lines 69-73) |
| DashboardRoute.TagsAreTop | src/app/api/dashboard/route.js:32-33 | a tag that is used but not listed means ten tags are listed, and it is used no more often than the tenth |
| DashboardRoute.TagNamesDistinct | src/app/api/dashboard/route.js:30-31 | no tag is listed twice |
| DashboardRoute.TopListsSpec | src/app/api/dashboard/route.js:36-47 | the recent and popular lists hold five stored published articles, or every published one when there are fewer, ordered by the sort key, largest first |
| DashboardRoute.PublishedAreTop | src/app/api/dashboard/route.js:36-47 | a published article that is not listed means five are listed, and its creation time or view count is no larger than the fifth's |
| VisitorOptionsRoute.LexTotal | src/app/api/visitors/options/route.js:48-52 | the default string order compares any two strings |
| VisitorOptionsRoute.LexTrans | src/app/api/visitors/options/route.js:48-52 | the default string order is transitive |
| VisitorOptionsRoute.LexAntisym | src/app/api/visitors/options/route.js:48-52 | two strings each no larger than the other are equal |
| VisitorOptionsRoute.InsertAsc | src/app/api/visitors/options/route.js:48-52 | inserting into a sorted list adds exactly that string and keeps the list sorted |
| VisitorOptionsRoute.SortAsc | src/app/api/visitors/options/route.js:48-52 | the sorted list is a permutation of its input, in ascending default string order |
| VisitorOptionsRoute.CountryValues | src/app/api/visitors/options/route.js:16-25 | a value is collected exactly when some entry has it as its country |
| VisitorOptionsRoute.RegionValues | src/app/api/visitors/options/route.js:16-26 | a value is collected exactly when some entry that has a country has it as its region |
| VisitorOptionsRoute.OptionsSpec | src/app/api/visitors/options/route.js:25-26 | an option list is sorted, holds each value once, and holds exactly the collected values that are not blank (also lines 45-52) |
| VisitorOptionsRoute.Respond | src/app/api/visitors/options/route.js:7 | `geo` answers with the lists; `all`, also the default, answers with two empty lists; any other type is a 400 (also lines 14-78) |
| VisitorOptionsRoute.CountryOptionsSpec | src/app/api/visitors/options/route.js:14-62 | a country is offered exactly when some entry has it and it is not blank; the list is sorted and duplicate-free |
| VisitorOptionsRoute.RegionOptionsSpec | src/app/api/visitors/options/route.js:14-62 | a region is offered exactly when some entry with a country has it and it is not blank; the list is sorted and duplicate-free |
| VisitorsRoute.ContainsAnyCI | src/app/api/visitors/route.js:109-111 | an alternation of literal tokens matches, ignoring case, exactly when one of the tokens occurs in the agent |
| VisitorsRoute.ExcludedAgent | src/app/api/visitors/route.js:87-105 | an agent that contains any denied crawler token or excluded Windows version, in any case, is never listed |
| VisitorsRoute.BuildQuery | src/app/api/visitors/route.js:80-173 | the query document built condition by condition selects exactly the entries `Selected` describes: a human agent, and every given filter (type, user ids, inclusive date bounds, article path, ip, country, region) holding at once |
| VisitorsRoute.MatchingUserIds | src/app/api/visitors/route.js:52-64 | every id collected is the id of a user whose name or email contains the username filter, ignoring case, and every such user's id is collected |
| VisitorsRoute.Skip | src/app/api/visitors/route.js:194 | a page skips `(page - 1) * pageSize` entries |
| VisitorsRoute.Window | src/app/api/visitors/route.js:194-195 | a page holds at most `pageSize` entries, exactly the entries after the skipped ones, in order, as many as remain up to the page size |
| VisitorsRoute.CeilDiv | src/app/api/visitors/route.js:338 | `totalPages` is the fewest pages of `pageSize` entries that hold `total` entries |
| VisitorsRoute.Matching | src/app/api/visitors/route.js:181-193 | exactly the stored entries that pass the query, each as often as it is stored (a permutation of the filtered store), newest first, as many as the count |
| VisitorsRoute.SelectedIsMatched | src/app/api/visitors/route.js:181-193 | every stored entry that passes the query is one of the matches |
| VisitorsRoute.PageOf | src/app/api/visitors/route.js:191-195 | the matches from the offset `(page - 1) * pageSize` on, in order: a full page, the rest when fewer remain, and none once the offset passes the end |
| VisitorsRoute.Respond | src/app/api/visitors/route.js:30-339 | page and page size echoed; an empty listing with no total when the username filter matches no user; otherwise one view per page entry (a full page, the rest, or none past the end), the count of all selected entries and the number of pages they fill |
| VisitorsRoute.OnItsPage | src/app/api/visitors/route.js:194-195 | every entry of the sorted result stands on page `k / pageSize + 1`, at position `k % pageSize`, and that page is within `totalPages` (also line 338) |
| VisitorsRoute.PastLastPage | src/app/api/visitors/route.js:194-195 | a page number beyond `totalPages` returns no entries (also line 338) |
| VisitorsRoute.GeoFromReply | src/app/api/visitors/route.js:6-27 | a location exactly when the lookup reports `success`; it carries the reply's country, country code and city, and its region name, else its region |
| VisitorsRoute.FetchedGeo | src/app/api/visitors/route.js:215-217 | a location is fetched only for an entry with an ip and without a location country, and then exactly when the lookup succeeds |
| VisitorsRoute.WithGeo | src/app/api/visitors/route.js:211-219 | the returned entry differs from the stored one at most in its location, which is the fetched one when there is one and the stored one otherwise |
| VisitorsRoute.WithGeoAll | src/app/api/visitors/route.js:210-233 | one returned entry per entry of the page, in order, each with its location filled in |
| VisitorsRoute.SetGeo | src/app/api/visitors/route.js:222-225 | the entries with the id get the location and every other entry is unchanged |
| VisitorsRoute.GeoWritesAt | src/app/api/visitors/route.js:210-233 | after the enrichment loop, each stored entry carries the last location written back for its id by the page, or is unchanged when none was |
| VisitorsRoute.LastWriteOf | src/app/api/visitors/route.js:210-233 | with distinct ids on the page, the write for an id is the write of the one page entry that has it, and no write when none has it |
| VisitorsRoute.GeoCachedOnce | src/app/api/visitors/route.js:215 | an entry whose lookup succeeded with a country and whose write did not fail no longer needs a lookup on a later request (also lines 221-228) |
| VisitorsRoute.UserJoin | src/app/api/visitors/route.js:236-290 | user fields are attached exactly when the entry's user id is a valid id that some stored user has, and they are that user's name, email and avatar |
| VisitorsRoute.ArticleIdOfPosts | src/app/api/visitors/route.js:293-302 | for a path `/posts/` followed by `rest`, the article id is the part of `rest` before its first '/' |
| VisitorsRoute.TitleJoin | src/app/api/visitors/route.js:293-331 | the title is attached exactly when the path names a non-empty article id that some stored article has, and it is that article's title |
| VisitorsRoute.Views | src/app/api/visitors/route.js:264-268 | one view per returned entry, in order, carrying the entry and its id as a string (also lines 319-331) |
| VisitorsRoute.ShortCircuitResponse | src/app/api/visitors/route.js:67-76 | a username filter that matches no user answers no entries, total 0 and 0 pages, echoing page and page size |
| VisitorsRoute.NoMatchNoIds | src/app/api/visitors/route.js:52-64 | when no user's name or email contains the filter, no id is collected |
| VisitorsRoute.TotalCountsAll | src/app/api/visitors/route.js:181 | `total` counts every selected entry, whatever the page; `totalPages` is its ceiling division by the page size; at most `pageSize` entries are returned; page and page size are echoed (also lines 333-339) |
| VisitorsRoute.PageMember | src/app/api/visitors/route.js:191-196 | every entry of a page is a stored entry that the query selects |
| VisitorsRoute.PageNewestFirst | src/app/api/visitors/route.js:193 | the entries of a page are newest first |
| VisitorsRoute.ReturnedArePage | src/app/api/visitors/route.js:191-233 | the returned entries are the page's entries, in page order, with their locations filled in (also lines 333-334) |
| VisitorsRoute.ReturnedAreSelected | src/app/api/visitors/route.js:80-196 | every returned entry is a stored entry that passed every filter and the agent exclusion |
| VisitorsRoute.ReturnedNewestFirst | src/app/api/visitors/route.js:193 | the returned entries are newest first (also lines 333-334) |
| VisitorsRoute.ListedOnItsPage | src/app/api/visitors/route.js:191-195 | the match at index k is returned by page `k / pageSize + 1` at slot `k % pageSize`, with its location filled in; with SelectedIsMatched, every selected entry is listed on some page |
| VisitorsRoute.VisitorLogStore.EnrichGeo | src/app/api/visitors/route.js:209-233 | returns each page entry with its fetched location and leaves the store with exactly the write-backs of the page, a failed write changing nothing; ids stay unique |
| VisitorsRoute.VisitorLogStore.Get | src/app/api/visitors/route.js:30-339 | answers the listing of the stored entries; the store keeps its entries apart from the location write-backs of the page, and is untouched by a short-circuited request |
| VisitorsRoute.VisitorLogStore.Delete | src/app/api/visitors/route.js:351-424 | without both dates a 400 that deletes nothing; otherwise exactly the entries in the inclusive range that match the optional country, region and article filters are removed, the others kept in order, and their number answered |
| VisitorsRoute.FilterKeepsDistinct | src/app/api/visitors/route.js:409 | removing entries keeps the remaining ids unique |
| VisitorsRoute.DeleteSplits | src/app/api/visitors/route.js:399-414 | the number deleted plus the number kept is the number stored before |
| VisitorsRoute.DeleteIgnoresAgent | src/app/api/visitors/route.js:377-396 | deletion applies no agent test: a crawler's entry inside the range is deleted although no listing ever returns it (also lines 87-89) |
| VisitorManager.BuildListUrl | src/components/VisitorManager.jsx:133-165 | the appends of the listing request spell exactly the list URL of the tab, page, page size, dates and filters |
| VisitorManager.BuildDeleteUrl | src/components/VisitorManager.jsx:349-366 | the appends of the bulk delete spell exactly the delete URL of the dates and filters |
| VisitorManager.ListKeysAre | src/components/VisitorManager.jsx:136-165 | the keys of a list request are type, page and page size, the two dates when both are set, then each filter whose input is non-empty |
| VisitorManager.ListKeysOrdered | src/components/VisitorManager.jsx:136-165 | the list URL begins with type, page and page size, in that order, and has every other key at most once and in the fixed order |
| VisitorManager.ListDatesSent | src/components/VisitorManager.jsx:138-140 | the start and end dates are sent exactly when both ends of the range are set |
| VisitorManager.ListFiltersSent | src/components/VisitorManager.jsx:143-165 | each of the five filters is sent exactly when its input is non-empty |
| VisitorManager.ListFilterValue | src/components/VisitorManager.jsx:144 | a sent ip or user name filter carries the encoded input (also line 159) |
| VisitorManager.DeleteKeys | src/components/VisitorManager.jsx:349-366 | the delete URL carries both dates first, carries country, region and article exactly when their inputs are non-empty, in that order, and never carries the ip or user name filter |
| VisitorManager.ListUrlReadsBack | src/components/VisitorManager.jsx:136-165 | with an escaping encoder and a tab and dates free of `&` and `=`, the list URL reads back as exactly its parameter list |
| VisitorManager.StaleReset | src/components/VisitorManager.jsx:331-339 | whenever some filter is set, the URL the reset requests (built from the filters before the reset) differs from the URL of the cleared filters |
| VisitorManager.VisitorPanel.constructor | src/components/VisitorManager.jsx:50-59 | page 1, page size 10, tab `all`, no dates, empty filters, and one list request for that state (also lines 192-195) |
| VisitorManager.VisitorPanel.Fetch | src/components/VisitorManager.jsx:133-169 | one list request for the given tab, page, size and dates with the current filters; no state changes |
| VisitorManager.VisitorPanel.TabChange | src/components/VisitorManager.jsx:268-272 | the tab becomes the key, the page 1, and the first page of that tab is requested |
| VisitorManager.VisitorPanel.TableChange | src/components/VisitorManager.jsx:275-286 | page and page size become the table's, and that page is requested |
| VisitorManager.VisitorPanel.DateRangeChange | src/components/VisitorManager.jsx:289-297 | the range becomes the picked one (or none), the page 1, and the first page of that range is requested |
| VisitorManager.VisitorPanel.SetIp | src/components/VisitorManager.jsx:300-302 | only the ip filter changes; nothing is requested |
| VisitorManager.VisitorPanel.SetCountry | src/components/VisitorManager.jsx:305-307 | only the country filter changes; nothing is requested |
| VisitorManager.VisitorPanel.SetRegion | src/components/VisitorManager.jsx:310-312 | only the region filter changes; nothing is requested |
| VisitorManager.VisitorPanel.SetUsername | src/components/VisitorManager.jsx:315-317 | only the user name filter changes; nothing is requested |
| VisitorManager.VisitorPanel.SetArticle | src/components/VisitorManager.jsx:320-322 | only the article filter changes; nothing is requested |
| VisitorManager.VisitorPanel.ApplyFilters | src/components/VisitorManager.jsx:325-328 | the page becomes 1 and the first page with the current filters is requested |
| VisitorManager.VisitorPanel.ResetFiltersAsWritten | src/components/VisitorManager.jsx:331-339 | the filters are cleared and the page becomes 1, but the request is built from the filters as they were before the reset |
| VisitorManager.VisitorPanel.ResetFilters | src/components/VisitorManager.jsx:331-339 | the filters are cleared, the page becomes 1, and the request is for the first page with no filters |
| VisitorManager.VisitorPanel.DeleteFiltered | src/components/VisitorManager.jsx:342-387 | without both dates nothing is sent; otherwise the delete URL is sent, and after an OK answer the page becomes 1 and the first page is requested again |
| MarkdownEditor.StripMarkup | src/components/EnhancedMarkdownEditor.jsx:287 | the text with every Markdown character deleted: no longer than the input and free of Markdown characters |
| MarkdownEditor.StripMarkupKeeps | src/components/EnhancedMarkdownEditor.jsx:287 | deleting the Markdown characters leaves a text unchanged exactly when it has none |
| MarkdownEditor.BlankMarkup | src/components/EnhancedMarkdownEditor.jsx:296 | the text of the same length with every Markdown character turned into a space |
| MarkdownEditor.Summary | src/components/EnhancedMarkdownEditor.jsx:287-288 | the generated summary is at most 103 characters long |
| MarkdownEditor.SummaryShape | src/components/EnhancedMarkdownEditor.jsx:287-288 | the summary is the first 100 characters of the text without markup, trimmed, followed by `...` exactly when that text is longer than 100 characters |
| MarkdownEditor.SummaryOfPlainText | src/components/EnhancedMarkdownEditor.jsx:287-288 | a short trimmed text without Markdown characters is its own summary |
| MarkdownEditor.SummaryShortensLongText | src/components/EnhancedMarkdownEditor.jsx:288 | a text longer than 100 characters without markup gets `...` and a summary of at most 103 characters |
| MarkdownEditor.ParseTags | src/components/EnhancedMarkdownEditor.jsx:150-152 | every parsed tag is non-empty, trimmed and free of commas, and an empty field gives no tags |
| MarkdownEditor.ParseJoinedTags | src/components/EnhancedMarkdownEditor.jsx:150-152 | tags joined with `,` parse back to themselves when each is non-empty, comma-free and trimmed |
| MarkdownEditor.InsertAtCursor | src/components/EnhancedMarkdownEditor.jsx:270-274 | the old text is kept as the start, followed by a line break and then the insertion |
| MarkdownEditor.Validate | src/components/EnhancedMarkdownEditor.jsx:129-141 | no message exactly when both title and content have a non-space character; a blank title is reported first, then a blank content |
| MarkdownEditor.ContentWordsShape | src/components/EnhancedMarkdownEditor.jsx:295-299 | every counted word is lower case, longer than three characters, not a stop word, and free of white space and Markdown characters |
| MarkdownEditor.ContentWords | src/components/EnhancedMarkdownEditor.jsx:295-299 | every counted word is longer than three characters, not a stop word and free of white space, and every such field of the blanked, lower-cased content is counted |
| MarkdownEditor.TopTags | src/components/EnhancedMarkdownEditor.jsx:308-311 | three tags, or one per distinct word when there are fewer |
| MarkdownEditor.TopTagsShape | src/components/EnhancedMarkdownEditor.jsx:308-311 | at most three tags, distinct, each one of the words, by non-increasing frequency, and none exactly when there are no words |
| MarkdownEditor.TopTagsBest | src/components/EnhancedMarkdownEditor.jsx:308-311 | a word left out is no more frequent than any tag, and a word is only left out when there are three tags |
| MarkdownEditor.WordFreq | src/components/EnhancedMarkdownEditor.jsx:302-305 | the dictionary has exactly the words as keys, each counted as often as it occurs, with keys in order of first occurrence |
| MarkdownEditor.TagCandidates | src/components/EnhancedMarkdownEditor.jsx:295-311 | the candidates are the top tags of the content's counted words |
| MarkdownEditor.GeneratedTagsParse | src/components/EnhancedMarkdownEditor.jsx:150-152 | for content without a comma, the generated tag field parses back to the generated tags (also line 314) |
| MarkdownEditor.Editor.Publish | src/components/EnhancedMarkdownEditor.jsx:144-166 | nothing is sent when validation fails, with its message; otherwise the title, content, summary, status and cover image as they stand and the parsed tags, with the id exactly when an article is being edited |
| MarkdownEditor.Editor.StatusChange | src/components/EnhancedMarkdownEditor.jsx:224-227 | the status becomes `published` when checked and `draft` otherwise; nothing else changes |
| MarkdownEditor.Editor.ImageUploaded | src/components/EnhancedMarkdownEditor.jsx:250-256 | the image's Markdown link goes after the text on a new line; nothing else changes |
| MarkdownEditor.Editor.ClearArticleData | src/components/EnhancedMarkdownEditor.jsx:186-206 | every field is emptied, no article is being edited, the status is `published`, and exactly the seven draft keys are removed from storage |
| MarkdownEditor.Editor.Generate | src/components/EnhancedMarkdownEditor.jsx:277-323 | a blank content only warns; otherwise an empty summary gets the generated one and an empty tag field the generated tags when there are any; nothing else changes |
| MarkdownEditor.Editor.FillSummary | src/components/EnhancedMarkdownEditor.jsx:285-290 | an empty summary gets the generated one; a non-empty one stays |
| MarkdownEditor.Editor.FillTags | src/components/EnhancedMarkdownEditor.jsx:293-316 | an empty tag field gets the generated tags joined with `,` when there are any; otherwise it stays |
| UserContext.WithPermission | src/contexts/UserContext.js:58-63 | the permission entry is `admin` when the flag is set and absent when not, and every other entry is kept (also lines 91-96) |
| UserContext.Cleared | src/contexts/UserContext.js:139-142 | both user entries are removed and every other entry is kept (also lines 168-169) |
| UserContext.SessionInfo | src/contexts/UserContext.js:115-121 | the session's fields with missing or empty ones as `''`, and the provider `google` when missing or empty |
| UserContext.InitMirrors | src/contexts/UserContext.js:19-36 | without a stored user, or with one that parses, the initial flag is exactly whether the stored permission is `admin` |
| UserContext.InitAdmin | src/contexts/UserContext.js:19-36 | the initial flag is set only for a stored `admin` permission, and never when a non-empty stored user fails to parse |
| UserContext.InitUnparsableUser | src/contexts/UserContext.js:21-32 | a stored user that does not parse throws before the stored permission is read, so a stored administrator starts without the flag |
| UserContext.Context.constructor | src/contexts/UserContext.js:12-14 | the user is the parsed stored user when there is a non-empty one, the flag is what initialisation arrives at, loading is over, and nothing is signed out or redirected (also lines 18-39) |
| UserContext.Context.FetchUserProfile | src/contexts/UserContext.js:42-74 | a failed request returns nothing and changes nothing; a profile becomes the user, is stored, and sets the flag and its entry exactly for role `admin`; the flag keeps mirroring storage |
| UserContext.Context.VerifyPermission | src/contexts/UserContext.js:77-108 | a grant sets the flag and its entry; a refusal clears both and signs out to `/login`; a failed request changes nothing and answers no; the flag keeps mirroring storage |
| UserContext.Context.SessionChange | src/contexts/UserContext.js:111-152 | a session stores its basic information as the user; an admin role sets the flag; otherwise, without the flag, the permission check decides; signing out clears user, flag and both entries and redirects to `/login` unless already there; a loading status changes nothing |
| UserContext.Context.Logout | src/contexts/UserContext.js:165-179 | both entries and the state are cleared, then a sign-out to `/login` is requested |
| SettingsPage.Switched | src/app/settings/page.js:50-52 | a recognised flag gets the new value; any other key leaves the flags as they were |
| SettingsPage.SwitchedAccepted | src/app/settings/page.js:45-63 | a switch keeps a valid flags object valid, so the settings route accepts what the page posts and stores the switched value (also src/app/api/settings/route.js:56-78) |
| SettingsPage.Page.UpdateSetting | src/app/settings/page.js:45-77 | the nested flags object shared with the current state is switched in place whatever the answer; the posted body is the copy with the switched flags; the state becomes the copy only after an OK answer |
| ArticlesPage.HandOff | src/app/articles/page.js:80-85 | the five session entries are written, the falsy summary as `''`, and every other entry is kept |
| ArticlesPage.ReadBackNeverFails | src/app/articles/page.js:63-70 | once the row has an id, a title and a content, the read-back check finds the content, title and id that were written (also lines 80-103) |
| ArticlesPage.HandOffTagsRoundTrip | src/app/articles/page.js:84 | the tags written as one comma-joined entry parse back to the row's tags when each is non-empty, comma-free and trimmed (also src/components/EnhancedMarkdownEditor.jsx:150-152) |
| ArticlesPage.ArticleList.HandleEdit | src/app/articles/page.js:59-113 | an incomplete row reports `文章数据不完整` and writes nothing; a complete one writes the hand-off and opens `/write` |
| CommentsPage.Truncate | src/app/comments/page.js:146-149 | `''` for missing or empty content, the content itself when it fits, and otherwise its first `maxLength` characters followed by `...` |
| CommentsPage.UsersByIdKeys | src/app/comments/page.js:63-66 | the users map has exactly the listed ids as keys |
| CommentsPage.UsersByIdLast | src/app/comments/page.js:63-66 | each key holds the last listed user with that id |
| CommentsPage.BuildUsersMap | src/app/comments/page.js:63-66 | the loop fills the map of the listed users by id, a later user replacing an earlier one |
| CommentsPage.Commenter | src/app/comments/page.js:157-160 | the loaded user's username, else its name, and `未知用户` when no loaded user has the comment's user id |
| CommentsPage.CommenterNotLoaded | src/app/comments/page.js:63-66 | a commenter whose id no listed user has is unknown (also lines 157-160) |
| CommentsPage.CommenterOfLoaded | src/app/comments/page.js:63-66 | a commenter is named after the last listed user with the comment's user id (also lines 157-160) |
| CommentsPage.FindParent | src/app/comments/page.js:129-131 | none exactly when no loaded comment has the id; otherwise a loaded comment with that id |
| CommentsPage.ParentCell | src/app/comments/page.js:176-189 | `-` without a parent, `已删除的评论` when the parent is not loaded, and its truncated content otherwise |
| CommentsPage.ParentCellOfLoaded | src/app/comments/page.js:129-131 | a loaded parent shows the truncated content of the first loaded comment with its id, at most 23 characters (also lines 176-189) |
| CommentsPage.ContentFilter | src/app/comments/page.js:169-170 | an empty search text filters nothing |
| CommentsPage.ContentFilterSpec | src/app/comments/page.js:169-170 | a comment is shown exactly when it is loaded and its content contains the search text, ignoring case, and the shown comments keep their order |
| CommentsPage.Page.LoadUsers | src/app/comments/page.js:54-73 | a user list that arrives becomes the users map by id; a failed request keeps the old map |
| CommentsPage.Page.SelectArticle | src/app/comments/page.js:26-32 | with an article, a successful fetch loads the comments the route lists for it, all stored and all of that post, and a failed one keeps the list; without one, the list is cleared (also lines 76-92) |
| CommentsPage.Page.Search | src/app/comments/page.js:169 | the search text changes and nothing else |
| CommentsPage.Page.Visible | src/app/comments/page.js:169-170 | the table shows every loaded comment when the search is empty, and otherwise exactly the loaded comments whose content contains the search text, ignoring case, in order (also line 298) |
| UsersPage.FilteredSpec | src/app/users/page.js:154-157 | a user is listed exactly when it is loaded and its non-empty name or email contains the search text, ignoring case, and the list keeps the order |
| UsersPage.EmptySearch | src/app/users/page.js:154-157 | an empty search text keeps exactly the users with a non-empty name or email |
| UsersPage.SaveBody | src/app/users/page.js:79-81 | the form values with `username` set to the name |
| UsersPage.Page.ShowAdd | src/app/users/page.js:52-56 | no user is being edited and the modal opens |
| UsersPage.Page.ShowEdit | src/app/users/page.js:59-68 | the user is being edited and the modal opens |
| UsersPage.Page.HandleSave | src/app/users/page.js:76-130 | an invalid form sends nothing; an edit is a `PUT` to the user's address and anything else a `POST` to the collection, both with the name as username; only an OK answer reloads the list and closes the modal |
| UsersPage.Page.Visible | src/app/users/page.js:154-157 | the table shows exactly the loaded users whose non-empty name or email contains the search text, ignoring case, in order (also line 282) |
| TagsPage.Merge | src/app/tags/page.js:69 | the form fields replace the user's; the id, avatar and creation date stay |
| TagsPage.Edited | src/app/tags/page.js:66-71 | same length and ids; every user with the edited id gets the form values and every other user is kept, in place |
| TagsPage.NewUser | src/app/tags/page.js:75-80 | id one past the current length, the form values, no avatar and today's date |
| TagsPage.Added | src/app/tags/page.js:74-81 | exactly one user, the new one, appended after the others |
| TagsPage.DeletedSpec | src/app/tags/page.js:89-93 | a user is kept exactly when it was there and has another id, and the others keep their order |
| TagsPage.SearchSpec | src/app/tags/page.js:96-100 | a user is listed exactly when it is there and its username, name or email contains the search text, ignoring case, and the list keeps the order |
| TagsPage.DeleteNumbered | src/app/tags/page.js:89-93 | deleting one of consecutively numbered ids removes exactly one user, and the last user stays last unless it is the one deleted |
| TagsPage.IdCollision | src/app/tags/page.js:76 | ids do not stay unique: after deleting any user but the last of users numbered 1 to n, the next user added gets id n, which the last user still has (also lines 89-93) |
| TagsPage.SampleCollision | src/app/tags/page.js:10-16 | on the sample table, deleting user 2 and adding one leaves two users with id 5 (also line 76, line 90) |
| TagsPage.Page.ShowAdd | src/app/tags/page.js:39-43 | no user is being edited and the modal opens; the table stays |
| TagsPage.Page.ShowEdit | src/app/tags/page.js:46-56 | the user is being edited and the modal opens; the table stays |
| TagsPage.Page.Save | src/app/tags/page.js:64-86 | nothing happens until the form validates; then the edited user is merged or a new one appended, and the modal closes |
| TagsPage.Page.Delete | src/app/tags/page.js:89-93 | the table becomes the deletion of the id; nothing else changes |
| TagsPage.Page.Visible | src/app/tags/page.js:96-100 | the table shows exactly the users whose username, name or email contains the search text, ignoring case, in order (also line 235) |
| Sidebar.Active | src/components/Sidebar.jsx:37-52 | a missing or empty path, and `/`, make the dashboard active; otherwise the first segment becomes active when it is a menu key, and the active item is kept when not |
| Sidebar.SectionPath | src/components/Sidebar.jsx:44-50 | a path below a menu section makes that section active, whatever was active before; a path below any other section keeps the active item |
| Sidebar.PostsExample | src/components/Sidebar.jsx:44-50 | `/posts/1` makes `posts` active |
| Sidebar.VisitorsExample | src/components/Sidebar.jsx:45-50 | `/visitors` leaves the active item as it was |
| Sidebar.Menu.constructor | src/components/Sidebar.jsx:19-20 | expanded, with the dashboard active |
| Sidebar.Menu.Toggle | src/components/Sidebar.jsx:23-25 | the collapsed flag flips and the active item stays |
| Sidebar.Menu.PathChanged | src/components/Sidebar.jsx:37-52 | the active item becomes the one the path gives and stays a menu key |
| CodeBlock.WordRun | src/components/CodeBlock.jsx:8 | the greedy `\w+` capture: the longest run of word characters at the start |
| CodeBlock.Match | src/components/CodeBlock.jsx:8 | none exactly when `language-` followed by a word character occurs nowhere; otherwise the capture at the leftmost such place |
| CodeBlock.MatchIsWord | src/components/CodeBlock.jsx:8-9 | a captured language is a non-empty run of word characters |
| CodeBlock.MatchOfFence | src/components/CodeBlock.jsx:8-9 | the class name `language-` followed by a word names that word as its language |
| CodeBlock.Language | src/components/CodeBlock.jsx:8-9 | the capture, or `''` without a match; a missing class name counts as `''` |
| CodeBlock.StyleFor | src/components/CodeBlock.jsx:12-19 | the coy style exactly for `html`, and the tomorrow style for everything else |
| CodeBlock.StripNewline | src/components/CodeBlock.jsx:28 | one line break at the very end is removed, and a text without one is kept |
| CodeBlock.StripsOne | src/components/CodeBlock.jsx:28 | only one line break goes: a text ending in two keeps one |
| CodeBlock.Render | src/components/CodeBlock.jsx:21-34 | the highlighter exactly when the block is not inline and the class name matches, with the non-empty language, its style and the text without its final line break; otherwise a plain code element with the class name and children |
| Seqs.Filter | src/app/api/visitors/route.js:192 | the kept elements are elements of the input that pass, and every element that passes is kept (also src/app/tags/page.js:90) |
| Seqs.FilterIsSubseq | src/app/tags/page.js:90-100 | a filter keeps the order of what it keeps |
| Seqs.Take | src/app/api/dashboard/route.js:33-45 | `.limit(n)`: the first `n` elements, or all of them when there are fewer |
| Seqs.TopBest | src/app/api/dashboard/route.js:32-33 | the first `n` of a descending sort are the best `n`: an element left out means `n` were kept, and its key is no larger than the last kept |
| Seqs.SortDesc | src/app/api/comments/route.js:33 | `.sort({key: -1})`: a permutation of the input ordered by non-increasing key (also src/app/api/visitors/route.js:193) |
| Seqs.Find | src/app/comments/page.js:130 | none exactly when no element passes; otherwise an element that passes, with none passing before it (also src/app/api/auth/check-permission/route.js:21) |
| Seqs.FindIsFirst | src/app/comments/page.js:130 | the element found is the first one that passes |
| Seqs.FilterSplitsCount | src/app/api/visitors/route.js:399-409 | the elements that pass and those that fail a test add up to the whole |
| Strings.ToLower | src/app/users/page.js:155-156 | `toLowerCase` on each character, restricted to ASCII letters |
| Strings.Trim | src/components/EnhancedMarkdownEditor.jsx:130 | `trim()`: no white space at either end, and empty exactly when the input is all white space (also line 151) |
| Strings.TrimIsSlice | src/components/EnhancedMarkdownEditor.jsx:288 | trimming cuts white space off both ends and nothing else |
| Strings.SplitOn | src/components/EnhancedMarkdownEditor.jsx:297 | the fields between single separator characters, empty ones included: at least one field, none holding a separator |
| Strings.Split | src/components/Sidebar.jsx:45 | `split(c)`: at least one field, none holding the separator (also src/components/EnhancedMarkdownEditor.jsx:151) |
| Strings.SplitJoin | src/app/articles/page.js:84 | splitting a join on a character that no part contains gives the parts back (also src/components/EnhancedMarkdownEditor.jsx:151) |
| Strings.SplitHead | src/app/api/visitors/route.js:296-298 | the first field of a split is the longest prefix without the separator |
| Grouping.GroupCountGroups | src/app/api/comments/count/route.js:14-16 | each key appears in exactly one group, no group is empty, and each count is the number of occurrences of its key (also src/app/api/dashboard/route.js:30-31) |
| Grouping.GroupCountTotal | src/app/api/comments/count/route.js:14-16 | the counts add up to the number of keys counted |
| Grouping.DistinctKeys | src/components/EnhancedMarkdownEditor.jsx:302-308 | the keys without repetition, each an element, every element among them |
| QueryString.Decimal | src/components/VisitorManager.jsx:136 | the decimal spelling of a page number: at least one digit, digits only, and reading the digits from left to right gives the number back |
| QueryString.DecimalInjective | src/components/VisitorManager.jsx:136 | different numbers are written differently, so the URL fixes `page` and `pageSize` |
| QueryString.ParseQueryOf | src/components/VisitorManager.jsx:136-165 | a query string built from pairs free of `&` and `=` reads back as exactly those pairs, in order (also src/app/api/visitors/route.js:32-42) |

## Left out

- Database, network and browser I/O: MongoDB, `fetch`, ip-api.com, `localStorage` and `sessionStorage` are state fields or parameters, as described above. Connection handling and the 500 responses of thrown exceptions are not modelled.
- Dates: timestamps are integers and formatted dates are strings. Date parsing, dayjs formatting and time zones are not modelled.
- PermissionRoute.Check, UsersRoute.UserStore.Post, CommentsRoute.CommentStore.Post, ArticlesRoute.ArticleStore.Post: body fields are modelled as optional strings (tags as an optional list of strings, the author as an optional record). The routes pass the parsed JSON values on unchecked, and other value types are not modelled. A number or boolean has its own truthiness. An object such as `{"$ne": null}` is read by MongoDB as a query operator: at src/app/api/auth/check-permission/route.js:6-21 it passes the `!email` test, and `findOne` then returns the first user with any email. That route is public (src/middleware.js:11-13). `findOne` in src/app/api/users/route.js:36-54 treats `name` and `email` the same way.
- Page numbers: `page` and `pageSize` are positive integers. A `parseInt` result that is `NaN`, zero or negative is not modelled.
- Regular-expression filters: the user, IP, country, region and article filters are modelled as case-insensitive literal substring tests. An input with regex metacharacters (a `.` in an IP filter, say) matches differently. Case folding covers ASCII letters only.
- The duplicate `$ne` key of the agent condition (src/app/api/visitors/route.js:84-85): only `$ne: ""` survives. The positive operating-system and browser tests already exclude a missing agent, so nothing changes.
- Floating point: the percentage in the listing's debug log is not modelled; `Math.ceil(total / pageSize)` is integer ceiling division.
- Logging: `console` output and `message` toasts are not modelled.
- Rendering: JSX and antd rendering, the parent comment's tooltip, `formatDate`, UAParser device detection and syntax highlighting itself are not modelled.
- The comment page's delete (src/app/comments/page.js:95-126) calls the comment subtree delete route, which is not part of this model; its list refresh is left out with it.
- Requests a page makes only to fill its own lists are left out: the comment page's `fetchArticles`, the visitor panel's `fetchFilterOptions` and the settings page's `fetchSettings`.
- The editor's initial load from the URL and local storage and its autosave effect (src/components/EnhancedMarkdownEditor.jsx:49-125) are left out; the editor starts empty over a given storage.
- `login` in the user context only calls the sign-in library and is left out.
- React state updates are modelled as one sequential step per handler.
- CommentsPage.Commenter: a comment without a user id is unknown. JavaScript would look up the key `"undefined"` in the users map, which a user id of `"undefined"` could match.
- Seqs.SortDesc: ties are kept in store order. MongoDB does not promise an order among equal keys, so no contract relies on the order of ties.
- DashboardRoute.TagCountsSpec: the order of tags with equal counts is not stated.
- MarkdownEditor.TopTagsShape: equally frequent words keep their order of first occurrence. `Object.entries` puts integer-like keys first (src/components/EnhancedMarkdownEditor.jsx:308), and that order is not modelled.
- Strings.SplitOn: splitting content at white space cuts at every single white-space character, so a run of white space gives empty fields that `split(/\s+/)` (src/components/EnhancedMarkdownEditor.jsx:297) does not. The next step keeps only words longer than three characters, so the counted words are the same.
- Strings.ToLower: case folding covers ASCII letters only, where `toLowerCase` folds every cased character. The case-insensitive contracts rely on it: UsersPage.FilteredSpec, TagsPage.SearchSpec, CommentsPage.ContentFilterSpec, VisitorsRoute.ContainsAnyCI and MarkdownEditor.ContentWordsShape.
- CommentsPage.Truncate, MarkdownEditor.Summary, MarkdownEditor.SummaryShape, MarkdownEditor.Keyword: lengths and cuts count Unicode code points. JavaScript's `length` and `substring` (src/app/comments/page.js:148, src/components/EnhancedMarkdownEditor.jsx:288 and 298) count UTF-16 code units, so text with characters outside the Basic Multilingual Plane (emoji, for instance) is measured and cut differently.
- VisitorOptionsRoute.SortAsc: strings are ordered by code point. The default `sort()` (src/app/api/visitors/options/route.js:48 and 52) compares UTF-16 code units, which puts a character outside the Basic Multilingual Plane before a character from U+E000 to U+FFFF rather than after it.
- MarkdownEditor.WordFreq, MarkdownEditor.TagCandidates, MarkdownEditor.TopTagsShape: the word counter is a plain object (src/components/EnhancedMarkdownEditor.jsx:302-305), which inherits `constructor`. For the word "constructor", the count starts from that inherited function and becomes a string, and the comparison of line 309 then yields `NaN`, which leaves the order of the tags to the JavaScript engine. The model counts "constructor" like any other word.
- MarkdownEditor.GeneratedTagsParse: stated only for content without a comma. A word is split at white space only, so a comma inside a word becomes two tags when the field is parsed.
- The thin network wrappers (GitHub proxy, text generation, upload, revalidation), the mock-data pages and the Next.js `config.matcher` pattern are not part of this model.

## Findings

| source | as written | input that shows it | evidently intended | confidence | as-written member | corrected member |
|---|---|---|---|---|---|---|
| src/components/VisitorManager.jsx:331-339 | `resetFilters` clears the five filter inputs, then requests page 1 through `fetchVisitors`, which reads the filter values of the current render, that is, the values before the reset | ip filter `1.2` set, then reset: the request still carries `ipFilter=1.2` while every input shows empty | the request after a reset carries no filter | not executed | VisitorManager.VisitorPanel.ResetFiltersAsWritten, VisitorManager.StaleReset | VisitorManager.VisitorPanel.ResetFilters |
