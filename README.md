# Wallpaper gallery — a Dafny model

This project models the core of a wallpaper gallery: a React client and the
FastAPI backend it talks to.

- **The client's API service.** It turns Google Drive share links into file
  ids, direct-download links, thumbnails and previews. It turns HTTP
  responses into values or `ApiError`s, and builds the bearer-token headers.
- **Data hooks and contexts.**
  - `useWallpapers`, `useCategories` and `useWallpaperActions`.
  - The authentication context and the theme context.
- **Download helpers.** The Drive download helpers, with their id validator
  and the primary-then-fallback flow.
- **The offline mock API.** It serves a catalogue of twelve wallpapers.
- **Search and detail views.**
  - The search page and the search modal, with their filters and count lines.
  - The related-wallpapers strip of the detail modal.
- **The backend.** `Backend/main.py`:
  - password pre-hashing and verification, and the admin gate;
  - registration and category creation;
  - likes and download counts;
  - the public listings, newest first, with `skip`/`limit`;
  - the admin upload to Google Drive with its sanitised file name.

The modules follow the program's structure:

| module | file | models |
|---|---|---|
| `Wrappers` | wrappers.dfy | `Option` and `Result` |
| `Text` | text.dfy | JavaScript string operations: `toLowerCase` (ASCII), `includes`, `replace` (first occurrence), `split`, `String(n)` for naturals; UTF-8 byte length |
| `Seqs` | seqs.dfy | `filter`, `find`/`findIndex`, `Array.prototype.slice` (negative indices and clamping) and the subsequence relation |
| `BrowserStorage` | browser_storage.dfy | `localStorage` as a class over a string map |
| `DriveUrls` | drive_urls.dfy | the four Drive URL helpers of the API service |
| `ApiClient` | api_client.dfy | `handleResponse`, `getAuthHeaders`, `logout`, `isAuthenticated`, the `ApiError` value |
| `WallpaperTransform` | wallpaper_transform.dfy | the record transformation inside `useWallpapers` |
| `Hooks` | hooks.dfy | the three hooks, as classes whose methods take the settled API outcome |
| `AuthContext` | auth_context.dfy | `AuthProvider` and `useAuth` |
| `DownloadUtils` | download_utils.dfy | `downloadFromGoogleDrive`, `isValidGoogleDriveFileId`, `showDownloadNotification`'s text |
| `MockData` | mock_data.dfy | the mock catalogue and mock API |
| `SearchPage` | search_page.dfy | the page's filter and summary line |
| `SearchModal` | search_modal.dfy | the modal's filter, count line and rendering cases |
| `DetailModal` | detail_modal.dfy | the related-wallpapers strip |
| `ThemeContext` | theme_context.dfy | the initial theme, the storage effect and `useTheme` |
| `BackendSecurity` | backend_security.dfy | `get_password_hash`, `verify_password` |
| `BackendApi` | backend_api.dfy | the endpoints over a `Database` class holding the three collections |

How the model represents things:

- **Optional values.** JavaScript `null`/`undefined` is `None`. Truthiness of
  a string is "present and non-empty".
- **Asynchronous functions.** Each asynchronous function is one method that
  receives the settled outcome of every request it awaits, in order. The
  network, `fetch`, the DOM, the clock and the Google Drive service become
  parameters.
- **Regular expressions.** Each of the two id patterns is its literal marker.
  The match is the leftmost index where the marker is followed by at least one
  id character. The capture is the greedy run of id characters after it.

## Model

| member | source | states |
|---|---|---|
| `DriveUrls.FirstMatchFrom` | wallpaper/src/services/api.js:132-133 | the leftmost index, from a start, where the pattern's marker is followed by an id character; none at all when it reports none |
| `DriveUrls.IdRun` | wallpaper/src/services/api.js:132-133 | the capture group is a block of id characters that sits in the string at that index and cannot be extended |
| `DriveUrls.IdRunIs` | wallpaper/src/services/api.js:132-133 | any maximal block of id characters at an index is exactly what the group captures there |
| `DriveUrls.Capture` | wallpaper/src/services/api.js:132-133 | `exec(...)?.[1]`: nothing exactly when the pattern matches nowhere; else the run after the leftmost match, never empty |
| `DriveUrls.FileId` | wallpaper/src/services/api.js:130-135 | `''` exactly when neither pattern matches (or the URL is absent/empty); the query-parameter capture wins; else the path capture; a found id consists of id characters |
| `DriveUrls.DownloadUrl` | wallpaper/src/services/api.js:107-122 | `''` for an absent URL; the canonical `uc?export=download&id=` link when an id is found; else the URL with its first `export=view` replaced |
| `DriveUrls.ThumbnailUrl` | wallpaper/src/services/api.js:138-142 | the URL itself (or `''`) without an id; else the thumbnail link of the id with `&sz=w` and the size |
| `DriveUrls.PreviewUrl` | wallpaper/src/services/api.js:125-127 | the URL when truthy, else `''` |
| `DriveUrls.DownloadUrlFallbackUnchanged` | wallpaper/src/services/api.js:117-118 | a URL without an id and without `export=view` comes back unchanged |
| `DriveUrls.DownloadUrlFallbackReplacesFirst` | wallpaper/src/services/api.js:117-118 | without an id, only the first `export=view` becomes `export=download` |
| `DriveUrls.FileIdOfQueryUrl` | wallpaper/src/services/api.js:130-135 | a `…?…&id=ID` link yields `ID` |
| `DriveUrls.QueryUrlFirstMatch` | wallpaper/src/services/api.js:132 | in `a?b&id=ID` the leftmost query-parameter match is the `&` before `id=` |
| `DriveUrls.FileIdFromQueryMatch` | wallpaper/src/services/api.js:132-134 | once the query-parameter pattern matches, its capture is the id (the left side of `||` wins) |
| `DriveUrls.NoQueryMarkerWithout` | wallpaper/src/services/api.js:132 | text without `?` and `&` never matches the query-parameter pattern |
| `DriveUrls.NoQueryMarkerIn` | wallpaper/src/services/api.js:132 | `u?v` with `v` not starting `id=` holds no query-parameter marker |
| `DriveUrls.NoQueryMatchAfterId` | wallpaper/src/services/api.js:132 | no query-parameter match in a path link whose tail holds no marker |
| `DriveUrls.PathMatchAfterHost` | wallpaper/src/services/api.js:133 | in `scheme//host/file/d/ID…` the leftmost `/file/d/` match is the one after the host |
| `DriveUrls.FileIdFromPathMatch` | wallpaper/src/services/api.js:132-134 | with no query-parameter match, the id is the path capture (the `||` fallback) |
| `DriveUrls.FileIdOfPathUrl` | wallpaper/src/services/api.js:130-135 | a `https://drive.google.com/file/d/ID…` link yields `ID` |
| `DriveUrls.PathUrlMatches` | wallpaper/src/services/api.js:132-133 | in a `https://drive.google.com/file/d/ID…` link the query-parameter pattern matches nowhere and the path pattern first matches after the host |
| `DriveUrls.DownloadBaseFileId` | wallpaper/src/services/api.js:115 | the canonical download link re-extracts the id it was built from |
| `DriveUrls.DownloadUrlIdempotent` | wallpaper/src/services/api.js:107-122 | converting a converted link changes nothing and keeps the id |
| `DriveUrls.DownloadUrlOfPathUrl` | wallpaper/src/services/api.js:104-116 | a `/file/d/ID` link becomes the direct-download link of `ID` |
| `DriveUrls.DownloadUrlOfPathExample` | wallpaper/src/services/api.js:103-106 | the documented `/file/d/ID/view` format is converted to `uc?export=download&id=ID` |
| `ApiClient.RequestError.DetailOr` | wallpaper/src/hooks/useApi.js:116 | the error body's `detail` when it is a non-empty string, else the fallback; never empty with a non-empty fallback |
| `ApiClient.StatusMessage` | wallpaper/src/services/api.js:18 | starts with `HTTP error! status: ` and the rest reads back as the status |
| `ApiClient.StatusMessageInjective` | wallpaper/src/services/api.js:18 | two statuses with the same message are equal |
| `ApiClient.HandleResponse` | wallpaper/src/services/api.js:14-24 | an ok response yields its parsed body, or the parser's error; a non-ok one yields an `ApiError` with the status, the body's detail as data (`{}` for a non-JSON body), and as message the truthy detail or the status message, never empty |
| `ApiClient.HandleResponseStatusReadBack` | wallpaper/src/services/api.js:17-21 | an error without detail carries a message from which its status can be read back |
| `ApiClient.AuthHeaders` | wallpaper/src/services/api.js:27-33 | always a JSON content type; `Authorization: Bearer <token>` exactly when a non-empty token is stored; no other header |
| `ApiClient.IsAuthenticated` | wallpaper/src/services/api.js:70-72 | `!!localStorage.getItem('access_token')`: true exactly when a token entry is stored and is not the empty string |
| `ApiClient.Logout` | wallpaper/src/services/api.js:66-68 | only the token entry is removed; afterwards the client is not authenticated and sends no `Authorization` |
| `BrowserStorage.LocalStorage.GetItem` | wallpaper/src/services/api.js:28 | present exactly for stored keys, with the stored value |
| `BrowserStorage.LocalStorage.SetItem` | wallpaper/src/context/AuthContext.js:41 | only the written key changes, and it reads back as written |
| `BrowserStorage.LocalStorage.RemoveItem` | wallpaper/src/services/api.js:67 | only the removed key changes, and it reads back as absent |
| `Text.ReplaceFirst` | wallpaper/src/services/api.js:118 | `String.prototype.replace` with a string pattern: unchanged without an occurrence, else only the leftmost occurrence replaced |
| `Text.SplitOn` | wallpaper/src/hooks/useApi.js:47 | `split(' ')`: at least one piece, none containing the separator |
| `Text.JoinSplit` | wallpaper/src/hooks/useApi.js:47 | joining the pieces of a split with the separator gives back the string |
| `WallpaperTransform.ResolveFileUrl` | wallpaper/src/hooks/useApi.js:32-34 | a truthy file URL wins; else the view link of a truthy file id; else `''` |
| `WallpaperTransform.Tags` | wallpaper/src/hooks/useApi.js:47 | the first (at most) three space-separated words of a truthy description, in order; none without one |
| `WallpaperTransform.TagsRejoin` | wallpaper/src/hooks/useApi.js:47 | a description of at most three words is its tags joined by spaces |
| `WallpaperTransform.Transform` | wallpaper/src/hooks/useApi.js:30-49 | the display record keeps id, title, description and counts, renames the category, and takes its image and download links from the resolved file URL |
| `WallpaperTransform.TransformAll` | wallpaper/src/hooks/useApi.js:30-49 | same number of records, in the same order |
| `WallpaperTransform.TransformWithoutFile` | wallpaper/src/hooks/useApi.js:32-37 | a record with neither file field shows empty image and download links |
| `WallpaperTransform.DefaultSizeText` | wallpaper/src/services/api.js:138 | the default thumbnail size renders as `800` |
| `WallpaperTransform.FileIdOfViewUrl` | wallpaper/src/hooks/useApi.js:33 | the view link built from an id re-extracts the id |
| `WallpaperTransform.TransformWithIdOnly` | wallpaper/src/hooks/useApi.js:32-37 | a record with only a file id gets that id's `sz=w800` thumbnail and direct-download link |
| `Hooks.RequestFor` | wallpaper/src/hooks/useApi.js:16-20 | `All` selects the unfiltered listing, any other category its own, with the same skip and limit |
| `Hooks.WallpaperList.constructor` | wallpaper/src/hooks/useApi.js:4-8 | empty list, not loading, no error, `hasMore` true |
| `Hooks.WallpaperList.Fetch` | wallpaper/src/hooks/useApi.js:10-60 | a list response gives the transformed records and `hasMore` iff a full page came back; a non-list gives `[]` and no more; a failure gives `[]` and the error message and leaves `hasMore`; loading ends false |
| `Hooks.HasMoreAgainstWindow` | wallpaper/src/hooks/useApi.js:52 | against the server's skip/limit window with a positive limit, a page shorter than the limit is the last one, and `hasMore` is set whenever wallpapers remain past the page |
| `Hooks.Names` | wallpaper/src/hooks/useApi.js:86 | one name per category record, in order |
| `Hooks.CategoryList.constructor` | wallpaper/src/hooks/useApi.js:70-72 | the list starts as `['All']` |
| `Hooks.CategoryList.Fetch` | wallpaper/src/hooks/useApi.js:74-96 | `All` followed by the fetched names, or the five defaults on a non-list or failure (with the error); `All` always heads the list |
| `Hooks.WallpaperActions.constructor` | wallpaper/src/hooks/useApi.js:106-107 | not loading, no error |
| `Hooks.WallpaperActions.Like` | wallpaper/src/hooks/useApi.js:109-122 | success carries the reply's message; failure carries the detail or `Failed to like wallpaper` and records it as the error; never rejects |
| `Hooks.WallpaperActions.Download` | wallpaper/src/hooks/useApi.js:124-137 | success, or the detail or `Failed to download wallpaper` recorded as the error |
| `AuthContext.AuthProvider.constructor` | wallpaper/src/context/AuthContext.js:14-17 | no user, loading, no error |
| `AuthContext.AuthProvider.IsAdmin` | wallpaper/src/context/AuthContext.js:77-78 | true exactly for a signed-in user with role `admin`; an admin is always authenticated |
| `AuthContext.AuthProvider.IsAuthenticated` | wallpaper/src/context/AuthContext.js:77 | `!!user`: signed in exactly when a user record is held |
| `AuthContext.AuthProvider.CheckAuthStatus` | wallpaper/src/context/AuthContext.js:23-35 | without a token nothing changes; with one the fetched user is set, or on failure the token is removed; loading ends false |
| `AuthContext.AuthProvider.Login` | wallpaper/src/context/AuthContext.js:37-50 | a failed token request changes nothing but the error; a token is stored before the user fetch, so a failed fetch fails the login with the token still stored |
| `AuthContext.AuthProvider.Register` | wallpaper/src/context/AuthContext.js:52-62 | success, or the detail or `Registration failed` as error; user and token untouched |
| `AuthContext.AuthProvider.Logout` | wallpaper/src/context/AuthContext.js:64-68 | token, user and error cleared; no other stored entry changes; neither authenticated nor admin afterwards |
| `AuthContext.UseAuth` | wallpaper/src/context/AuthContext.js:6-12 | the provider's value inside a provider, else the `useAuth must be used within AuthProvider` error |
| `DownloadUtils.IsValidGoogleDriveFileId` | wallpaper/src/utils/downloadUtils.js:89-93 | true exactly for a string of at least 25 id characters |
| `DownloadUtils.DownloadMethods` | wallpaper/src/utils/downloadUtils.js:14-21 | the three links, in order: direct, swapped parameters, sharing page |
| `DownloadUtils.SharingUrlDownloadsPrimary` | wallpaper/src/utils/downloadUtils.js:16-20 | the sharing link names the same file: the API service extracts the id from it and converts it to the primary link |
| `DownloadUtils.AlternateUrlFileId` | wallpaper/src/utils/downloadUtils.js:18 | the alternate link names the same file |
| `DownloadUtils.DownloadFromGoogleDrive` | wallpaper/src/utils/downloadUtils.js:9-52 | a missing id fails before anything happens; an ok probe clicks one link to the primary URL with the file name; otherwise the sharing page opens in one tab, or the call fails with `Unable to initiate download…` and nothing happens |
| `DownloadUtils.NotificationText` | wallpaper/src/utils/downloadUtils.js:67-69 | the message when non-empty, else the success or failure default; never empty |
| `MockData.MockWallpapersNumbered` | wallpaper/src/data/mockData.js:1-98 | twelve wallpapers numbered 1 to 12 in order, so ids are distinct |
| `MockData.Listed` | wallpaper/src/data/mockData.js:108-119 | an order-preserving selection holding exactly the wallpapers of the category (unless `All` or empty) that match the query (unless empty) |
| `MockData.GetAll` | wallpaper/src/data/mockData.js:106-127 | the page is the slice from `(page-1)*pageSize` to `page*pageSize` of the listed wallpapers; total is their number; `hasMore` iff the page ends before it |
| `MockData.GetAllDefaults` | wallpaper/src/data/mockData.js:106 | `getAll()` with its default arguments returns the first twelve wallpapers, the catalogue's size as total, and more exactly when over twelve exist |
| `MockData.GetAllItems` | wallpaper/src/data/mockData.js:108-123 | every page is an order-preserving selection of the catalogue in the category and matching the query |
| `MockData.GetAllPageBound` | wallpaper/src/data/mockData.js:120-123 | from page 1 on a page holds at most `pageSize` wallpapers |
| `MockData.GetTrending` | wallpaper/src/data/mockData.js:102-105 | a prefix of the catalogue of length min(8, size) |
| `MockData.GetById` | wallpaper/src/data/mockData.js:128-131 | the first catalogue wallpaper whose id renders as the key (no earlier one does); `null` exactly when none does |
| `MockData.GetByIdFindsEach` | wallpaper/src/data/mockData.js:128-131 | with distinct ids every wallpaper is found by its own id |
| `MockData.GetRelated` | wallpaper/src/data/mockData.js:132-139 | `[]` for an unknown id; else the first (at most) eight other wallpapers sharing the category or a tag, in catalogue order |
| `MockData.GetRelatedExcludesCurrent` | wallpaper/src/data/mockData.js:134-138 | the current wallpaper is never among its related ones |
| `SearchPage.Filtered` | wallpaper/src/pages/SearchPage.js:10-18 | the whole list for an empty query; else exactly the wallpapers whose title, category or some tag contains the query ignoring case, in order |
| `SearchPage.MatchesSubstring` | wallpaper/src/pages/SearchPage.js:13-17 | a wallpaper matching a query matches every substring of it |
| `SearchPage.QueryRefinementNarrows` | wallpaper/src/pages/SearchPage.js:10-18 | extending a query gives a subsequence of the previous results |
| `SearchPage.Summary` | wallpaper/src/pages/SearchPage.js:43 | `Found N result(s)` while searching, else `Showing N wallpapers` |
| `SearchPage.SummaryCountReadBack` | wallpaper/src/pages/SearchPage.js:43 | the summary determines the count |
| `SearchModal.FilteredWallpapers` | wallpaper/src/components/SearchModal.js:8-12 | exactly the matching wallpapers, in order |
| `SearchModal.EmptyQueryKeepsAll` | wallpaper/src/components/SearchModal.js:8-12 | the empty query keeps every wallpaper |
| `SearchModal.AgreesWithSearchPage` | wallpaper/src/components/SearchModal.js:8-12 | the modal and the search page return the same results for every query |
| `SearchModal.CountText` | wallpaper/src/components/SearchModal.js:61 | starts `Found ` and ends in `s` exactly when the count is not 1 |
| `SearchModal.CountTextReadBack` | wallpaper/src/components/SearchModal.js:61 | the count line determines the count |
| `SearchModal.Render` | wallpaper/src/components/SearchModal.js:14-77 | nothing when closed; the prompt exactly for an empty query; the no-match notice only when nothing matches; otherwise the non-empty results with their count line |
| `DetailModal.Related` | wallpaper/src/components/WallpaperDetailModal.js:12-21 | nothing when closed or without a wallpaper; else the first (at most) four other wallpapers sharing the category or a tag, in order |
| `ThemeContext.ThemeName` | wallpaper/src/context/ThemeContext.js:31-37 | `dark` exactly for dark, `light` exactly for light |
| `ThemeContext.GetInitialTheme` | wallpaper/src/context/ThemeContext.js:17-26 | a stored `dark`/`light` decides; another value defers to the system preference; unreadable storage means light |
| `ThemeContext.ThemeRoundTrip` | wallpaper/src/context/ThemeContext.js:17-38 | what the effect stores is read back as the same theme |
| `ThemeContext.ThemeProvider.constructor` | wallpaper/src/context/ThemeContext.js:28 | the state starts from the initial theme |
| `ThemeContext.ThemeProvider.ApplyTheme` | wallpaper/src/context/ThemeContext.js:30-38 | the `dark` class is present exactly when dark; a writable store gets only the theme entry, which reads back as the current theme |
| `ThemeContext.ThemeProvider.SetIsDark` | wallpaper/src/context/ThemeContext.js:28-38 | the new theme, mirrored into the class and, when writable, the store |
| `ThemeContext.UseTheme` | wallpaper/src/context/ThemeContext.js:7-13 | the provider's value inside a provider, else the `useTheme must be used within ThemeProvider` error |
| `BackendSecurity.PreparePassword` | Backend/main.py:130-138 | a password over 72 UTF-8 bytes is replaced by its SHA-256 hex digest, so bcrypt never sees more than 72 bytes; shorter ones pass unchanged |
| `BackendSecurity.HashPassword` | Backend/main.py:135-138 | the hash commits to a secret of at most 72 bytes, under the drawn salt |
| `BackendSecurity.VerifyPassword` | Backend/main.py:130-133 | true exactly when the prepared password is the hashed secret |
| `BackendSecurity.VerifyOwnHash` | Backend/main.py:130-138 | every password verifies against its own hash, whatever its length and salt |
| `BackendSecurity.VerifyShortPasswordExact` | Backend/main.py:130-138 | among passwords of at most 72 bytes only the password itself verifies |
| `BackendApi.ParseObjectId` | Backend/main.py:228-232 | accepted exactly for 24 hex digits of either case; the id is their lower-case text |
| `BackendApi.ParseObjectIdOfText` | Backend/main.py:196 | `str(id)` parses back to the same id |
| `BackendApi.ParseObjectIdIgnoresCase` | Backend/main.py:228-232 | upper- and lower-case spellings name the same id |
| `BackendApi.RequireAdmin` | Backend/main.py:158-161 | the user exactly when the role is `admin`, else 403 with the privileges message |
| `BackendApi.WallpaperIndex` | Backend/main.py:234-236 | the position of a wallpaper with the id; none exactly when no wallpaper has it |
| `BackendApi.ToggleLike` | Backend/main.py:238-243 | a present liker is removed (every occurrence) and nobody else; an absent one is appended |
| `BackendApi.ToggleLikeTwice` | Backend/main.py:238-243 | liking twice gives back the same set of likers |
| `BackendApi.FilterOutOne` | Backend/main.py:239 | `$pull` of a liker from a duplicate-free list removes exactly one entry and keeps it duplicate-free |
| `BackendApi.ToggleLikeCount` | Backend/main.py:238-243 | with duplicate-free likers, a like adds exactly one and an unlike removes exactly one, and the list stays duplicate-free |
| `BackendApi.LikeMessage` | Backend/main.py:238-245 | `Wallpaper unliked` exactly when the user had liked it, else `Wallpaper liked` |
| `BackendApi.CategoryNameOf` | Backend/main.py:194-199 | the name of the first category with the id, else `Uncategorized` |
| `BackendApi.LikesCountShown` | Backend/main.py:200 | after a like the listing shows one more like, after an unlike one fewer |
| `BackendApi.DownloadCountShown` | Backend/main.py:201 | after a download the listing shows one more download, a missing counter counting as 0 |
| `BackendApi.ToPublic` | Backend/main.py:195-203 | the `WallpaperPublic` record: id as its hex text, title, description and Drive id copied, the given category name, `likes_count` the number of likers (0 without a `likes` field), `download_count` the stored count or 0 |
| `BackendApi.ShownIdParsesBack` | Backend/main.py:196 | the `id` a listing shows parses as an `ObjectId` back to the stored wallpaper's id |
| `BackendApi.Insert` | Backend/main.py:191 | inserting into a newest-first list keeps it newest first and adds exactly that wallpaper |
| `BackendApi.ConsNewestFirst` | Backend/main.py:191 | a wallpaper no older than the head of a newest-first list may precede it |
| `BackendApi.NewestFirst` | Backend/main.py:191 | `sort("upload_date", -1)`: newest first, a permutation of the collection |
| `BackendApi.Window` | Backend/main.py:191 | a negative skip is a server error; else the first `skip` entries are passed over (nothing remains past the end) and the result is a prefix of the rest: all of it for limit 0, else exactly `min(abs(limit), remaining)` entries |
| `BackendApi.WindowOfNewestFirst` | Backend/main.py:191 | a window of a newest-first list is newest first and drawn from it |
| `BackendApi.Listing` | Backend/main.py:192-204 | one public record per window entry, in order, under its category's name |
| `BackendApi.CategoryByName` | Backend/main.py:208-210 | the first category whose name equals the requested one ignoring case; none exactly when no name does |
| `BackendApi.TrimEndSpaces` | Backend/main.py:317 | `rstrip()`: a prefix without a trailing space, having removed only spaces |
| `BackendApi.SanitizeTitle` | Backend/main.py:317 | only letters, digits, spaces and `_` remain, in order, with no trailing space; every letter, digit and `_` of the title is kept as often as it occurs, and only trailing spaces of the kept text are dropped |
| `BackendApi.TrimEndSpacesKeepsCounts` | Backend/main.py:317 | `rstrip()` removes only spaces: every other character keeps its number of occurrences |
| `BackendApi.SanitizeTitleIdempotent` | Backend/main.py:317 | sanitising a sanitised title changes nothing |
| `BackendApi.DriveFileName` | Backend/main.py:317-318 | the sanitised title, `_`, then a non-empty run of decimal digits whose value is the upload time in whole seconds; only file-name-safe characters |
| `BackendApi.DriveFileNamesDiffer` | Backend/main.py:318 | uploads of one title at different seconds get different Drive file names |
| `BackendApi.Database.RegisterUser` | Backend/main.py:167-175 | 400 for a registered e-mail with nothing changed; else one new user with role `user` whose stored hash the password verifies against; e-mails stay unique when requests do not interleave |
| `BackendApi.Database.CreateCategory` | Backend/main.py:284-291 | 403 for a non-admin, 400 for an existing name, else one new category; names stay unique when requests do not interleave |
| `BackendApi.Database.LikeWallpaper` | Backend/main.py:226-245 | 400 for a malformed id, 404 for an unknown one; else only that wallpaper's likers change (toggled), with the matching message |
| `BackendApi.Database.IncrementDownloadCount` | Backend/main.py:247-262 | 400 for a malformed id, 404 for an unknown one; else only that wallpaper's counter changes, by one from 0 when missing |
| `BackendApi.Database.GetAllWallpapers` | Backend/main.py:189-204 | a server error exactly for a negative skip; else the public records of the newest-first window |
| `BackendApi.Database.GetWallpapersByCategory` | Backend/main.py:206-224 | 404 naming the category when no name matches ignoring case; else the newest-first window of that category's wallpapers, under its stored name |
| `BackendApi.Database.UploadWallpaper` | Backend/main.py:298-352 | 403, then 400, then 404, then 500 with the Drive error, each with nothing stored; else one new wallpaper with no likes, no downloads and the upload time, and the reply naming it |
| `BackendApi.AllWallpapersListing` | Backend/main.py:189-204 | the listing is newest first, drawn from the collection, and no longer than a positive limit |

## Left out

- Network, `fetch`, `async` scheduling and React rendering are not modelled. Each asynchronous function is one method that takes the settled outcome of each request it awaits. Nothing discards a stale response: when two fetches overlap, the last one applied wins.
- The intermediate `loading: true` state the hooks show while a request is pending is not observable. Each method ends in the state after its `finally` block.
- `RequestError` bodies only expose a string `detail`. A non-string `detail` (FastAPI's validation errors are lists) is treated as absent.
- Case folding is ASCII only. This covers `toLowerCase`, MongoDB's `$options: "i"` and Python's `isalnum`. Non-ASCII letters are dropped from the Drive file name rather than kept.
- `BackendApi.CategoryByName`: does not model the category name being used as a regular expression without escaping. A name holding regex metacharacters (`.`, `+`, `(`) is matched as a pattern, or raises a server error, instead of literally. The model matches literally, ignoring case.
- `BackendApi.Database.RegisterUser`: runs as one indivisible step. In the source the e-mail lookup and the insert are separate awaited database calls with no unique index, so two concurrent registrations with the same e-mail can both pass the check and both be inserted; `Valid` (unique e-mails) holds only when requests do not interleave.
- `BackendApi.Database.CreateCategory`: runs as one indivisible step. The name lookup and the insert are separate awaited calls with no unique index, so two concurrent requests with the same name can both create a category; unique names hold only when requests do not interleave.
- `BackendApi.NewestFirst`: MongoDB leaves the order of equal upload dates unspecified; the model keeps stored order for ties.
- bcrypt, SHA-256 and JWT are not computed. SHA-256 is any function yielding 64 lower-case hex digits. A bcrypt hash is the salt plus the secret it commits to.
- `login_for_access_token`, `get_current_user` (JWT decoding and its 401), `read_users_me`, `get_all_wallpapers_admin` and `get_all_categories` are not part of this model. The endpoints take the already-authenticated user.
- Google Drive credentials and the upload itself are not modelled. The upload is a function from the file name to the new file id or an error message. The image bytes and MIME type are not modelled.
- `datetime.now` is one parameter, in whole seconds. It serves both the file-name timestamp and `upload_date`.
- `insert_one` ids are a parameter.
- `EmailStr` validation is not modelled, nor Pydantic's rejection of malformed bodies (422).
- `$inc` on a non-numeric `download_count` is not modelled. Neither is a `likes` field holding `null`.
- DOM effects are not modelled beyond the records in `DownloadUtils.Browser`. The temporary link's attributes and removal, the notification's styling and its timers are left out. A `link.click()` that throws is treated as not happening.
- `encodeURIComponent` of the category name and the query strings of the API calls are not modelled.
- `localStorage.setItem('access_token', undefined)` stores the text `undefined` in a browser. The model's token request always yields a string.
- The mock API's simulated delays are left out. Its operations take the catalogue as a parameter; `MockWallpapers` is the shipped one.
- `SearchPage.Filtered`: the `|| ''` and `|| []` guards against missing fields are not modelled. Display records always carry title, category and tags.
- `adminApi`, `categoriesApi` and the page components other than the search page and the two modals are not part of this model.
