# Object-browser frontend: lookup decoding and token dashboard

This project models the two pieces of logic of the object-browser web client
that do more than render. It proves properties of both.

- **Lookup client** (`lookup.dfy`, module `Lookup`). The lookup service answers with
  positional tuples, and the client reshapes them:
  - a commit tuple becomes a `Commit` whose timestamps are in milliseconds;
  - a nested tree array `[[mode, name, hash | subarray], ...]` is decoded
    recursively into leaves and subtrees;
  - the map listing is reduced to its distinct names.
- **Account dashboard** (`dashboard.dfy`, module `Dashboard`). This covers:
  - the browser and OS icon classifiers;
  - the IP and key truncations;
  - the expiry sort of fetched token lists;
  - the optimistic revoke with rollback;
  - the captcha guard on API-key creation;
  - the marking of the current session.

  `TokenLabel`, the only place that shortens a request IP, is defined in this file
  but not rendered by it: the session table prints `token.request_ip` in full.
  `Dashboard.IpDisplay` and `Dashboard.IpLabel` model that unused component.

  The data cache of one token list is the class `TokenPanel`:
  - `mutate(list)` assigns its `cache`, and unless passed `false` it also requests a
    revalidation;
  - `mutate()` is an opaque revalidation request;
  - every revalidation request is counted in `revalidations`;
  - the settled result of `revokeToken` or `createToken` is a parameter.

  The revoke flow is an explicit state machine: `Idle`, then `Optimistic(snapshot, id)`,
  then `Reconciling` or `RolledBack`. `BeginRevoke` and `SettleRevoke` are its two
  halves, and `Revoke` runs both.
- `wrappers.dfy` (module `Wrappers`) holds `Option`, which stands for JavaScript's
  `undefined`/`null`.

The model follows the code where it departs from what the code's own comments
suggest ("shall never happen" on the mismatch assertion, "an unexplored tree" on the
leaf branch):

- A tree entry whose mode and payload do not match is not a fault. `console.assert`
  only logs, and the entry is silently dropped.
- That assertion sits outside the `if`/`else`, so it logs for every entry, valid or
  not. Logging does not change the result, so it is not modelled.
- A nested tree does not get a hash of its own. The recursive call receives the
  enclosing call's `hash` argument, so every tree node carries the root key. This is
  proved as part of `Lookup.DecodedEntriesWellFormed`.

## Model

| member | source | states |
|---|---|---|
| `Lookup.SecondsToMillis` | frontend/src/api/lookup.ts:51 | the result is a whole number of milliseconds, and dividing it by 1000 gives the parsed seconds |
| `Lookup.ParseDecimalString` | frontend/src/api/lookup.ts:51-53 | `parseInt` of the decimal notation of a number gives that number back |
| `Lookup.DecimalStringOfParse` | frontend/src/api/lookup.ts:51-53 | a digit string without a leading zero is the notation of the number it parses to |
| `Lookup.GetCommit` | frontend/src/api/lookup.ts:36-55 | the hash is the requested key; tree, parent, author, committer and message are copied from the tuple; both dates are the parsed seconds times 1000 |
| `Lookup.CommitRoundTrip` | frontend/src/api/lookup.ts:36-55 | decoding the tuple the service sends for a commit with whole-second dates gives that commit back, whatever the timezones |
| `Lookup.TupleRoundTrip` | frontend/src/api/lookup.ts:40-53 | for timestamps without a leading zero, the timezones are the only thing lost: re-encoding the decoded commit with them restores the tuple (leading zeros such as `"0042"` are lost too) |
| `Lookup.DecodeTreeEntry` | frontend/src/api/lookup.ts:65-95 | the loop returns the directory named `name` with hash `hash`, whose entries are the filter-map specification of the raw list |
| `Lookup.DecodedEntriesWellFormed` | frontend/src/api/lookup.ts:84-86 | every decoded node is well formed: leaves have a non-directory mode, and trees have mode `40000`, a defined entry list and the root key as hash |
| `Lookup.GetTree` | frontend/src/api/lookup.ts:97-107 | the root has mode `40000`, name `''`, the requested key as hash and a defined entry list, and the whole tree is well formed |
| `Lookup.DecodedEntriesAppend` | frontend/src/api/lookup.ts:76-93 | decoding distributes over concatenation, so the entries keep their raw order |
| `Lookup.WellShapedOnly` | frontend/src/api/lookup.ts:77-87 | an entry is kept exactly when it is a raw entry of one of the two accepted shapes; each kept entry keeps its multiplicity in the raw list, and there are no more kept entries than raw entries |
| `Lookup.WellShapedOnlyAppend` | frontend/src/api/lookup.ts:76-87 | the filter distributes over concatenation, so the kept entries stay in raw order |
| `Lookup.DecodedIsFilterMap` | frontend/src/api/lookup.ts:76-93 | the i-th decoded node is the conversion of the i-th well-shaped raw entry, and there are no other nodes |
| `Lookup.NothingDroppedIffWellShaped` | frontend/src/api/lookup.ts:88-92 | at most as many nodes as raw entries; exactly as many if and only if every raw entry has one of the two accepted shapes |
| `Lookup.DecodeEncode` | frontend/src/api/lookup.ts:64-95 | decoding the raw encoding of well-formed nodes gives the same nodes back |
| `Lookup.DecodeIdempotent` | frontend/src/api/lookup.ts:65-95 | re-encoding and re-decoding a decoded list gives the same modes, names, hashes and nesting |
| `Lookup.DistinctInOrder` | frontend/src/api/lookup.ts:130 | `Array.from(new Set(s))`: the same elements as `s`, with no repetition, in order of first occurrence |
| `Lookup.GetMapNames` | frontend/src/api/lookup.ts:128-131 | every name of the listing appears exactly once, nothing else appears, and the names are in the order of their first occurrence in the listing |
| `Lookup.UnexploredTreeIsDropped` | frontend/src/api/lookup.ts:77-83 | a directory entry that carries a hash string decodes to nothing, although the leaf branch is commented as handling unexplored trees |
| `Lookup.IntendedKeepsUnexploredTrees` | frontend/src/api/lookup.ts:76-87 | under the intended guard, the list is as long as the raw list exactly when every entry is a hash string or a directory's array, and an unexplored directory becomes a leaf |
| `Dashboard.IndexOf` | frontend/src/pages/dashboard/index.tsx:54 | `indexOf(sub) > -1` holds exactly when `sub` occurs in the string, and the index is an occurrence |
| `Dashboard.FirstMarker` | frontend/src/pages/dashboard/index.tsx:52-73 | the first marker in table order that occurs in the name, or -1 when none occurs |
| `Dashboard.BrowserIconName` | frontend/src/pages/dashboard/index.tsx:52-63 | an empty name gives the question icon; the result is the question icon or one of the browser icons |
| `Dashboard.BrowserIconFollowsMarkers` | frontend/src/pages/dashboard/index.tsx:52-63 | for a non-empty name, the icon is the one of the first marker in the order Chrome, Firefox, Safari, Edge, IE, Opera, Arc, WeChat; it is the question icon exactly when the name is empty or no marker matches |
| `Dashboard.OsIconName` | frontend/src/pages/dashboard/index.tsx:64-73 | an empty name gives the question icon; the result is the question icon, the Linux icon or one of the OS icons |
| `Dashboard.OsIconFollowsMarkers` | frontend/src/pages/dashboard/index.tsx:64-73 | for a non-empty name, the icon is the one of the first marker in the order Windows, Android, mac, Harmony, Chrome, iOS; it is the Linux icon exactly when the name is non-empty and no marker matches |
| `Dashboard.IpDisplay` | frontend/src/pages/dashboard/index.tsx:100-102 | at most 20 characters; an IP shorter than 20 is shown unchanged, a longer one as its first 17 characters and `...` |
| `Dashboard.IpDisplayIdempotent` | frontend/src/pages/dashboard/index.tsx:100-102 | shortening an already shortened IP changes nothing |
| `Dashboard.IpLabel` | frontend/src/pages/dashboard/index.tsx:97-104 | the IP line is absent exactly when the request IP is missing or empty; otherwise it shows the shortened IP |
| `Dashboard.KeyDisplay` | frontend/src/pages/dashboard/index.tsx:382 | the first ten characters of the key (the whole key if shorter) followed by `...` |
| `Dashboard.KeyDisplayAlikeIff` | frontend/src/pages/dashboard/index.tsx:382 | two keys are shown alike exactly when their first ten characters agree |
| `Dashboard.SortByExpiry` | frontend/src/pages/dashboard/index.tsx:161 | the array ends sorted ascending by `expires` and is a permutation of what it held |
| `Dashboard.FetchSorted` | frontend/src/pages/dashboard/index.tsx:159-162 | the cached list is sorted ascending by `expires` and is a permutation of the fetched list (the same holds for lines 303-306) |
| `Dashboard.Without` | frontend/src/pages/dashboard/index.tsx:177 | a token is kept exactly when it was in the list and its id differs from the revoked id |
| `Dashboard.WithoutAppend` | frontend/src/pages/dashboard/index.tsx:176-179 | the filter distributes over concatenation, so the tokens kept stay in their original order |
| `Dashboard.WithoutMultiplicity` | frontend/src/pages/dashboard/index.tsx:317-320 | tokens with the revoked id are all removed, and every other token keeps its multiplicity |
| `Dashboard.WithoutAbsent` | frontend/src/pages/dashboard/index.tsx:177 | revoking an id that is not in the list leaves the list unchanged |
| `Dashboard.WithoutSorted` | frontend/src/pages/dashboard/index.tsx:176-179 | the optimistic list of a list sorted by expiry is still sorted |
| `Dashboard.SessionActions` | frontend/src/pages/dashboard/index.tsx:207-224 | a row is "Current" exactly when the cookie token equals the session id; every other row gets a terminate popover for its own id |
| `Dashboard.TerminateKeepsCurrent` | frontend/src/pages/dashboard/index.tsx:220-224 | terminating from any popover never removes the current session from the list |
| `Dashboard.CreateOutcomeOf` | frontend/src/pages/dashboard/index.tsx:329-341 | true exactly when a captcha token is present and `createToken` succeeds; an empty captcha token gives false |
| `Dashboard.PopoverOpenAfter` | frontend/src/pages/dashboard/index.tsx:283-285 | the create popover is closed afterwards exactly when it was closed already or the creation returned true |
| `Dashboard.PopoverClosesOnlyOnCreation` | frontend/src/pages/dashboard/index.tsx:284 | an open create popover closes exactly when a captcha token was given and the key was created |
| `Dashboard.TokenPanel.constructor` | frontend/src/pages/dashboard/index.tsx:151-168 | the first fetch caches the server list sorted by expiry, with no toast, call or revalidation yet |
| `Dashboard.TokenPanel.Refreshed` | frontend/src/pages/dashboard/index.tsx:182 | a revalidation's fresh list replaces the cache, sorted, and the panel is idle again |
| `Dashboard.TokenPanel.BeginRevoke` | frontend/src/pages/dashboard/index.tsx:172-180 | snapshot the cache, write the list without the revoked id, and send one revoke call, with no revalidation |
| `Dashboard.TokenPanel.SettleRevoke` | frontend/src/pages/dashboard/index.tsx:180-186 | on success, one revalidation and the cache is unchanged; on failure, the snapshot is restored, exactly one error toast is added and `mutate(oldTokens)` requests one revalidation |
| `Dashboard.TokenPanel.Revoke` | frontend/src/pages/dashboard/index.tsx:313-328 | the whole revoke: filtered list and one revalidation on success; the previous list, one error toast and one revalidation (from `mutate(oldTokens)`) on failure; the cache stays sorted |
| `Dashboard.TokenPanel.CreateApiToken` | frontend/src/pages/dashboard/index.tsx:329-341 | an empty captcha token adds the captcha toast and returns false, with no call; otherwise one create call, plus one revalidation and true on success; a rejection escapes with no toast |

## Left out

- The HTTP layer (`request`) is not modelled. Every lookup takes the decoded JSON
  response as a parameter, so the `traverse` flag of `getTree` has no counterpart:
  it only changes what the server sends.
- `getBlob`, `getObjectCount`, `getValue`, `getValues` and `getMapCount` only build a
  URL and return the response, so they are not modelled.
- Lookup.GetCommit: models `parseInt` only on non-empty strings of decimal digits,
  because the service sends timestamps in that form. Signs, leading whitespace,
  trailing garbage and `NaN` (an invalid `Date`) are not modelled.
- Lookup.GetCommit: a `Date` is represented by its value in milliseconds since the
  epoch.
- Lookup.GetCommit: the timestamps are exact unbounded integers. In the source,
  `parseInt(ts) * 1000` is an IEEE double, so digit strings above 2^53 parse
  inexactly, and `new Date(x)` is an invalid `Date` when |x| exceeds 8.64e15 ms.
  `Lookup.GetCommit` and `Lookup.CommitRoundTrip` therefore describe the source
  only for timestamps of at most 8640000000000 seconds.
- The `UAParser` library is not modelled. The classifiers take the browser and OS
  names it yields. A missing name (`undefined`) is treated like the empty string,
  which the source also maps to the question icon.
- The version and major-number text next to the icons, and the date formatting
  with `date-fns`, are presentation only and are not modelled.
- Dashboard.SortByExpiry: does not state stability. `Array.prototype.sort` is
  stable; the model proves sortedness and permutation only.
- Dashboard.TokenPanel.Refreshed: it requires that no revoke is pending. A refetch that lands
  while a revoke is in flight is not modelled, in line with the one-revoke-at-a-time scope below.
- Dashboard.TokenPanel.Refreshed: `mutate()` is an opaque revalidation. The model
  counts the request; the later arrival of fresh data is this separate method,
  whose list is a parameter.
- `revokeSession` does not await `mutate`, while `revokeAPIToken` does. With one
  revoke at a time the two behave the same, so one `TokenPanel.Revoke` models both.
- Concurrent revokes on the same cache interleave asynchronously, and the last
  writer wins. The model runs one revoke at a time: `BeginRevoke` requires that no
  revoke is pending.
- `parseError` is not modelled. The error toast carries the rejection's error text.
  Toast, popover, Turnstile and clipboard internals are not modelled.
- SWR suspense, loading and error states, and `keepPreviousData`, are not modelled.
- `UserInfoArea` is not part of this model: user update, logout, redirect and the
  user context.
- `console.assert` logging is not modelled, because it does not change the decoded
  tree.
- JavaScript string lengths count UTF-16 code units. Here a string is a sequence of
  `char`, taken as one code unit each.

## Findings

| source | as written | input that shows it | evidently intended | confidence | as-written member | corrected member |
|---|---|---|---|---|---|---|
| frontend/src/api/lookup.ts:77-83 | the leaf guard `mode != '40000' && typeof hashOrTree === 'string'` rejects a directory that carries a hash string, and no other branch takes it, so it is dropped | `getTree(k, false)` answered with `[["40000", "src", "abc"]]` decodes to a root with no entries | the branch commented "a file, a submodule, or an unexplored tree" keeps it as a leaf `{mode: '40000', hash: 'abc', name: 'src'}`, so untraversed directories stay visible | medium (depends on the service sending unexplored directories with mode `40000`); not executed | Lookup.UnexploredTreeIsDropped | Lookup.IntendedKeepsUnexploredTrees |

`Lookup.GetTree` keeps the code as written, and so does the rest of the tree model.
The corrected decoder is `Lookup.IntendedEntries`.
