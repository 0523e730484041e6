# shlink-web-client: tag selection, aside menu and application shell

This project models three parts of shlink-web-client's front end:

- **The tags selector** (`src/tags/helpers/TagsSelector.tsx`). It shows the
  selected tags as tokens. It suggests the known tags that are not selected.
  Deleting a token copies the selection and splices one index out. Adding
  text lower-cases it, splits it on commas, appends the pieces and drops
  duplicates through an insertion-ordered `Set`.
- **The aside menu** (`src/common/AsideMenu.js`). It takes the id of the
  selected server, or `''` when there is none. It builds the "list short
  URLs" and "create short URL" links from that id. It decides whether the
  list entry is highlighted from the path's third `/`-separated field and
  the substring `list-short-urls`.
- **The top-level `App` component** (`src/app/App.tsx`). It chooses between
  the single-server and the multi-server route table by the number of
  registered servers. A lone server's `/` redirects to that server. It sets
  the home flag and opens the update banner from `appUpdated`. Its two
  effects are modelled explicitly:
  - servers are fetched once, and only when the servers captured by a
    `useRef` at the first render were none;
  - the theme is applied from the settings, falling back to the system
    preference.

The JavaScript built-ins the code relies on are modelled in three support
modules:

- `JsStrings`: `split` with a one-character separator, `indexOf`,
  an ASCII `toLowerCase`, and indexing that may give `undefined`. It also
  defines `Join`, which the core never calls: it is the inverse that pins
  down what `Split` computes.
- `Options`: `undefined` or a present value, for optional settings, the
  selected server and the placeholder.
- `JsSet`: `[...new Set(xs)]`, as the duplicate-free list of the elements
  in order of first insertion.

Where state changes, the model uses classes:

- `TagsSelector.Selector` is a mounted selector. It records every `onChange`
  call and every `listTags` call.
- `App.Component` is a mounted App. It keeps the dependencies each effect
  last ran with. It counts `fetchServers` calls and records the themes
  written to the markup.

The delete works on an array, as the source's copy-and-splice does.

## Model

| member | source | states |
|---|---|---|
| JsStrings.At | src/common/AsideMenu.js:13 | indexing yields a value exactly when the index is in range, and then the element at that index; otherwise `undefined` |
| JsStrings.Split | src/common/AsideMenu.js:13 | `split` with one separator character never returns an empty list |
| JsStrings.SplitPiecesHaveNoSeparator | src/common/AsideMenu.js:13 | no piece of a split contains the separator |
| JsStrings.JoinSplit | src/tags/helpers/TagsSelector.tsx:57 | joining the pieces of a split with the separator gives back the original string |
| JsStrings.SplitJoin | src/tags/helpers/TagsSelector.tsx:57 | splitting a join of one or more separator-free pieces gives back those pieces, empty ones included |
| JsStrings.SplitWithoutSeparator | src/common/AsideMenu.js:13 | a string without the separator splits into itself alone |
| JsStrings.SplitCons | src/common/AsideMenu.js:13 | a leading separator starts a new empty piece; any other leading character extends the first piece |
| JsStrings.SplitAroundSeparator | src/common/AsideMenu.js:13 | the split of `a + sep + b` is the split of `a` followed by the split of `b` |
| JsStrings.SplitLeadingField | src/common/AsideMenu.js:13 | a separator-free field in front of a separator becomes the first piece |
| JsStrings.Lower | src/tags/helpers/TagsSelector.tsx:57 | lower-casing keeps the length and maps each character on its own (ASCII upper case to lower case, everything else unchanged) |
| JsStrings.LowerIsLower | src/tags/helpers/TagsSelector.tsx:57 | the result is lower case; lower-casing is idempotent; a lower-case string is left as it is |
| JsStrings.LowerKeepsCommas | src/tags/helpers/TagsSelector.tsx:57 | lower-casing neither adds nor removes a comma, so the split positions are those of the typed text |
| JsStrings.SplitOfLowerIsLower | src/tags/helpers/TagsSelector.tsx:57 | every piece of a split of a lower-case string is lower case |
| JsStrings.IndexOfFrom | src/common/AsideMenu.js:14 | the search from a start index returns -1 or an occurrence at or after the start, with no occurrence between the start and the result |
| JsStrings.IndexOf | src/common/AsideMenu.js:14 | `indexOf` is -1 exactly when the substring occurs nowhere; otherwise it is the first index where it occurs |
| JsSet.AddAllProperties | src/tags/helpers/TagsSelector.tsx:57 | adding elements to a set keeps the old contents as a prefix and adds no duplicate; the result holds exactly the old and the added elements |
| JsSet.FromSeq | src/tags/helpers/TagsSelector.tsx:57 | `[...new Set(xs)]` has no duplicates and holds exactly the elements of `xs` |
| JsSet.FirstIndex | src/tags/helpers/TagsSelector.tsx:57 | the index returned holds the element, and no earlier index does |
| JsSet.AddAllConcat | src/tags/helpers/TagsSelector.tsx:57 | spreading `a` then `b` into a set is adding `a`, then `b` |
| JsSet.AddAllPresent | src/tags/helpers/TagsSelector.tsx:57 | adding only elements already present leaves the set unchanged |
| JsSet.FromSeqOfNoDup | src/tags/helpers/TagsSelector.tsx:57 | a duplicate-free list passes through the set unchanged |
| JsSet.FirstIndexUnique | src/tags/helpers/TagsSelector.tsx:57 | an index holding the element with no earlier occurrence is the first index |
| JsSet.FirstIndexInPrefix | src/tags/helpers/TagsSelector.tsx:57 | an element occurring in a prefix has its first occurrence in that prefix |
| JsSet.FromSeqFirstOccurrenceOrder | src/tags/helpers/TagsSelector.tsx:57 | the set lists the elements in the order of their first occurrence in the input |
| TagsSelector.Placeholder | src/tags/helpers/TagsSelector.tsx:22 | a given placeholder is used as is; without one it is `Add tags to the URL` |
| TagsSelector.ToComponentTag | src/tags/helpers/TagsSelector.tsx:19 | a tag becomes a record whose name is the tag and whose id equals its name |
| TagsSelector.ToComponentTags | src/tags/helpers/TagsSelector.tsx:39 | mapping keeps the length and maps each tag to its record at the same position |
| TagsSelector.Names | src/tags/helpers/TagsSelector.tsx:39 | the names of the records are read off one for one, in order |
| TagsSelector.DisplayedTagsRoundTrip | src/tags/helpers/TagsSelector.tsx:19-39 | the names of the displayed tokens are exactly the selected tags, in order, and each token's id is its tag |
| TagsSelector.UnselectedElements | src/tags/helpers/TagsSelector.tsx:41 | the filter keeps exactly the known tags that are not selected, and never more tags than are known |
| TagsSelector.Suggestions | src/tags/helpers/TagsSelector.tsx:19-41 | a tag's record is suggested exactly when the tag is known and not selected; the names of the suggestions are the filtered known tags in known-tags order, and each record's id is its name |
| TagsSelector.UnselectedSnoc | src/tags/helpers/TagsSelector.tsx:41 | one more known tag at the end is appended to the suggestions exactly when it is not selected |
| TagsSelector.UnselectedConcat | src/tags/helpers/TagsSelector.tsx:41 | the filter keeps the known-tags order: filtering a concatenation concatenates the filtered parts |
| TagsSelector.UnselectedSingle | src/tags/helpers/TagsSelector.tsx:41 | a single known tag is kept exactly when it is not selected |
| TagsSelector.NothingSelectedSuggestsAll | src/tags/helpers/TagsSelector.tsx:41 | with nothing selected every known tag is suggested, in order |
| TagsSelector.UnselectedNoDup | src/tags/helpers/TagsSelector.tsx:41 | duplicate-free known tags give duplicate-free suggestions |
| TagsSelector.SpliceStart | src/tags/helpers/TagsSelector.tsx:51 | the start of `splice` is the index itself when in range, the length when past the end, and counts from the end (clamped at 0) when negative |
| TagsSelector.RemoveAtIndex | src/tags/helpers/TagsSelector.tsx:48-52 | deleting a valid index emits the selection without that element: length one less, elements before kept, elements after shifted down one, the same multiset minus one copy, and no duplicate created |
| TagsSelector.RemoveAtOutOfRange | src/tags/helpers/TagsSelector.tsx:51 | an index past the end deletes nothing; a negative index counts from the end; one below the negative length deletes the first tag |
| TagsSelector.SpliceOne | src/tags/helpers/TagsSelector.tsx:51 | splicing one element out of the array in place leaves, in its first `newLength` cells, the list with that element removed |
| TagsSelector.DeletedSelection | src/tags/helpers/TagsSelector.tsx:48-52 | copying the selection into a fresh array and splicing the copy gives the selection with the index removed; the selection passed in is a value and stays as it was |
| TagsSelector.NewTags | src/tags/helpers/TagsSelector.tsx:57 | the typed text always yields at least one piece |
| TagsSelector.NewTagsPieces | src/tags/helpers/TagsSelector.tsx:55-57 | every new piece is lower case and comma-free, and joining the pieces with commas gives the lower-cased text back |
| TagsSelector.AddedSelectionElements | src/tags/helpers/TagsSelector.tsx:55-57 | after an addition there are no duplicates, the tags are exactly the selected ones and the new pieces, and every previously selected tag is still there |
| TagsSelector.AddedSelectionKeepsPrefix | src/tags/helpers/TagsSelector.tsx:57 | a duplicate-free selection is kept unchanged as a prefix, followed exactly by the new pieces not already selected |
| TagsSelector.AddedSelectionOrder | src/tags/helpers/TagsSelector.tsx:57 | the result lists its tags in the order of their first occurrence in the selection followed by the new pieces |
| TagsSelector.AddedSelectionIdempotent | src/tags/helpers/TagsSelector.tsx:57 | adding the same text a second time gives what adding it once gave |
| TagsSelector.NewTagsWithEmptyPiece | src/tags/helpers/TagsSelector.tsx:57 | `A,,b` splits into `a`, an empty piece and `b` |
| TagsSelector.AddedSelectionKeepsEmptyPieces | src/tags/helpers/TagsSelector.tsx:55-57 | empty pieces are not filtered out: `A,,b` added to nothing gives `a`, `""` and `b` |
| TagsSelector.AddedSelectionOfSelectedTag | src/tags/helpers/TagsSelector.tsx:57 | typing a selected tag in capitals adds nothing |
| TagsSelector.AddedSelectionKeepsSelectedCase | src/tags/helpers/TagsSelector.tsx:57 | only the typed text is lower-cased: a selected `B` stays, and a typed `b` is added beside it |
| TagsSelector.Selector.constructor | src/tags/helpers/TagsSelector.tsx:22-26 | mounting takes the props, calls `listTags` once and emits no change |
| TagsSelector.Selector.Tags | src/tags/helpers/TagsSelector.tsx:19-39 | the tokens on display name the selected tags, in order, and each token's id is its name |
| TagsSelector.Selector.SuggestionList | src/tags/helpers/TagsSelector.tsx:19-41 | the suggestions on display are the known tags not selected, in known-tags order, each with its id equal to its name |
| TagsSelector.Selector.Rerender | src/tags/helpers/TagsSelector.tsx:24-26 | new props replace the old ones; `listTags` is not called again and no change is emitted |
| TagsSelector.Selector.OnDelete | src/tags/helpers/TagsSelector.tsx:48-53 | a delete calls `onChange` exactly once, with the selection minus the index, and changes nothing else |
| TagsSelector.Selector.OnAddition | src/tags/helpers/TagsSelector.tsx:54-58 | an addition calls `onChange` exactly once, with the new pieces added, and changes nothing else |
| AsideMenu.ServerId | src/common/AsideMenu.js:10 | the id is the selected server's id, or `''` when no server is selected |
| AsideMenu.IsListShortUrlsActive | src/common/AsideMenu.js:11-15 | the entry is active exactly when field 2 of the path split on `/` exists and equals the server id, and the path contains `list-short-urls`; `match` is not read |
| AsideMenu.ShortPathNeverActive | src/common/AsideMenu.js:13-14 | a path with fewer than three fields is never active, not even for the empty id |
| AsideMenu.LinkFields | src/common/AsideMenu.js:23-32 | a link path splits into `""`, `server`, the id and then the fields of the rest, when the id holds no `/` |
| AsideMenu.ListLinkIsActive | src/common/AsideMenu.js:13-23 | the list link of a server id without `/` is active for that id |
| AsideMenu.ListLinkOfOtherServerIsInactive | src/common/AsideMenu.js:13-23 | the list link of server `a` is not active while a different server `b` is selected, both ids without `/` |
| AsideMenu.CreateLinkMentionsListOnlyThroughId | src/common/AsideMenu.js:32 | the create link contains `list-short-urls` only if the server id does |
| AsideMenu.CreateLinkIsNotListActive | src/common/AsideMenu.js:13-32 | for an id without `list-short-urls` the create link is not list-active |
| AsideMenu.NoServerLinks | src/common/AsideMenu.js:10-32 | with no server selected the links are `/server//list-short-urls/1` and `/server//create-short-url`, and the list link is active for the empty id |
| App.IsHome | src/app/App.tsx:51 | the home flag holds exactly when the path is `/` |
| App.FirstServerIdUrl | src/app/App.tsx:52 | the URL is `/server/` + the first server id + `/`, or `/server//` when there is no server |
| App.Paths | src/app/App.tsx:72-91 | the paths of a table are its routes' paths, one for one |
| App.RouteTablePaths | src/app/App.tsx:73-90 | with one server the table declares `/`, `/server/:serverId/*`, `/settings/*` and `*`; otherwise the index route renders the home view and the table declares the index, `/settings/*`, `/manage-servers`, `/server/create`, `/server/:serverId/edit`, `/server/:serverId/*` and `*`; no path is declared twice |
| App.RedirectIffOneServer | src/app/App.tsx:73-75 | a redirect is declared exactly when one server is registered |
| App.LoneServerRedirect | src/app/App.tsx:52-75 | with the single server `k`, `/` redirects, replacing the history entry, to `/server/` + k + `/`, and no home view is declared |
| App.NoServersNeverRedirect | src/app/App.tsx:52-82 | with no server the first-server URL is `/server//`, but the multi-server table with the home index is declared and nothing redirects |
| App.ThemeSetting | src/app/App.tsx:63-64 | the theme dependency is present exactly when the settings have a UI part with a theme |
| App.AppliedTheme | src/app/App.tsx:63 | the applied theme is the settings' theme when defined and the system-preferred theme otherwise |
| App.AppliedThemeFollowsDependency | src/app/App.tsx:62-64 | settings with the same theme dependency apply the same theme, so re-running the effect only on a dependency change loses nothing |
| App.Render | src/app/App.tsx:66-101 | a render centres the wrapper exactly on `/`, opens the banner exactly when `appUpdated`, passes the servers to the header, and declares a redirect exactly when one server is registered |
| App.SingleServerScenario | src/app/App.tsx:52-76 | with the single server `a`, `/` redirects to `/server/a/`, the server section is declared and the home view is not |
| App.ShouldFetchServers | src/app/App.tsx:57 | servers are fetched exactly when the servers captured at the first render are none |
| App.Component.constructor | src/app/App.tsx:50-64 | mounting captures the initial servers, calls `fetchServers` once if they are none and otherwise not, and applies the theme once |
| App.Component.CurrentView | src/app/App.tsx:99 | the banner of the current render is open exactly when `appUpdated` |
| App.Component.Rerender | src/app/App.tsx:50-64 | a later render calls `fetchServers` again only when its identity changed and the captured initial servers are none, and applies the theme again only when the theme dependency changed |
| App.LastThemeRun | src/app/App.tsx:62-64 | the render at which the theme effect last ran is at or before the given one, has the same theme dependency, is the mount or a render whose dependency changed, and no render after it changed the dependency |
| App.Session | src/app/App.tsx:50-64 | over a whole session with a stable `fetchServers`, the servers are fetched exactly once if there were none at the first render and never otherwise, whatever the servers become later; the theme last applied is the one applied at the last render whose theme dependency changed, under that render's system preference, and is the one the current settings call for when the preference stays the same |
| App.SystemPreferenceChangeIsNotApplied | src/app/App.tsx:62-64 | with no theme set, a change of the system preference from `light` to `dark` alone leaves the markup at `light`, although `dark` is what the fallback would now give |

## Left out

- `src/common/MainHeader.tsx` is not part of this model. Its substance is a user-info request, a browser redirect and navbar collapse state. `App` passes it the servers, and `App.Render` records that.
- `src/app/services/provideServices.ts` is not part of this model. It registers services and components with a dependency-injection library and connects them to the store; it holds no logic of the program's own.
- `test/short-urls/ShortUrlsTable.test.tsx` is not part of this model. It exercises the short URLs table in `src/short-urls/`, a different component from the three modelled here.
- `ColorGenerator`, `Tag` and `TagBullet` are not part of this model. They only colour and draw the tokens and suggestions; no selection logic passes through them.
- react-tag-autocomplete's internals are left out: delimiters, `addOnBlur`, `minQueryLength`, `allowNew`, and how typed text becomes an `onAddition` call. `onAddition` and `onDelete` are treated as callbacks the widget invokes with a name or an index.
- react-router's route ranking and matching are left out. The model says which table is declared and what each route renders, not which route a URL selects.
- `Object.keys` puts integer-like keys first. The model takes the servers map as its keys in insertion order.
- `JsStrings.Lower`: only the ASCII letters A–Z are lower-cased. Unicode case mapping is left out, because it needs Unicode's tables.
- `JsStrings.Split`: only the one-character separators the core uses (`/` and `,`) are modelled. `split`'s limit argument and multi-character separators are left out.
- `changeThemeInMarkup`, `getSystemPreferredTheme`, `forceUpdate` and `resetAppUpdate` touch the DOM or the service worker. The system-preferred theme is an input, given afresh at every render; `getSystemPreferredTheme` is read only when the theme effect runs, so a change of preference alone is not applied (`App.SystemPreferenceChangeIsNotApplied`). Applying a theme is recorded in `App.Component.appliedThemes`.
- The settings are reduced to `settings.ui?.theme`, with the theme as a string. `App` reads nothing else of them.
- Callbacks (`fetchServers`, `onChange`, `listTags`) are represented by their identity or by a log of their calls. What they do is outside the core.
- Rendering is modelled as a `View` value. The footer, the class names other than the home flag, and the banner's toggle are left out.
- `App.Session`: requires `fetchServers` to keep its identity across renders, as a connected action does. `App.Component.Rerender` states the general case, where a new identity re-runs the fetch effect.
