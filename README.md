# MLB trade-deadline visualizer, modelled in Dafny

The visualizer fetches the trades of a date window from the MLB Stats API and
shows them two ways. The grid view has one card per club, with the players
traded to and from it. The timeline view is a map of the ballparks that
replays the trades in date order: one movement per trade, shown one at a
time, with the moving player's headshot flying between the two clubs.
Its debug mode lets the user drag clubs to calibrate their positions and
export the coordinates those positions imply.

This project models the logic behind both views.

- `mlb_api.dfy` (module `MlbApi`) covers the service class:
  - the endpoint and image URL builders;
  - the trade filter and record builder of `parseTransactions`, as a method with a loop proved against the function `Parsed`;
  - the headshot cache, filled by `PreloadPlayerHeadshots`, with the outcome of each network probe given as a parameter;
  - attaching cached headshots to transactions.
- `movements.dfy` (`Movements`) covers the movements of the timeline:
  - the movement built from a transaction, with its clubs resolved by name;
  - the per-club views (`hasActiveMovements`, `teamPlayers`);
  - the animated flight of the latest movement.
- `playback.dfy` (`Playback`) is the playback controls as a state machine over `isPlaying`, `currentTimeIndex`, `playerMovements` and `activeMovements`. It includes the effect that re-derives the shown movements, which React runs when the index or the movement list changed. The handlers never replace the list, so after a handler it runs only when the index moved.
- `timeline_view.dfy` (`Timeline`) is the timeline component as a class. Its fields are the component's state; its methods are the handlers, the interval tick and the drag listeners. Each method is specified by `Playback` or by the drag functions.
- `geo.dfy` (`Geo`) is the map projection and its inverse.
- `positions.dfy` (`Positions`) covers club positions and the calibration export:
  - the 30-park table;
  - position resolution;
  - the export.
- `app.dfy` (`Visualizer`) is the page: the selection toggle, the trade filter and the newest-first order.
- `team_circle.dfy` (`TeamCircle`) is the club card's filters and image fallbacks.
- Support modules:
  - `stable_sort.dfy` is `Array.prototype.sort`: an in-place insertion sort that is proved stable.
  - `seqs.dfy` has `find`/`some`/`filter` on sequences, and the ascending order of integer keys.
  - `js_text.dfy` has JavaScript truthiness of optional strings, `a || b`, and decimal rendering.
  - `wrappers.dfy` has `Option`.

Modelling choices:
- Dates are integer timestamps (already parsed).
- Coordinates are `real`, so the projection's inverse is exact.
- Raw ids from the feed are natural numbers, rendered in decimal.
- `undefined`/`null` are `None`.
- Strings are sequences of Unicode scalar values, not of UTF-16 code units.
- The network, timers, the DOM and `console`/`alert` are parameters or are left out.

### Behaviour worth knowing
- A new movement list keeps `currentTimeIndex`; playback does not restart. When the index is out of range for the new list, the movements shown before stay on screen and no longer match the list (`Playback.LoadCanBreakConsistency`). Every other transition keeps the shown movements either empty or equal to the prefix up to the index (`Playback.ControlsKeepConsistent`).
- Reset empties the shown movements, but the re-deriving effect then runs because the index moved, so after a reset from a later index the first movement is shown (`Playback.ResetQuirk`).
- Two clicks on the same club restore the selection only when nothing or that club was selected. When another club was selected, the second click clears the selection (`Visualizer.ToggleTwice`).
- `handleDrag` and `handleDragEnd` are defined but no element of the view attaches them; dragging works through the window listeners `handleDragStart` adds. Both handlers are modelled as written.

## Model

| member | source | states |
|---|---|---|
| `MlbApi.TransactionsUrl` | src/services/mlbApi.ts:25-27 | the URL is the base, `/transactions?startDate=`, the start date, `&endDate=` and the end date, each at its position |
| `MlbApi.Spot` | src/services/mlbApi.ts:29-31 | `spot` builds the same address as `getPlayerHeadshot` |
| `MlbApi.PlayerHeadshot` | src/services/mlbApi.ts:33-35 | the URL is the midfield prefix, the person id and `/spots/120`, with the id recoverable between them |
| `MlbApi.PlayerHeadshotInjective` | src/services/mlbApi.ts:33-35 | different player ids give different headshot URLs |
| `JsText.Decimal` | src/services/mlbApi.ts:135 | `toString` of an id is a non-empty string of digits, without a leading zero, whose decimal value is the id |
| `JsText.DecimalInjective` | src/services/mlbApi.ts:135 | different ids render differently |
| `MlbApi.TradeIdInjective` | src/services/mlbApi.ts:130 | the id `"<transaction>-<person>"` determines both numbers, so different pairs never collide |
| `MlbApi.ToTransaction` | src/services/mlbApi.ts:129-137 | the record has the composed id, the feed's date, each club's name as the feed gives it (absent when the feed's club has none), the person id in decimal (always truthy), the full name and a non-empty description defaulting to `"<fullName> traded"`; no headshot yet |
| `MlbApi.Parsed` | src/services/mlbApi.ts:112-145 | the parsed list is never longer than the feed |
| `MlbApi.ParsedIsFilteredTrades` | src/services/mlbApi.ts:116-141 | the output is exactly the feed's trades (`typeCode` `TR`, both clubs and a person present, distinct club ids, one of them among the 30 MLB ids) in feed order, each converted |
| `MlbApi.ParsedMembers` | src/services/mlbApi.ts:117-141 | every trade in the feed is in the output, and every output record comes from a trade in the feed |
| `MlbApi.ParsedNoTrades` | src/services/mlbApi.ts:121-127 | a feed without an accepted trade parses to the empty list |
| `MlbApi.MLBApi.ParseTransactions` | src/services/mlbApi.ts:112-145 | the loop returns `Parsed` of the feed's array, and the empty list when `transactions` is missing |
| `MlbApi.PlayerIds` | src/services/mlbApi.ts:39-42 | the ids are exactly the truthy player ids of the transactions, none empty |
| `MlbApi.Dedup` | src/services/mlbApi.ts:39-42 | `[...new Set(ids)]` has no duplicates, the same members, is a subsequence, and lists the ids in order of their first occurrence |
| `MlbApi.UniquePlayerIds` | src/services/mlbApi.ts:39-42 | the probed ids have no duplicates and are exactly the truthy player ids |
| `MlbApi.WithProbes` | src/services/mlbApi.ts:47-59 | after the probes the cache keys are the old keys plus every probed id |
| `MlbApi.WithProbesValues` | src/services/mlbApi.ts:47-59 | a probed id holds its own probe's outcome (the URL, or `""` on failure); every other entry is kept |
| `MlbApi.AttachHeadshots` | src/services/mlbApi.ts:65-68 | the length and every field except `headshotUrl` are kept; `headshotUrl` is set exactly when the player id is truthy, to the cached value or `""` |
| `MlbApi.PreloadAttachesProbes` | src/services/mlbApi.ts:38-71 | after preloading, each transaction with a player id carries that player's probe outcome |
| `MlbApi.MLBApi.PreloadPlayerHeadshots` | src/services/mlbApi.ts:38-72 | the loop leaves the cache as `WithProbes` over the unique ids and returns the transactions with headshots attached from it |
| `MlbApi.MLBApi.constructor` | src/services/mlbApi.ts:23 | the cache starts empty |
| `MlbApi.MLBApi.GetCachedHeadshot` | src/services/mlbApi.ts:75-77 | returns the cached value exactly when the id is a key |
| `StableSort.SortBy` | src/components/TimelineView.tsx:118 | `Array.prototype.sort` with a numeric comparator: a permutation of the input, in ascending key order, with ties in input order |
| `Movements.TeamNamed` | src/components/TimelineView.tsx:103-104 | the club is the first roster entry whose name equals the transaction's club name, or `None` when no name matches |
| `Movements.ToMovement` | src/components/TimelineView.tsx:106-114 | the movement keeps id, date and description; the player name is the transaction's or `Unknown Player` (never empty); the player id is the transaction's or `""`; the clubs are resolved by name |
| `Movements.ToMovements` | src/components/TimelineView.tsx:102-115 | one movement per transaction, in order, each the movement built for that transaction |
| `Movements.SortedByDate` | src/components/TimelineView.tsx:117-118 | the sorted movements are in ascending date order and are all movements of the input |
| `Timeline.TimelineView.ProcessTransactions` | src/components/TimelineView.tsx:99-120 | an empty transaction list changes nothing; otherwise the stored list is the stable date sort of the movements, the index is kept, and the shown movements are re-derived |
| `Playback.Sync` | src/components/TimelineView.tsx:149-153 | with the index in range the shown movements are the prefix ending at the index; otherwise they are unchanged |
| `Playback.Tick` | src/components/TimelineView.tsx:126-132 | at or past the last index the tick stops playback and keeps the index; otherwise it advances by one; it never moves an in-range index past the last |
| `Playback.PlayPause` | src/components/TimelineView.tsx:155-164 | pausing only clears `isPlaying`; playing sets it and restarts at 0 exactly when the index is at or past the last |
| `Playback.Reset` | src/components/TimelineView.tsx:166-170 | stops, sets the index to 0 and empties the shown movements |
| `Playback.Skip` | src/components/TimelineView.tsx:172-175 | stops and sets the index to the last position, -1 for an empty list |
| `Playback.Load` | src/components/TimelineView.tsx:99-120 | an empty list leaves the state unchanged; a non-empty one replaces the list, keeps the index and the playing flag, and shows the new list's prefix up to the index when the index is in range, else keeps the old shown movements |
| `Playback.ControlsKeepConsistent` | src/components/TimelineView.tsx:123-175 | ticks, play/pause, reset, skip and the effect all keep the shown movements empty or equal to the prefix up to the index |
| `Playback.LoadCanBreakConsistency` | src/components/TimelineView.tsx:99-120 | a new, shorter list can leave the old list's movements on screen |
| `Playback.PlayThrough` | src/components/TimelineView.tsx:126-153 | `k` ticks within the list advance the index by `k` and show the movements up to it |
| `Playback.StopsAtEnd` | src/components/TimelineView.tsx:127-130 | the tick on the last movement stops playback with everything still shown |
| `Playback.ReplayFromEnd` | src/components/TimelineView.tsx:155-164 | play at the end restarts from the first movement; after `len - 1` ticks all are shown, and the next tick stops |
| `Playback.PlayTwo` | src/components/TimelineView.tsx:99-164 | two movements from a fresh start: loading shows the first, play keeps it, one tick shows both, the next tick stops |
| `Playback.ResetQuirk` | src/components/TimelineView.tsx:166-170 | reset leaves nothing shown when the index was 0, and the first movement otherwise |
| `Playback.SkipShowsAll` | src/components/TimelineView.tsx:172-175 | skip shows every movement when the index moved, and sets the index to -1 on an empty list |
| `Playback.PlayFromMinusOne` | src/components/TimelineView.tsx:99-175 | skip on the empty initial list leaves index -1, a new list keeps it, play keeps it and starts the interval, and the first tick shows the first movement |
| `Playback.PlayOnEmpty` | src/components/TimelineView.tsx:124-164 | play on an empty list sets `isPlaying`, but the tick condition is false, so nothing advances |
| `Timeline.TimelineView.constructor` | src/components/TimelineView.tsx:62-95 | the initial state: paused at index 0, no movements, debug off, no overrides, no listeners |
| `Timeline.TimelineView.SyncActive` | src/components/TimelineView.tsx:149-153 | the effect changes the state as `Playback.Sync` does and touches nothing else |
| `Timeline.TimelineView.Tick` | src/components/TimelineView.tsx:124-132 | the interval callback, which only runs while playing with a non-empty list, and its effect, as `Playback.Advance` |
| `Timeline.TimelineView.HandlePlayPause` | src/components/TimelineView.tsx:155-164 | as `Playback.PlayPause` followed by the effect when the index changed |
| `Timeline.TimelineView.HandleReset` | src/components/TimelineView.tsx:166-170 | as `Playback.Reset` followed by the effect when the index changed |
| `Timeline.TimelineView.HandleSkip` | src/components/TimelineView.tsx:172-175 | as `Playback.Skip` followed by the effect when the index changed |
| `Timeline.TimelineView.ToggleDebug` | src/components/TimelineView.tsx:605 | flips debug mode and nothing else |
| `Timeline.TimelineView.HandleMapClick` | src/components/TimelineView.tsx:216-229 | in debug mode the hovered coordinates become the inverse projection of the clicked point; otherwise nothing changes |
| `Timeline.TimelineView.HandleDragStart` | src/components/TimelineView.tsx:231-268 | in debug mode it starts dragging the club and attaches one more listener pair for it, held by the ref; otherwise nothing changes |
| `Timeline.MovedTo` | src/components/TimelineView.tsx:240-253 | every attached move listener stores the pointer position under its club; other overrides are kept |
| `Timeline.TimelineView.WindowMouseMove` | src/components/TimelineView.tsx:240-253 | the overrides become `MovedTo` the pointer for every attached listener; nothing changes when the map element is missing |
| `Timeline.TimelineView.WindowMouseUp` | src/components/TimelineView.tsx:255-262 | ends the drag and detaches only the pair the ref holds; older pairs stay attached |
| `Timeline.TimelineView.HandleDrag` | src/components/TimelineView.tsx:270-281 | in debug mode with a dragged club whose id is not 0, sets that club's override only; otherwise nothing changes |
| `Timeline.TimelineView.HandleDragEnd` | src/components/TimelineView.tsx:283-287 | in debug mode clears the dragged club and the dragging flag |
| `Timeline.TimelineView.ResetCustomPositions` | src/components/TimelineView.tsx:290-292 | empties the overrides and changes nothing else |
| `Timeline.MoveRepositions` | src/components/TimelineView.tsx:249-252 | a moved club is drawn exactly at the pointer; a club without a listener keeps its position |
| `Timeline.DragOneClub` | src/components/TimelineView.tsx:231-314 | press, move and release in debug mode: the club is drawn at the release point, the export lists only that club with that point, and the window listener list ends empty |
| `Timeline.PlayTwoTrades` | src/components/TimelineView.tsx:99-175 | two trades loaded out of date order are replayed earlier first, both are shown after one tick, and the next tick stops |
| `Geo.ScreenPosition` | src/components/TimelineView.tsx:178-187 | the point's distance from the offset is proportional to the coordinate's distance from the western and northern edges, scaled by the box size over the bounds' spans |
| `Geo.Unproject` | src/components/TimelineView.tsx:219-226 | the coordinates satisfy the same proportion as `ScreenPosition` for the given point, solved the other way |
| `Positions.TeamPosition` | src/components/TimelineView.tsx:190-213 | the override when the club has one; else the projection of the first ballpark row with the club's name; else (400, 300) |
| `Playback.Settle` | src/components/TimelineView.tsx:149-153 | after a handler, the shown movements are re-derived exactly when the index changed and is in range; everything else is the handler's result |
| `Playback.Advance` | src/components/TimelineView.tsx:124-153 | from any index from -1 up to before the last (-1 is where skip leaves an empty list), a tick advances the index and shows the prefix up to it; at or past the last it only stops playback; below -1 it only advances the index |
| `Geo.UnprojectScreenPosition` | src/components/TimelineView.tsx:178-187 | the inverse formula returns exactly the latitude and longitude that were projected |
| `Geo.ScreenPositionUnproject` | src/components/TimelineView.tsx:219-226 | projecting the coordinates the inverse gives returns the clicked point |
| `Geo.NorthUpEastRight` | src/components/TimelineView.tsx:183-184 | with growing bounds and a positive box, a higher latitude is drawn higher and a larger longitude further right |
| `Geo.CornersOnBox` | src/components/TimelineView.tsx:178-187 | the north-west corner of the bounds lands on the offset, the south-east corner a box size away |
| `Geo.DefaultConfigInvertible` | src/components/TimelineView.tsx:76-89 | the initial bounds and size allow both formulas |
| `Positions.FindStadium` | src/components/TimelineView.tsx:200 | the ballpark row is one whose club name equals the given name, and `None` exactly when no row matches |
| `Positions.TeamPositionSources` | src/components/TimelineView.tsx:190-213 | an override wins; else a club with a ballpark sits at its projection; else at (400, 300) |
| `Positions.OverrideFrame` | src/components/TimelineView.tsx:277-280 | setting one club's override moves that club exactly there and no other club |
| `Positions.ResetRestoresGeography` | src/components/TimelineView.tsx:290-292 | with the overrides cleared a club is where it would be without its own override |
| `Positions.TeamNameOf` | src/components/TimelineView.tsx:299 | the exported name is the first club with the id's name, or `Unknown` when no club has the id or that club's name is empty |
| `Positions.ExportCustomPositions` | src/components/TimelineView.tsx:295-314 | one entry per override in ascending id order, each with its override as screen position and the inverse projection of it as coordinates |
| `Positions.ExportListsEveryOverride` | src/components/TimelineView.tsx:296 | every overridden club appears in the export |
| `Positions.ExportRoundTrip` | src/components/TimelineView.tsx:303-306 | projecting an exported coordinate puts the club exactly where it was dragged |
| `Movements.HasActiveMovements` | src/components/TimelineView.tsx:705-707 | a club is active exactly when some shown movement comes from or goes to it |
| `Movements.TeamPlayers` | src/components/TimelineView.tsx:710-712 | the listed players are the shown movements into the club, in order, each as often as it is shown |
| `Movements.PlayersImplyActive` | src/components/TimelineView.tsx:705-712 | a club listing a player is active, and an inactive club lists nobody |
| `Movements.PlayersGrowByAppending` | src/components/TimelineView.tsx:710-712 | showing more movements only appends to a club's list |
| `Movements.FlightOf` | src/components/TimelineView.tsx:870-916 | a flight exists exactly when the last shown movement has both clubs; it runs between their positions with the player's headshot URL |
| `Visualizer.Toggled` | src/App.tsx:50-52 | clicking the selected club clears the selection; clicking any other club selects it |
| `Visualizer.ToggleTwice` | src/App.tsx:50-52 | two clicks on a club restore the selection exactly when nothing or that club was selected |
| `Visualizer.SelectedName` | src/App.tsx:56 | the name of the first club with the id, `None` when no club has it |
| `Visualizer.FilteredTransactions` | src/App.tsx:54-62 | without a truthy selection the list is unchanged; with one it is the order-preserving subsequence of the trades touching the selected club's name, each kept as often as it occurs |
| `Visualizer.UnknownSelection` | src/App.tsx:56-59 | selecting an id no club has keeps only trades missing a club, so none when every trade names both clubs |
| `Visualizer.NewestFirst` | src/App.tsx:34-36 | the stored trades are in descending date order, with equal dates in feed order |
| `Visualizer.App.constructor` | src/App.tsx:9-13 | empty roster and trades, loading, nothing selected |
| `Visualizer.App.ReceiveData` | src/App.tsx:27-38 | stores the roster and the stable newest-first sort of the trades |
| `Visualizer.App.HandleTeamClick` | src/App.tsx:50-52 | the selection becomes `Toggled` and nothing else changes |
| `TeamCircle.IncomingPlayers` | src/components/TeamCircle.tsx:18-20 | the trades into the club with a truthy player id, in order, each kept as often as it occurs, and nothing else |
| `TeamCircle.OutgoingPlayers` | src/components/TeamCircle.tsx:23-25 | the trades out of the club with a truthy player id, in order, each kept as often as it occurs, and nothing else |
| `TeamCircle.NoPlayerNoBadge` | src/components/TeamCircle.tsx:18-25 | a trade without a player id is on neither list |
| `TeamCircle.ParsedTradesDrawn` | src/components/TeamCircle.tsx:18-25 | every parsed trade is on its destination club's incoming list and its origin club's outgoing list |
| `TeamCircle.CardWithinSelection` | src/components/TeamCircle.tsx:18-25 | a card's players are among the trades listed when its club is selected |
| `TeamCircle.HeadshotSrc` | src/components/TeamCircle.tsx:79 | a non-empty `headshotUrl` is used; otherwise the midfield URL built from the player id (`undefined` when absent) |
| `TeamCircle.PreloadedBadgeIsHeadshot` | src/components/TeamCircle.tsx:129 | after preloading, a badge always shows the player's own headshot address, whether the probe succeeded or not |
| `TeamCircle.Initial` | src/components/TeamCircle.tsx:91 | one character: the first of a non-empty name, else `?` |
| `TeamCircle.PlayerPlaceholder` | src/components/TeamCircle.tsx:141 | the 30x30 placeholder URL followed by the player's initial |
| `TeamCircle.LogoFallback` | src/components/TeamCircle.tsx:44 | the 80x80 placeholder URL followed by the club's abbreviation |

## Left out

- React rendering, styles and animation props are presentation only. So are the history list, the progress bar and `hoveredTeam`.
- The 2-second interval is not modelled. A tick is a method call, allowed only while playing with a non-empty list, which is when the interval exists. `clearInterval` is not modelled either.
- Window listeners and the DOM are not modelled directly:
  - The listener pairs `handleDragStart` attaches are a sequence of captured club ids.
  - The pointer position arrives relative to the map (`getBoundingClientRect` is not modelled).
  - A missing map element is `None`.
- The debug panel's inputs for bounds, size, offset and rotation are not modelled, so the map configuration stays at its initial value. Rotation only turns the background image and takes no part in the formulas.
- The projection formulas divide by the spans and the box size. The model requires these to be non-zero, where JavaScript would produce `Infinity`/`NaN`. The initial configuration satisfies this.
- Floating-point rounding is not modelled: coordinates are exact reals.
- `new Date(...).getTime()` and `toLocaleDateString` are not modelled: dates are integer timestamps, assumed valid.
- The network is a parameter or left out:
  - `axios` calls, `getAllTeams` and `getAllTransactions` are left out;
  - the outcome of each HEAD probe in `preloadPlayerHeadshots` is the parameter `reachable`;
  - `preloadPlayerHeadshots` runs the probes concurrently; since the ids are distinct, the model runs them in order with the same result.
  - `App.fetchData` is reduced to `ReceiveData`, which receives both lists. Its error branch is left out: both service calls already turn failures into empty lists.
- `console` and `alert` output is left out.
- The stadium table keeps only club name, latitude and longitude. The park, city and state strings and the constant `division` field are never used in a computation.
- `Positions.ExportCustomPositions`: lists ids in ascending order. This is the order `Object.keys` gives non-negative integer keys. Negative ids, which `Object.keys` would list in insertion order after them, are not distinguished.
- `src/components/TransactionsFeed.tsx` is not part of this model (presentation and date formatting).
- `MlbApi.ToTransaction`: a feed trade whose person has no `id` makes `parseTransactions` throw a `TypeError` at `person.id.toString()`, and `getAllTransactions` then returns `[]` for the whole feed. The model's `RawPerson.id` is mandatory, so this throw is not modelled; a club without a `name` is modelled, and gives an absent `fromTeam`/`toTeam`.
- `TeamCircle.Initial`: takes the first Unicode scalar value of the name. `charAt(0)` takes the first UTF-16 code unit, so for a name that starts outside the Basic Multilingual Plane the source gives a lone surrogate where the model gives the whole first character.
- `JsText.Decimal`: renders every natural number in plain decimal. JavaScript numbers print in exponent notation from 1e21 and lose precision above 2^53; the model assumes feed ids stay below 2^53, as MLB ids do.
