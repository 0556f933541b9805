# Geofence home page — a Dafny model

The home page of the geofencing app is a Google map. The user draws geofences on it and edits them there.

- A long press on the map creates a geofence at that point:
  - a marker, plus a circle of 250 m in the default colours;
  - the plugin is asked to monitor the point with radius 250;
  - the whole collection is written to storage under the key `geofences`.
- Tapping a geofence's marker selects it, opens the bottom edit panel, and puts the circle's radius on the slider.
- Moving the slider resizes the selected circle and its stored backup.
- Releasing the slider sends the new radius to the plugin.
- Tapping or dragging the map closes the panel and clears the selection.
- Removing a geofence happens in two steps:
  1. The selection is spliced out of the collection at once, and the plugin is asked to remove its id.
  2. Only when the plugin answers "yes" does the callback:
     - take the overlay off the map;
     - close the panel;
     - clear the selection;
     - write the snapshot.
- When the map is ready, the collection is rebuilt from the stored snapshot. Every record is redrawn from its backup.

The model is split into four modules plus an `Option` type:

- `JsArray`: the JavaScript array operations the page relies on, with their edge cases.
  - `indexOf` compares by identity and returns the first hit, or -1.
  - `slice` clamps negative and out-of-range positions.
  - Removal by spreading two slices around `indexOf`.
- `CoordinateId`: the geofence id `lat + '|' + lng`. It has a parser, and the proofs show that the id determines the coordinates and the reverse.
- `Overlay`: one geofence as a value. This covers:
  - the circle `addMarker` draws;
  - the record it returns;
  - the JSON record written to storage;
  - the collection rebuilt from storage.
- `Home`: the page itself, as a class.
  - It holds the collection, the selection, the slider value, the panel's visibility and the list of calls made to the native plugin.
  - It also holds the number of removal answers still outstanding, and the last snapshot written to storage.
  - Each geofence is a `GeofenceElement` object. Its coordinates and id are fixed. Its circle, backup and on-map flag are updated in place, because the page edits them through shared references.

Every event handler is a method. Its postcondition states the page's whole new state. The invariant `Valid` holds before and after every handler: each geofence's circle and backup keep stroke width 2, and the backup holds the same stroke colour as the circle, as `addMarker` set them up. `ValidPageRedrawsOnReload` puts the invariant to use: a page element whose circle agrees with its backup is redrawn unchanged by a save and reload. Four client methods chain the handlers into the scenarios the code allows:

- the start of a session: create a geofence and select it;
- a full create–resize–remove session;
- a double removal before the plugin answers;
- a removal the plugin refuses.

The model follows these behaviours of the code, which are easy to miss:

- The element leaves the collection before the plugin has answered, not after a successful removal. A refused removal leaves it out of the collection, still selected, and still on the map.
- An edited radius survives only one reload:
  - A resize writes the new radius into the backup, and `addMarker` draws a stored record from its backup, so the first reload draws the edited radius.
  - The record `addMarker` returns always has a backup radius of 250 and the default fill.
  - Any later snapshot write stores that reset backup: a long-press, a marker tap, a slider move or release, or an answered removal. The next reload then draws the circle at 250, unless it was resized again in between.
- No radius is validated. Any slider value is written to the circle and the backup.
- Two geofences at the same point share an id, and both stay in the collection. Selecting by id always picks the first of them.

## Model

| member | source | states |
|---|---|---|
| JsArray.IndexOf | src/app/home/home.page.ts:182 | the result is -1 exactly when the element is absent; otherwise it is the first position holding that element |
| JsArray.Clamp | src/app/home/home.page.ts:184-185 | a `slice` position resolves into 0..n: in-range positions stay, a negative position counts from the end, anything else is clamped |
| JsArray.Slice | src/app/home/home.page.ts:184-185 | a slice is no longer than the array and holds only its elements |
| JsArray.SliceCases | src/app/home/home.page.ts:184-185 | in-range positions give the plain sub-sequence, an empty or inverted range gives nothing, and `slice(0, -k)` drops the last k elements |
| JsArray.SpliceOut | src/app/home/home.page.ts:183-186 | spreading the two slices around a position yields only elements of the array |
| JsArray.SpliceOutIndexOf | src/app/home/home.page.ts:182-186 | splicing at `indexOf` removes the first occurrence and keeps the order (length n-1); for an absent element it gives `s[..n-1] + s` (length 2n-1); for an empty array it gives an empty array |
| JsArray.SpliceOutAt | src/app/home/home.page.ts:183-186 | at a valid index, the two spread slices are the array without that one position |
| JsArray.SpliceOutMissing | src/app/home/home.page.ts:183-186 | at index -1, the two spread slices are all but the last element followed by the whole array |
| JsArray.SpliceOutOnlyOccurrence | src/app/home/home.page.ts:182-186 | an element held once is no longer in the array after the removal |
| JsArray.SpliceOutTwice | src/app/home/home.page.ts:180-186 | removing the same element twice: the first call removes it, the second finds -1 and grows n-1 elements to 2n-3 |
| CoordinateId.Id | src/app/home/home.page.ts:157 | the id is the latitude's text, a bar, then the longitude's text; its first bar sits right after the latitude's text |
| CoordinateId.NumToString | src/app/home/home.page.ts:157 | a coordinate's text is non-empty, has no bar, and starts with '-' exactly when the number is negative |
| CoordinateId.NatToString | src/app/home/home.page.ts:157 | a non-negative number's text is a non-empty run of digits with no leading zero |
| CoordinateId.DigitsRoundTrip | src/app/home/home.page.ts:157 | reading back a non-negative number's digits gives the number |
| CoordinateId.NumRoundTrip | src/app/home/home.page.ts:157 | parsing a coordinate's text gives the coordinate back |
| CoordinateId.IdRoundTrip | src/app/home/home.page.ts:157 | splitting `Id(lat, lng)` at its first bar gives back (lat, lng) |
| CoordinateId.IdInjective | src/app/home/home.page.ts:157 | two ids are equal if and only if their coordinates are equal |
| Overlay.Fence.WithRadius | src/app/home/home.page.ts:100-101 | the slider value becomes both the circle's and the backup's radius; coordinates, id and on-map state are kept, and so are the fill, stroke colour and stroke width of both the circle and the backup |
| Overlay.Serialize | src/app/home/home.page.ts:73 | one stored record per element, in order, with that element's coordinates, id and backup |
| Overlay.SourceOf | src/app/home/home.page.ts:140 | a parsed record is never a `LatLng`, so `addMarker` sees its coordinates and its possibly null backup |
| Overlay.DrawnCircle | src/app/home/home.page.ts:136-155 | with a bare point or a null backup, the circle has radius 250, fill `#80bfff22`, stroke `#3399ff` and width 2; it is always width 2 |
| Overlay.RedrawFromBackup | src/app/home/home.page.ts:140-155 | with a backup, the circle takes the backup's radius, fill and stroke, and width 2 |
| Overlay.MarkerRecord | src/app/home/home.page.ts:157-177 | the returned record keeps the coordinates, has id `Id(lat, lng)` (lat, a bar, lng), is on the map, and carries the drawn circle; its backup has radius 250, the default fill, and the circle's stroke colour and width |
| Overlay.SameIdIffSameCoordinates | src/app/home/home.page.ts:157 | two geofences get the same id if and only if they were created at the same coordinates |
| Overlay.Reloaded | src/app/home/home.page.ts:117-126 | a missing entry gives no geofences; otherwise one geofence per stored record, in order, each redrawn by `addMarker` from that record, with id `Id(lat, lng)` |
| Overlay.SaveThenReload | src/app/home/home.page.ts:117-177 | after write and reload, each geofence keeps its coordinates and its id is recomputed from them, equal to the saved id whenever that followed the id rule; its circle is redrawn from the backup; its backup is reset to radius 250 and the default fill |
| Overlay.SaveThenReloadRedraws | src/app/home/home.page.ts:136-177 | a geofence whose circle agrees with its backup in radius and fill is redrawn exactly as it was |
| Overlay.ReloadTwiceDrawsDefaultRadius | src/app/home/home.page.ts:136-177 | the first reload draws each circle at its saved backup radius; if the reloaded collection is saved and reloaded again with no resize in between, every circle is drawn at 250 |
| Home.FirstWithId | src/app/home/home.page.ts:91 | the result is -1 exactly when no element has the id; otherwise it is the first element that has it |
| Home.GeofenceElement.constructor | src/app/home/home.page.ts:128-177 | a new element holds the record `addMarker` returns for its source |
| Home.HomePage.constructor | src/app/home/home.page.ts:31-35 | the page starts with no geofences, no selection, the panel hidden, no plugin calls and nothing written |
| Home.HomePage.SaveSnapshot | src/app/home/home.page.ts:73 | the stored snapshot becomes the serialised collection |
| Home.HomePage.Push | src/app/home/home.page.ts:64 | the element is appended and nothing else in the collection changes |
| Home.HomePage.AddMarker | src/app/home/home.page.ts:128-178 | returns a new element holding `addMarker`'s record for the source |
| Home.HomePage.AddMarkers | src/app/home/home.page.ts:125 | one new element per stored record, in order, each drawn from that record |
| Home.HomePage.OnMapLongClick | src/app/home/home.page.ts:62-74 | appends exactly one new geofence with id `Id(lat, lng)`, asks the plugin to monitor it with radius 250, and writes the snapshot; earlier geofences and the selection are untouched; the invariant is kept |
| Home.HomePage.OnMapClickOrDrag | src/app/home/home.page.ts:76-84 | the panel is hidden and the selection cleared; nothing else changes |
| Home.HomePage.ManageModalOpen | src/app/home/home.page.ts:90-96 | selects the first element with the id, shows its radius on the slider, and writes the snapshot; the collection is unchanged |
| Home.HomePage.OnMarkerClick | src/app/home/home.page.ts:159-163 | shows the panel, then behaves as the panel opening for that marker's id |
| Home.HomePage.ManageModalEditRadius | src/app/home/home.page.ts:98-103 | the selected geofence's circle radius and backup radius become the new value, and every other geofence is unchanged; the snapshot is written and the plugin is not called |
| Home.HomePage.ManageModalMouseUp | src/app/home/home.page.ts:105-115 | sends the selection's id, coordinates and current circle radius to the plugin, and writes the snapshot |
| Home.HomePage.RenderPreviousFences | src/app/home/home.page.ts:117-126 | the collection becomes the stored records redrawn, in order, as new elements; a missing entry gives an empty collection |
| Home.HomePage.RemoveFence | src/app/home/home.page.ts:180-188 | with no selection nothing happens; otherwise the selection's `indexOf` position is spliced out and its id is sent for removal; the selection, the panel and the snapshot stay as they are |
| Home.HomePage.OnRemoveResolved | src/app/home/home.page.ts:188-198 | the overlay of the selection at answer time goes off the map, the panel is hidden, the selection is cleared and the snapshot is written; with no selection, only the outstanding count drops |
| Home.HomePage.OnRemoveRejected | src/app/home/home.page.ts:199-201 | a refused removal changes nothing but the outstanding count |
| Home.ValidPageRedrawsOnReload | src/app/home/home.page.ts:117-177 | on a page that keeps its invariant, every geofence whose circle agrees with its backup in radius and fill is redrawn exactly as it is by a save and reload |
| Home.CreateAndSelect | src/app/home/home.page.ts:62-163 | on a fresh page, a long-press and a tap on the new marker leave one geofence, created with the defaults, selected with 250 on the slider, the panel shown, one plugin call, and an up-to-date snapshot |
| Home.CreateResizeRemove | src/app/home/home.page.ts:62-198 | create, select, resize to r, release and remove on a fresh page: the collection ends up empty, the snapshot empty, and the plugin has seen add(250), add(r) and remove, in that order |
| Home.RemoveTwiceBeforeAnswer | src/app/home/home.page.ts:180-188 | a second removal before the answer makes n elements into 2n-3 and sends the same id twice |
| Home.RemoveThenRejected | src/app/home/home.page.ts:180-201 | starting from a drawn selection held once and an up-to-date snapshot: after a refused removal the element is out of the collection, but it is still selected, still on the map, and its record (coordinates, id, backup) is still in the snapshot |

## Left out

- Map drawing is not modelled. Creating the map, the camera, the current location, and the Google Maps marker and circle objects are reduced to:
  - the circle's options (radius, fill, stroke, width);
  - one on-map flag per geofence.
  The marker handle itself is not modelled.
- Storage and JSON are inputs and outputs of the model:
  - Writing to storage is the ghost `snapshot` field. It holds one record per element: coordinates, id and backup. `JSON.stringify` also writes each element's live `marker` and `circle` handles. The model drops them, since reload reads only the coordinates and the backup.
  - Reading is the parameter of `RenderPreviousFences`, already parsed.
  - A malformed stored string, which makes `JSON.parse` throw, is not modelled.
- Coordinates are integers. JavaScript's floating-point numbers and their decimal rendering in the id are not modelled. The id's structure, its round trip and its injectivity are proved for integer coordinates.
- The native plugin is the list `requests` of calls made. `addOrUpdateFence`'s promise is ignored, as in the code.
- The service in src/app/providers/geofence-fm.service.ts declares only `init` and `addOrUpdateFence`. It has no `removeGeofence`, which home.page.ts:188 calls. The model assumes that call returns a promise that resolves or rejects later; `OnRemoveResolved` and `OnRemoveRejected` model the two outcomes.
- The slider's own value while it is dragged is not modelled. The page only writes it, in `manageModalOpen`.
- Not modelled:
  - page start-up (`ngOnInit`: platform ready, plugin `init`, map loading, fetching `#bottom-modal`);
  - `manageBlur`;
  - console logging;
  - the Angular and Ionic wiring.
- The order in which asynchronous callbacks interleave is left to the caller. Each callback is a method that can be called in any state that meets its precondition.
- Home.HomePage.ManageModalOpen: requires an element with the id. With an absent id, the code sets the selection to `undefined` and then throws at line 94, and the model does not cover that path. A marker tap always carries the id of an element created by `addMarker`, but that element may have been removed since.
- Home.HomePage.OnMarkerClick: requires an element with the id, for the same reason. A tap on a marker whose element left the collection would throw after showing the panel.
- Home.HomePage.ManageModalEditRadius: requires a selection. Without one, the code throws at line 100 before changing anything.
- Home.HomePage.ManageModalMouseUp: requires a selection. Without one, the code throws at line 108 before calling the plugin.
- The page invariant `Valid` states only the stroke width and the stroke colour shared by the circle and its backup.
  - The backup's default radius is not an invariant, because a resize changes it.
  - The id rule `id == Id(lat, lng)` is stated where an element is made (`GeofenceElement.constructor` through `MarkerRecord`, and `Reloaded`). `lat`, `lng` and `id` are constants, so no handler can break it. It is not repeated in `Valid`, so no page-level statement relies on it; `Id`'s own contract would make every handler's proof much costlier.
