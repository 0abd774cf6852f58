# ShrubHub site and garden boundaries, in Dafny

This project models the part of ShrubHub that turns a boundary drawn on a map
into stored text and back, and the small rules around it.

- **Boundary codec.** When a site is created, its boundary becomes WKT text:
  `POLYGON((lng lat,lng lat,...,lng₀ lat₀))`, with the first pair repeated to
  close the ring. With fewer than three points it becomes `null`. A garden
  picker later reads that text back. It takes what lies between the first
  `((` and the next `))`, splits it at commas, trims each pair, reads
  longitude then latitude, and drops the last pair.
- **Map framing.** The web pickers open on the initial location at zoom 18,
  or on the centre of the United States at zoom 4. When the garden picker
  loads its site, it centres on the centroid of the site boundary at zoom 17,
  or else on the site's reference point at zoom 18.
- **Drawing session.** The three map pickers share one small state machine
  over `(boundary, isDrawing)`. It has four handlers: toggle drawing, map
  press, marker drag and clear. Each boundary change is reported to the
  parent form.
- **The add-site form.** It holds the name, description, reference point,
  boundary and hardiness zone. The detected zone fills the zone field only
  when that field is empty. On submit, the form either saves a row or stops
  for a blank name, a signed-out user or a missing gardener profile.
- **Helpers.** These are `cn` class joining, relative-time phrases and day
  counts (`lib/utils.ts`), the plant card's health badge, watering status and
  display name, and the header's active-link rule.

Coordinates are whole micro-degrees (`Geo.Coordinate`). Writing one with a
template literal gives plain decimal text with trailing fraction zeros removed
(`JsNumber.FormatMicro`). Reading it back with `Number` gives the exact value
(`JsNumber.ToNumber`). Decoded values can also be `NaN` or `undefined`, so they
are `JsNumber.JsNum` values.

Handlers that change component state are methods of classes:

- `Session.BoundarySession`;
- the three picker classes, which each own a session and delegate to it;
- `AddSite.AddSiteForm`.

Each method is specified against a pure function of the old state:
`Session.Toggled`, `Session.Pressed`, `Session.Dragged`, `Session.Cleared`,
`Framing.SiteFraming` or `AddSite.Payload`.

Behaviours of the code the model keeps:

- Pairs are joined by `,` with no space after the comma.
- Decoding drops the last pair whenever there is more than one pair, without
  comparing it with the first.
- Decoding has no parse error. Text without a non-empty `((...))` body leaves
  the site outline as it was. Unreadable numbers decode as `NaN` (or as
  `undefined` when a pair has no second field).
- The drawing session has no frozen "closed" state. Drags work in or out of
  drawing mode. Toggling again resumes drawing with the existing points.

## Model

| member | source | states |
|---|---|---|
| JsNumber.FormatMicro | app/sites/add.tsx:90-91 | A coordinate written into the text is a non-empty run of digits, `-` and `.`, starting with a digit or `-` and ending with a digit (so it holds no comma, space or parenthesis) |
| JsNumber.ToNumber | components/map/GardenLocationPicker.web.tsx:65 | `Number` of a token is never `undefined`, and a blank token reads as 0 |
| JsNumber.ParseFormat | components/map/GardenLocationPicker.web.tsx:65 | Reading back a coordinate written by the encoder gives exactly its value in degrees |
| JsText.Trim | components/map/GardenLocationPicker.web.tsx:65 | Trimming leaves no white space at either end and changes nothing when there is none |
| JsText.TrimSlice | components/map/GardenLocationPicker.web.tsx:65 | What trimming keeps is one slice of the text, with only white space before and after it |
| JsText.Split | components/map/GardenLocationPicker.web.tsx:64 | There is always at least one piece, no piece holds the separator, and there is exactly one piece when the text has no separator |
| JsText.SplitJoin | components/map/GardenLocationPicker.web.tsx:64 | Splitting joined pieces at the separator gives the pieces back when none contains it |
| JsText.ReplaceFirst | components/plant/PlantCard.tsx:65 | `replace` with a one-character pattern changes only the first occurrence, into the replacement, and keeps the length |
| Geo.LiftAllInjective | components/map/GardenLocationPicker.web.tsx:64-67 | Different boundaries give different decoded point lists |
| Wkt.EncodeBoundary | app/sites/add.tsx:87-93 | There is no WKT exactly when the boundary has fewer than three points |
| Wkt.EncodedText | app/sites/add.tsx:87-93 | For three or more points the stored text is `POLYGON((`, the ring body (every pair, then the first again, joined by commas), and `))` |
| Wkt.EncodedRing | app/sites/add.tsx:90-92 | The text starts with `POLYGON((`; its `((...))` body is the ring text, which splits at the commas into exactly the ring's pairs |
| Wkt.RingShape | app/sites/add.tsx:90-92 | The ring of n points has n + 1 pairs; pair k is point k written longitude first; the last pair repeats the first; no pair has white space around it |
| Wkt.PairRoundTrip | components/map/GardenLocationPicker.web.tsx:64-67 | A written pair is already trimmed, splits at its one space into longitude then latitude, and parses back to the point it came from, latitude stored first |
| Wkt.MatchBody | components/map/GardenLocationPicker.web.tsx:62 | There is no match exactly when no `((` is followed by a `))` reachable without a line break; a matched body holds no line break and no `))` |
| Wkt.MatchFromFacts | components/map/GardenLocationPicker.web.tsx:62 | The same facts for the scan from any start position |
| Wkt.ParsePair | components/map/GardenLocationPicker.web.tsx:64-67 | The longitude is never `undefined` (a blank pair reads as 0); the latitude is `undefined` exactly when the trimmed pair has no space |
| Wkt.FindClose | components/map/GardenLocationPicker.web.tsx:62 | The lazy `(.*?)\)\)` scan finds the first `))` from a position, and only when no line terminator comes before it |
| Wkt.DecodeSurrounded | components/map/GardenLocationPicker.web.tsx:62-63 | Only the text between the first `((` and the next `))` is read; the text around it, the keyword included, is ignored, and an empty body means no boundary |
| Wkt.DecodePairs | components/map/GardenLocationPicker.web.tsx:64-71 | One point per comma-separated pair, in order, with the last dropped whenever there is more than one |
| Wkt.DecodeBoundary | components/map/GardenLocationPicker.web.tsx:59-72 | A decoded boundary always holds at least one point |
| Wkt.RingDecodes | components/map/GardenLocationPicker.web.tsx:64-71 | Parsing the ring text of a boundary gives back all its points, the closing pair dropped |
| Wkt.RoundTrip | components/map/GardenLocationPicker.web.tsx:62-71 | For three or more points, decoding the encoder's text gives back the same points in the same order |
| Framing.InitialView | components/map/GardenLocationPicker.web.tsx:34-39 | Zoom 18 exactly when there is an initial location, centred on it; otherwise the United States centre at zoom 4 |
| Framing.SumFinite | components/map/GardenLocationPicker.web.tsx:76-77 | The running sum is a number exactly when every value is |
| Framing.SumBounds | components/map/GardenLocationPicker.web.tsx:76-77 | The sum of n values in [lo, hi] lies in [n·lo, n·hi] |
| Framing.Mean | components/map/GardenLocationPicker.web.tsx:76-77 | The mean is a number exactly when every value is, and never `undefined` |
| Framing.MeanBounds | components/map/GardenLocationPicker.web.tsx:76-77 | The mean of values in [lo, hi] lies in [lo, hi] |
| Framing.Centroid | components/map/GardenLocationPicker.web.tsx:75-77 | Neither coordinate of the centroid is `undefined`; each is a number exactly when that coordinate of every point is, and `NaN` otherwise |
| Framing.CentroidWithin | components/map/GardenLocationPicker.web.tsx:75-79 | On each axis the centroid lies between any bounds of the points |
| Framing.CentroidOfSame | components/map/GardenLocationPicker.web.tsx:76-77 | Points that all coincide have that point as their centroid |
| Framing.SiteFraming | components/map/GardenLocationPicker.web.tsx:59-86 | An initial location blocks every view change. A found boundary becomes the outline and is framed on its centroid at zoom 17. A falsy boundary (missing or empty) with a truthy latitude and longitude is, without an initial location, framed on that point at zoom 18, and zoom 18 happens in no other case |
| Framing.SavedBoundaryFraming | components/map/GardenLocationPicker.web.tsx:75-80 | A site saved with three or more points reloads with exactly those points, framed on their centroid at zoom 17 |
| Framing.SavedPointFraming | components/map/GardenLocationPicker.web.tsx:82-86 | A site saved with fewer than three points and a non-zero reference point is framed on that point at zoom 18 |
| Session.Toggled | components/map/SiteLocationPicker.tsx:109-126 | Toggling keeps the points and finishes only when drawing with at least one point. It re-reports an empty boundary exactly when there are no points |
| Session.Pressed | components/map/SiteLocationPicker.tsx:93-100 | A press appends exactly that point, at the end, only while drawing, and reports the new boundary; otherwise nothing changes |
| Session.Dragged | components/map/SiteLocationPicker.tsx:102-107 | A drag replaces only the dragged point, keeps the length and drawing flag, and reports the new boundary |
| Session.Cleared | components/map/SiteLocationPicker.tsx:128-132 | Clearing from any state gives no points, not drawing, and reports the empty boundary |
| Session.ReportsBoundary | components/map/SiteLocationPicker.tsx:93-132 | Whatever is reported is the new boundary, and every change of the points is reported |
| Session.PointsOnlyGrow | components/map/SiteLocationPicker.tsx:93-132 | Only clearing removes points; no action adds more than one; only a drag alters existing points |
| Session.PressAllAppends | components/map/SiteLocationPicker.tsx:93-100 | While drawing, successive presses append their points in order |
| Session.PressAllIgnored | components/map/SiteLocationPicker.tsx:93-94 | Out of drawing mode presses change nothing |
| Session.DrawFromScratch | components/map/SiteLocationPicker.tsx:109-126 | Start, press points, finish: the session holds exactly those points, not drawing, and with three or more they can be saved |
| Session.ResumeKeepsPoints | components/map/SiteLocationPicker.tsx:109-120 | Finishing and toggling again resumes drawing with every point kept |
| Session.BoundarySession.constructor | components/map/SiteLocationPicker.tsx:30-31 | A session opens with its initial boundary, not drawing |
| Session.BoundarySession.ToggleDrawing | components/map/SiteLocationPicker.tsx:109-126 | The new state and report are those of `Toggled` |
| Session.BoundarySession.MapPress | components/map/SiteLocationPicker.tsx:93-100 | The new state and report are those of `Pressed` |
| Session.BoundarySession.MarkerDrag | components/map/SiteLocationPicker.tsx:102-107 | Copying the points, overwriting one in the copy and storing it gives the state and report of `Dragged` |
| Session.BoundarySession.ClearBoundary | components/map/SiteLocationPicker.tsx:128-132 | The new state and report are those of `Cleared` |
| NativeSitePicker.DefaultRegion | components/map/SiteLocationPicker.tsx:134-147 | A known location is shown close up, centred on it, with both deltas 0.001; otherwise (39.8283, -98.5795) with both deltas 40 |
| NativeSitePicker.PolygonMeansSaved | components/map/SiteLocationPicker.tsx:230 | The filled polygon is drawn exactly when saving would store a boundary |
| NativeSitePicker.Markers | components/map/SiteLocationPicker.tsx:240-250 | One marker per point, in order, carrying its index |
| NativeSitePicker.MarkersDraggable | components/map/SiteLocationPicker.tsx:240-246 | Every marker's index names a point, so every drag it sends is enabled |
| NativeSitePicker.SitePicker.constructor | components/map/SiteLocationPicker.tsx:27-31 | Opens with the initial location and boundary, not drawing |
| NativeSitePicker.SitePicker.LocateSucceeded | components/map/SiteLocationPicker.tsx:70-83 | The device position becomes the location, is reported, and the map is animated to it close up; the boundary is untouched |
| NativeSitePicker.SitePicker.HandleMapPress | components/map/SiteLocationPicker.tsx:93-100 | Follows `Pressed` |
| NativeSitePicker.SitePicker.HandleMarkerDrag | components/map/SiteLocationPicker.tsx:102-107 | Follows `Dragged` |
| NativeSitePicker.SitePicker.ToggleDrawing | components/map/SiteLocationPicker.tsx:109-126 | Follows `Toggled` |
| NativeSitePicker.SitePicker.ClearBoundary | components/map/SiteLocationPicker.tsx:128-132 | Follows `Cleared` |
| WebSitePicker.ErrorDetail | components/map/SiteLocationPicker.web.tsx:66-82 | Exactly one of four texts, each chosen by exactly its own codes (1, 2, 3, anything else) |
| WebSitePicker.GeolocationErrorMessage | components/map/SiteLocationPicker.web.tsx:64-82 | The message built line by line is the failure prefix followed by the text for the code |
| WebSitePicker.MessagesDistinguishCodes | components/map/SiteLocationPicker.web.tsx:66-82 | Two different codes, not both unknown, give different messages |
| WebSitePicker.SitePicker.constructor | components/map/SiteLocationPicker.web.tsx:26-37 | Opens on the initial location at zoom 18, or the United States centre at zoom 4 |
| WebSitePicker.SitePicker.LocateSucceeded | components/map/SiteLocationPicker.web.tsx:50-60 | The browser position becomes location and map centre at zoom 18 and is reported; the boundary is untouched |
| WebSitePicker.SitePicker.SelectAddress | components/map/SiteLocationPicker.web.tsx:120-126 | The chosen address's point becomes location and map centre at zoom 18 and is reported; the boundary is untouched |
| WebSitePicker.SitePicker.MapClick | components/map/SiteLocationPicker.web.tsx:200-206 | Follows `Pressed` |
| WebSitePicker.SitePicker.MarkerDrag | components/map/SiteLocationPicker.web.tsx:207-212 | Follows `Dragged` |
| WebSitePicker.SitePicker.ToggleDrawing | components/map/SiteLocationPicker.web.tsx:98-112 | Follows `Toggled` |
| WebSitePicker.SitePicker.ClearBoundary | components/map/SiteLocationPicker.web.tsx:114-118 | Follows `Cleared` |
| GardenPicker.GardenLocationPicker.constructor | components/map/GardenLocationPicker.web.tsx:28-39 | Opens with no site outline, on the initial location at zoom 18 or the United States centre at zoom 4 |
| GardenPicker.ReadSiteBoundary | components/map/GardenLocationPicker.web.tsx:62-71 | Matching the body, splitting it, parsing each pair and popping the last gives exactly the decoded boundary, or nothing for a missing or empty body |
| GardenPicker.GardenLocationPicker.LoadSiteBoundary | components/map/GardenLocationPicker.web.tsx:48-92 | Without a truthy site id nothing changes. Otherwise the outline and view change as `SiteFraming` says, and whatever it leaves alone keeps its value |
| GardenPicker.GardenLocationPicker.LocateSucceeded | components/map/GardenLocationPicker.web.tsx:104-115 | The browser position becomes location and map centre at zoom 18 and is reported; outline and boundary untouched |
| GardenPicker.GardenLocationPicker.MapClick | components/map/GardenLocationPicker.web.tsx:223-229 | Follows `Pressed` |
| GardenPicker.GardenLocationPicker.MarkerDrag | components/map/GardenLocationPicker.web.tsx:230-235 | Follows `Dragged` |
| GardenPicker.GardenLocationPicker.ToggleDrawing | components/map/GardenLocationPicker.web.tsx:129-141 | Follows `Toggled` |
| GardenPicker.GardenLocationPicker.ClearBoundary | components/map/GardenLocationPicker.web.tsx:143-147 | Follows `Cleared` |
| AddSite.OrNull | app/sites/add.tsx:101 | `s \|\| null` is `null` exactly for the empty string and `s` otherwise |
| AddSite.Payload | app/sites/add.tsx:95-106 | The saved name and description are trimmed, with a blank description stored as `null`. The reference point is saved as chosen, whatever the boundary. The boundary is the encoder's WKT (`null` below three points). An empty zone is stored as `null` and any other zone as itself |
| AddSite.SavedSiteReloads | app/sites/add.tsx:87-104 | A site saved with three or more boundary points reloads in a garden picker with exactly those points, framed on their centroid |
| AddSite.AddSiteForm.constructor | app/sites/add.tsx:25-33 | The form starts empty, with no point, no boundary, no zone and New York time |
| AddSite.AddSiteForm.LocationChange | app/sites/add.tsx:35-56 | The point is stored. A truthy detected zone is always remembered but fills the zone only when it is empty. Nothing else changes |
| AddSite.AddSiteForm.BoundaryChange | app/sites/add.tsx:58-60 | The form keeps exactly the reported boundary and nothing else changes |
| AddSite.AddSiteForm.Create | app/sites/add.tsx:62-109 | A blank trimmed name stops everything. Then a signed-out user is redirected and a missing profile is reported. Otherwise the row built by `Payload` is inserted, with a non-empty name |
| Utils.Cn | lib/utils.ts:1-3 | No truthy argument gives `""`; otherwise the text is non-empty and starts with the first truthy argument |
| Utils.Kept | lib/utils.ts:2 | Only non-empty strings are kept, never more than were given |
| Utils.KeptAppend | lib/utils.ts:2 | Filtering distributes over concatenation, so input order is kept |
| Utils.KeptNone | lib/utils.ts:2 | Nothing is kept exactly when no argument is truthy |
| Utils.CnEmpty | lib/utils.ts:1-3 | `cn` gives `""` exactly when no argument is truthy |
| Utils.CnSplit | lib/utils.ts:1-3 | Splitting `cn`'s result at spaces gives back the truthy arguments in order, when none contains a space |
| Utils.CnIgnoresFalsy | lib/utils.ts:1-3 | Falsy arguments (`undefined`, `null`, `false`, `""`) do not change the result |
| Utils.Classify | lib/utils.ts:10-23 | Under 60 s, the future included, is "Just now"; from a week on, the date. The count is the elapsed time rounded down to its unit: minutes 1..59, hours 1..23, days 1..6 |
| Utils.ClassifyMonotone | lib/utils.ts:10-23 | More elapsed time never gives a finer bucket, nor a smaller count in the same bucket |
| Utils.Phrase | lib/utils.ts:10-23 | "Just now" and the date text as chosen; a count phrase starts with the count and unit name and ends in " ago" |
| Utils.FormatRelativeTime | lib/utils.ts:5-24 | Under a minute gives "Just now", a week or more gives the date text, anything between ends in " ago" |
| Utils.PluralOnlyAboveOne | lib/utils.ts:14-20 | The plural `s` is written exactly when the count is above one |
| Utils.DaysSince | lib/utils.ts:26-31 | The result is the elapsed time rounded down to whole days of 86,400,000 ms |
| Utils.DaysSinceSign | lib/utils.ts:26-31 | Zero within the first day; negative exactly for future dates |
| Utils.DaysSinceMonotone | lib/utils.ts:26-31 | More elapsed time never gives fewer days |
| PlantCard.HealthVariant | components/plant/PlantCard.tsx:23-34 | `healthy`, `needs_attention` and `sick` map to healthy, attention and urgent; every other text is neutral |
| PlantCard.StatusVariants | components/plant/PlantCard.tsx:23-34 | Of the five stored statuses, pest issue and dead are neutral |
| PlantCard.BadgeLabel | components/plant/PlantCard.tsx:65 | Same length; only the first underscore may change, into a space |
| PlantCard.BadgeLabelFirstOnly | components/plant/PlantCard.tsx:65 | `a_b` is labelled `a b`, later underscores in `b` kept |
| PlantCard.WaterStatus | components/plant/PlantCard.tsx:36-41 | No status for a missing or zero count; urgent from 7 days, attention at 5–6, healthy otherwise, negative counts included |
| PlantCard.WaterSeverityMonotone | components/plant/PlantCard.tsx:38-40 | For positive counts severity never decreases as days increase |
| PlantCard.WateredTodayHasNoStatus | components/plant/PlantCard.tsx:19-21 | A plant watered less than a day ago has count 0 and so no status |
| PlantCard.WateringDays | components/plant/PlantCard.tsx:19-21 | No count without a watering date; otherwise the elapsed time rounded down to whole days |
| PlantCard.WaterDropClass | components/plant/PlantCard.tsx:88-94 | Without a status, or with a neutral one, the drop has only `text-base`; an urgent, attention or healthy status adds exactly its colour class (`text-urgent`, `text-attention`, `text-ocean-mid`) after it |
| PlantCard.DisplayName | components/plant/PlantCard.tsx:74 | The name is never empty: the custom name, else the first common name, else "Unknown Plant" |
| Header.IsActive | components/layout/Header.tsx:75-76 | A link is active for exactly its own path, and only ever for a path that starts with its target |
| Header.RootOnlyExact | components/layout/Header.tsx:75-76 | The home link is active for exactly `/` |
| Header.PrefixActivates | components/layout/Header.tsx:76 | Any other link is active for every path extending its target, `/plantsx` included |
| Header.NoPathNoneActive | components/layout/Header.tsx:75-76 | Without a path no link is active |
| Header.HrefsUnnested | components/layout/Header.tsx:17-24 | No link target other than `/` starts with another |
| Header.AtMostOneActive | components/layout/Header.tsx:17-24 | For any path at most one link of the bar is active |
| Header.SitesPageActivatesSites | components/layout/Header.tsx:75-76 | `/sites/add` activates the Sites link and no other |

## Left out

- Alerts and confirmation dialogs are left out. The one exception is the web geolocation error text, which is modelled. The native permission prompts are left out too; refusing permission changes nothing but an alert.
- The `isSaving`, `isLoadingLocation` and `isLoadingSite` flags are left out: they only disable buttons and show spinners.
- The backend calls are replaced by parameters, because they are foreign I/O:
  - the signed-in user and gardener lookup become `AddSite.Account`;
  - the site row fetch becomes `Option<Framing.SiteRow>`;
  - the zone lookup result becomes the `detected` parameter.
- The insert's own error path, the navigation after saving, the generated row id and the timestamps are not modelled.
- The hardiness-zone lookup called by the add-site form is a backend call; its answer is the `detected` parameter.
- Matching unassigned gardens to a site by planar distance (under 0.05 degrees) exists in app/sites/[id].tsx:80-95. That page is outside the modelled core.
- The map and geolocation SDKs are left out. Their results (a pressed point, a dragged marker, a device or browser position, a chosen address) are method parameters. The address picker's polling and the map animation's duration are not modelled.
- JsNumber.FormatMicro: coordinates are whole micro-degrees, so finer values and float rounding are not modelled. Within that range the text is exact JavaScript output.
- JsNumber.ToNumber: only plain decimal tokens are read. Exponent, hexadecimal (`0x`), binary (`0b`), octal (`0o`) and `Infinity` tokens read as `NaN` here, though JavaScript reads them as numbers. A decimal token too large for a double reads as its exact value here, where JavaScript gives `Infinity`.
- Framing.Centroid: the mean is computed over exact reals, not floating point.
- The handlers read the current state. The React closures read the state of the render they were created in; after the zone lookup's `await` the zone test in `handleLocationChange` may see a stale value.
- Session.Dragged: requires the index to name a point, because markers are rendered one per point. In JavaScript an index past the end would leave holes in the array.
- Utils.FormatRelativeTime and Utils.DaysSince take the elapsed milliseconds, because the clock is I/O. The locale date text is a parameter, and invalid dates (`NaN`) are not modelled.
- Editing the name, description, zone and timezone fields are plain assignments from the inputs. They have no methods of their own. The zone list offered by the form is not modelled.
- The rest of the header and plant card rendering (icons, images, notes, the plant's age line) is presentational and not modelled.
