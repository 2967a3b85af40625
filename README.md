# Prayer tracker: cache worker, update flow and prayer data in Dafny

This project models the three rule sets of the prayer-tracker web app that
carry logic, and proves their properties.

- **The cache worker (`sw.js`).** The origin's CacheStorage is a value
  `Storage`: the cache names in creation order, plus a map from each name to a
  cache (request URL to response). A response is a value with a status, a
  Fetch `type` and a body snapshot. The network is a parameter. For one
  request it is `Ok(response)` or `NetworkError`. For install it is a function
  from URL to result. The class `CacheApi.CacheStorage` holds that state and
  updates it in place. Its methods are the browser operations the worker
  calls: `open`, `put`, `delete` and `addAll`. `addAll` follows the `addAll()`
  method of the Cache interface, section 5.4 of the W3C Service Workers
  specification. It is all or nothing. It rejects on a network error, on a
  response of type "error", on a status outside 200–299, on status 206, and
  on duplicate requests. `caches.match` searches the caches in creation order
  and returns the first hit, as CacheStorage's ordered name-to-cache map does.
  The handlers are the methods `CacheWorker.Install`, `CacheWorker.HandleFetch`
  and `CacheWorker.Activate`. Each is proved equal to a pure step function
  (`InstallStep`, `FetchStep`, `Swept`), and lemmas state the properties of
  those functions.
- **The page update controller (`app.js`, `handleServiceWorkerUpdates` and
  `showUpdateBanner`).** A state machine over host events: registration
  settled, `updatefound`, `statechange`, `controllerchange`, and a click on the
  reload button. Each event carries the host state its handler reads, such as
  whether a controller or a waiting worker exists. The three side effects are
  appended to a trace: showing the banner, reloading, and posting
  `SKIP_WAITING`. The class `UpdateFlow.PageController` has one method per
  handler. Each method is tied to the pure `Step` function. Lemmas about one
  `Step` state the registration and watch rule, the banner rule and the one
  message per click. Lemmas over `Run` (any sequence of events) state that a
  first install never shows the banner, the one-shot reload latch, and that
  the reload button is armed exactly when the banner has been shown.
- **The prayer data (`app.js`, `renderMonth` and `renderAnnualView`).** The
  localforage store is a map from storage key to month data. Month data maps
  a day label to one flag per prayer. The day label that `toLocaleDateString`
  produces is kept abstract as the injective `DayKey(year, month, day)`. The
  month length is what `new Date(year, month + 1, 0).getDate()` computes: the
  proleptic Gregorian length for the year the `Date` constructor uses, which
  reads the years 0 to 99 as 1900 to 1999. The class
  `PrayerData.PrayerTracker` renders a month, toggles a slot, and computes the
  annual statistics with the source's loops. `Math.round` is taken over exact
  rationals.

The shipped fetch handler is cache-first, caches opaque responses, and
`caches.match` searches every cache:

- A hit is served and nothing else happens: there is no background
  revalidation.
- A response of type opaque is stored whatever its status.
- A hit may come from an older version's cache that activation has not yet
  removed.

The model also keeps two effects of `caches.open`:

- Install opens, and so creates, the current cache before `addAll`. After a
  failed install the current cache may therefore exist, empty.
- The miss path opens the current cache for every network response, including
  ones it does not store.

`sw.js` registers no `message` listener. The `SKIP_WAITING` message that the
reload button posts is recorded in the trace, but no worker state reacts to
it.

## Model

| member | source | states |
|---|---|---|
| `CacheApi.MatchIn` | sw.js:30 | `caches.match`: finds a response exactly when some cache in the order holds the URL, and returns the entry of the first such cache |
| `CacheApi.Match` | sw.js:30 | `caches.match` over the storage's creation order: what it returns is the entry some existing cache holds for the URL |
| `CacheApi.MatchAnyCache` | sw.js:30 | in well-formed storage, a match exists exactly when any named cache holds the URL, and the result is held by such a cache |
| `CacheApi.Opened` | sw.js:14 | `caches.open`: an existing name leaves the storage as it is; an absent name adds a new, empty cache placed last in the creation order; every other cache keeps its contents |
| `CacheApi.Stored` | sw.js:42 | `cache.put`: the URL holds the new response, every other entry and every other cache is unchanged, and no cache is added |
| `CacheApi.Without` | sw.js:64 | the creation order minus one name keeps every other name and stays duplicate-free |
| `CacheApi.WithoutAppend` | sw.js:64 | removing a name acts on each part of the order separately, so the remaining names keep their relative order |
| `CacheApi.WithoutAbsent` | sw.js:64 | removing a name that is not in the order leaves the order as it is |
| `CacheApi.Deleted` | sw.js:64 | `caches.delete`: exactly that name disappears, the remaining caches keep their contents, and the creation order loses that name and nothing else (`Without`) |
| `CacheApi.AddAllAccepts` | sw.js:17 | the response check of `addAll`: a network error, type "error", a status outside 200–299 and status 206 reject; its effect is stated by `CacheApi.AddAllAtomic` |
| `CacheApi.PutEach` | sw.js:17 | putting each fetched response adds exactly the listed URLs, each holding its network response, and leaves other entries alone |
| `CacheApi.AddedAll` | sw.js:17 | `addAll` as a value: the new cache, or a rejection; its properties are stated by `CacheApi.AddAllAtomic` |
| `CacheApi.AddAllAtomic` | sw.js:17 | `addAll` succeeds exactly when every fetch passes and there are no duplicate requests; on success each URL holds its response; on failure nothing is added |
| `CacheApi.AddAllIntoEmpty` | sw.js:17 | `addAll` into an empty cache leaves exactly one entry per URL |
| `CacheApi.CacheStorage.constructor` | sw.js:14 | the storage starts empty and well formed |
| `CacheApi.CacheStorage.Open` | sw.js:14 | in place, the storage becomes `Opened` of the old storage |
| `CacheApi.CacheStorage.Put` | sw.js:42 | in place, the storage becomes `Stored` of the old storage |
| `CacheApi.CacheStorage.Delete` | sw.js:64 | in place, the storage becomes `Deleted` of the old storage, and the result says whether the cache existed |
| `CacheApi.CacheStorage.AddAll` | sw.js:17 | the fetch loop then the put loop; the cache changes only on success, and then to the all-or-nothing result |
| `CacheWorker.InstallStep` | sw.js:12-20 | the install handler as a value: it succeeds exactly when the manifest has no duplicates and every fetch passes the `addAll` check; `CACHE_NAME` exists afterwards in any case; every other cache is unchanged; well-formed storage stays well formed |
| `CacheWorker.InstallFillsManifest` | sw.js:12-20 | after a successful install, the order is that of opening `CACHE_NAME`; its key set is its old keys plus the manifest URLs; each manifest URL holds its response and each other old entry is kept; other caches are untouched |
| `CacheWorker.InstallSucceedsIff` | sw.js:2-17 | with the shipped manifest, install succeeds exactly when every manifest fetch passes the `addAll` check |
| `CacheWorker.InstallFailureAddsNothing` | sw.js:13-18 | a failed install adds no entry to any cache; at most an empty `CACHE_NAME` appears |
| `CacheWorker.PutEachIdempotent` | sw.js:17 | putting the same fetched responses twice equals putting them once |
| `CacheWorker.InstallIdempotent` | sw.js:12-20 | installing again with the same manifest and network answers leaves the same storage and outcome, so no entry is duplicated or lost |
| `CacheWorker.InstallFreshCacheSize` | sw.js:12-20 | installing when `CACHE_NAME` does not exist yields exactly one entry per manifest URL |
| `CacheWorker.Install` | sw.js:12-20 | the install handler opens `CACHE_NAME`, runs `addAll` of the manifest, and equals `InstallStep`, keeping the storage well formed |
| `CacheWorker.Cacheable` | sw.js:41 | the guard on `cache.put`: status 200, or type opaque; what it decides is stated by `CacheWorker.MissStoresCacheable` and `CacheWorker.MissSkipsUncacheable` |
| `CacheWorker.FetchStep` | sw.js:23-54 | the fetch handler as a value: the network is used exactly for a GET that misses every cache; only non-GET requests pass through; "no response" exactly on a network error after a miss; no cache disappears, only `CACHE_NAME` can appear, and every other cache is unchanged |
| `CacheWorker.NonGetIgnored` | sw.js:24-27 | a non-GET request gets no response from the worker, the network is not used, and storage is unchanged |
| `CacheWorker.HitServesCache` | sw.js:30-34 | if any cache holds the URL, a response held for it is returned, the network is not consulted (the result does not depend on it), and storage is unchanged |
| `CacheWorker.MissStoresCacheable` | sw.js:37-45 | on a miss, a response with status 200 or type opaque is returned and stored under the URL in `CACHE_NAME`; the order is that of opening `CACHE_NAME`; all other caches and entries are unchanged |
| `CacheWorker.MissSkipsUncacheable` | sw.js:39-44 | on a miss, a response with any other status and type is returned but no entry is stored anywhere |
| `CacheWorker.MissOfflineFails` | sw.js:46-51 | on a miss with a network error the result is "no response", not an empty success, and storage is unchanged |
| `CacheWorker.FetchKeepsWellFormed` | sw.js:23-54 | every fetch keeps the storage well formed |
| `CacheWorker.HandleFetch` | sw.js:23-54 | the fetch handler's outcome, network use and new storage equal `FetchStep` |
| `CacheWorker.SweepNames` | sw.js:60-67 | the sweep after visiting some names in order: exactly the visited names other than `CACHE_NAME` are gone, the rest keep their contents, and the storage stays well formed |
| `CacheWorker.SweepNamesForm` | sw.js:60-67 | deleting, in order, the visited names that are not whitelisted leaves exactly the unvisited or whitelisted caches, in their order |
| `CacheWorker.Swept` | sw.js:57-69 | the reference result of activation, `CACHE_NAME` alone if it exists; its properties are stated by `CacheWorker.SweptKeepsOnlyCurrent` |
| `CacheWorker.SweepAllIsSwept` | sw.js:57-69 | sweeping every name `caches.keys()` lists leaves at most `CACHE_NAME`, with its contents |
| `CacheWorker.SweptKeepsOnlyCurrent` | sw.js:57-69 | after activation the cache names are the old names intersected with {`CACHE_NAME`}, and `CACHE_NAME`'s contents are untouched |
| `CacheWorker.SweptIdempotent` | sw.js:62-66 | sweeping twice gives the storage that sweeping once gives |
| `CacheWorker.SweptOnlyCurrentUnchanged` | sw.js:58-66 | when `CACHE_NAME` is the only cache, activation deletes nothing |
| `CacheWorker.Activate` | sw.js:57-70 | the sweep loop over `caches.keys()` deletes every non-whitelisted cache, and its result equals the reference `Swept` |
| `UpdateFlow.Step` | app.js:4-44 | one host event and its handler: the trace only grows, by at most one effect; support and the banner's presence never change; a registration or a watched worker is never forgotten |
| `UpdateFlow.Run` | app.js:4-44 | a sequence of events: the trace only grows, by at most one effect per event, with the same invariants as `Step` |
| `UpdateFlow.RegistrationWatchesInstalling` | app.js:4-11 | a registration is remembered exactly when service workers exist and `register` succeeded; a worker becomes watched only as the installing worker of an `updatefound` after a successful registration, and then always does |
| `UpdateFlow.BannerRule` | app.js:13 | the `statechange` guard: the worker is installed and a controller exists; its effect is stated by `UpdateFlow.BannerShownExactly` |
| `UpdateFlow.ShowUpdateBanner` | app.js:33-45 | `showUpdateBanner` as a value: with both elements in the page, the banner is shown and the button armed, otherwise nothing; stated by `UpdateFlow.BannerShownExactly` and `UpdateFlow.RunKeepsButton` |
| `UpdateFlow.BannerShownExactly` | app.js:11-16 | a state change shows the banner exactly when the watched worker is installed, a controller exists and the banner is in the page, and has no other effect |
| `UpdateFlow.FirstInstallNoBanner` | app.js:11-16 | while no controller exists (a first install), no sequence of events shows the banner |
| `UpdateFlow.StepKeepsLatch` | app.js:23-29 | each event keeps the latch in step with the trace; the latch becomes set exactly on a handled `controllerchange` |
| `UpdateFlow.ReloadOnce` | app.js:23-29 | over any events, the trace holds one reload if the latch was set or a `controllerchange` arrives, and never more |
| `UpdateFlow.ReloadOnceFromLoad` | app.js:3-29 | from page load, one reload exactly when at least one `controllerchange` arrives and service workers are supported, otherwise none |
| `UpdateFlow.RunKeepsButton` | app.js:33-44 | the reload button is armed exactly when the banner has been shown, over any events |
| `UpdateFlow.ClickPostsOnce` | app.js:41-44 | a click posts exactly one `SKIP_WAITING` when a waiting worker exists and the banner was shown, and none otherwise |
| `UpdateFlow.PageController.constructor` | app.js:2-31 | page load starts with no handlers set, the latch clear and an empty trace |
| `UpdateFlow.PageController.OnRegistration` | app.js:4-21 | a settled registration sets `onupdatefound` only on success and only where service workers exist |
| `UpdateFlow.PageController.OnUpdateFound` | app.js:6-10 | an installing worker, when there is one, gets a `statechange` handler |
| `UpdateFlow.PageController.OnStateChange` | app.js:11-17 | the state-change handler follows `Step` |
| `UpdateFlow.PageController.ShowBanner` | app.js:33-40 | the banner is shown and the button armed only when both elements exist |
| `UpdateFlow.PageController.OnControllerChange` | app.js:25-29 | the `controllerchange` listener reloads unless the latch is set, then sets it |
| `UpdateFlow.PageController.OnReloadClick` | app.js:41-44 | the button posts `SKIP_WAITING` only when armed and a waiting worker exists |
| `PrayerData.IntToString` | app.js:75 | how the template literal writes an integer: a minus sign for negatives, then the decimal numeral; stated injective by `PrayerData.IntToStringInjective` |
| `PrayerData.NatDigitsInjective` | app.js:75 | distinct natural numbers have distinct decimal numerals |
| `PrayerData.IntToStringInjective` | app.js:75 | distinct integers are written as distinct strings |
| `PrayerData.SplitAtSeparator` | app.js:75 | two strings joined by "_" split back uniquely when the left one has no "_" |
| `PrayerData.StorageKey` | app.js:75 | the month's localforage key `"prayerTrackerData_" + year + "_" + month`; that it is injective is `PrayerData.StorageKeyInjective` |
| `PrayerData.StorageKeyInjective` | app.js:75 | the storage key `"prayerTrackerData_" + year + "_" + month` is injective in (year, month) |
| `PrayerData.FullYear` | app.js:83 | the Date constructor's year: 0 to 99 stand for 1900 to 1999; its effect is stated by `PrayerData.TwoDigitYears` |
| `PrayerData.DaysInMonth` | app.js:83 | taking the year as the `Date` constructor does: February has 28 days in a common year and 29 in a leap year; April, June, September and November have 30; every other month has 31 |
| `PrayerData.TwoDigitYears` | app.js:83 | the years 0 to 99 have the month lengths of 1900 to 1999, so February of year 0 has 28 days |
| `PrayerData.Blank` | app.js:91 | `Array(prayers.length).fill(false)`: five slots, none done; stated by `PrayerData.InitialisedDays` |
| `PrayerData.Loaded` | app.js:76 | the stored month, or the empty month `{}` when the key is absent |
| `PrayerData.Initialised` | app.js:86-92 | the month data once each day 1..n has an entry; its properties are stated by `PrayerData.InitialisedDays` |
| `PrayerData.InitialisedDays` | app.js:86-92 | after rendering, every day 1..daysInMonth has an entry, missing days get five `false`s, present days are unchanged, and nothing else is added |
| `PrayerData.InitialisedIdempotent` | app.js:90-92 | filling the missing days twice equals filling them once |
| `PrayerData.Slot` | app.js:138 | whether a slot reads as done: a present `true`, with a slot past the end reading as not done; used by `PrayerData.SetSlot` and `PrayerData.ToggleFlipsOneSlot` |
| `PrayerData.SetSlot` | app.js:144 | assigning one slot sets it, leaves every other slot reading as before, and extends a short array as JavaScript does |
| `PrayerData.Toggled` | app.js:142-144 | the click handler's update, the flip of one slot; its properties are stated by `PrayerData.ToggleFlipsOneSlot` |
| `PrayerData.ToggleFlipsOneSlot` | app.js:142-145 | a click flips exactly that day's slot; every other day and slot is unchanged |
| `PrayerData.CountTrue` | app.js:179 | no more prayers are done than the day has slots |
| `PrayerData.TallyOf` | app.js:175-181 | the month's completed count never exceeds its total |
| `PrayerData.TallySplit` | app.js:175-181 | the sums do not depend on the order the days are visited in |
| `PrayerData.RoundHalfUp` | app.js:183 | `Math.round` over exact rationals: the floor of x + 0.5; used by `PrayerData.PercentIsRounded` |
| `PrayerData.Percent` | app.js:183 | the completion percentage in integer arithmetic; that it is the rounded share is `PrayerData.PercentIsRounded` |
| `PrayerData.PercentIsRounded` | app.js:183 | the percentage is 0 when the total is 0, and otherwise `round(100*completed/total)` with halves rounded up |
| `PrayerData.PercentBounded` | app.js:183 | with completed ≤ total, the percentage lies in 0..100 |
| `PrayerData.StatsOf` | app.js:170-183 | one month's total, completed and percentage; its consistency is `PrayerData.StatsConsistent` |
| `PrayerData.StatsConsistent` | app.js:170-183 | each month's statistics satisfy completed ≤ total, 0 % without slots, the rounded share otherwise, and 0..100 |
| `PrayerData.TallyMonth` | app.js:172-181 | the accumulation loop over a month's days computes exactly the total and completed sums |
| `PrayerData.PrayerTracker.constructor` | app.js:51-64 | the page starts with the given store and no month rendered |
| `PrayerData.PrayerTracker.RenderMonth` | app.js:75-92 | the month is loaded (or `{}`), its missing days are filled, and only that month's key is written back |
| `PrayerData.PrayerTracker.Click` | app.js:142-146 | a click flips one slot and saves the month under its own key only |
| `PrayerData.PrayerTracker.AnnualView` | app.js:160-183 | the twelve months of a year get the statistics of their stored data, missing data counting as `{}` |

## Left out

- DOM work is not modelled: templates, class toggling, element lookup, scrolling and timers. The checked class of a button is modelled only through the slot it mirrors, and a click flips that slot.
- `toLocaleDateString` is left abstract: the day label is the injective `DayKey`, and the month header is not modelled.
- Month and year navigation through `Date.setMonth` and `setFullYear` is left out. It relies on JavaScript Date overflow, which is library behaviour.
- Service-worker registration and lifecycle scheduling are host-driven, so worker states arrive as event inputs.
- The `event.waitUntil` and `respondWith` promise plumbing and `console` logging are left out.
- Concurrency between overlapping fetches and cache writes is left out, including last-write-wins races.
- `cache.put` in the fetch handler is not awaited. The model performs the write before the response is returned.
- Response bodies are values, so `clone()` has no counterpart.
- Request matching uses the URL alone. Headers, `Vary`, query options and the stored request's method are not modelled, and neither is `addAll`'s `Vary: *` rejection.
- Relative manifest URLs are not resolved against the worker's scope, and `addAll`'s check on the URL scheme is left out.
- `Math.round((c / t) * 100)` is computed over exact rationals, not floating point.
- Failures of localforage reads and writes are not modelled, and saves are not awaited.
- CacheStorage errors are not modelled: a quota error or disabled storage never rejects `caches.open`, `cache.put` or `addAll`. In the source, a rejected `caches.open` on the miss path fails the request even though the network answered. The same rejection during install fails the install. A rejected `cache.put` stores nothing.
- Stored values are typed as month data, so values of any other shape cannot occur.
- The day label's year is the year argument as given. For the years 0 to 99 the source's label names a year of the 1900s. Labels are compared only within one month's data, where every label has the same year, so this changes no lookup.
- `PrayerData.PrayerTracker.RenderMonth` requires a month in 0..11, the only values `getMonth` produces.
- `CacheWorker.HitServesCache` says only that the response comes from some cache holding the URL. Which cache (the first in creation order) is stated by `CacheApi.MatchIn`.
