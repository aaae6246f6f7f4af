# Storefront analytics, toasts and admin guard — a Dafny model

This project models three pieces of a client-side storefront:

- **The analytics counter store** (`services/analytics.ts`). Seven named
  integer counters live in one local-storage blob. `getAnalyticsData` spreads
  the stored record over the module-level `defaultAnalytics` object.
  `saveAnalyticsData` writes the whole record and dispatches one
  `analytics-updated` signal. `trackEvent` is a read-modify-write on one
  counter. `resetAnalytics` removes the blob and signals, but only when the
  user confirms.
- **The toast list** (`components/ToastNotification.tsx`). A `show-toast`
  event appends a toast whose id is the current millisecond timestamp. A
  timeout later removes every toast with that id.
- **The admin route guard** (`components/AdminProtectedRoute.tsx`). It sends a
  visitor to `/login` or `/`, or renders the admin page.

Files:

- `analytics.dfy`, module `Analytics`. `Store` is a class with three real
  fields: `stored`, a `Blob` (`Absent | Empty | Corrupt | Parsed(map)`); the
  `defaults` object, a `Record` whose `fields` map is updated in place; and
  `events`, the number of signals dispatched. The defaults are an object, not
  a constant, because `getAnalyticsData` returns that very object when the
  blob is missing, empty or corrupt, and `trackEvent` then changes it. A ghost
  field `aliasedTracks` lists the `trackEvent` calls that changed it. `Valid()`
  ties the defaults to the zero record with those calls replayed over it.
- `toasts.dfy`, module `Toasts`. The two updaters are the functions `Appended`
  and `Expired`, and the component's state is the class `ToastList`.
- `admin_guard.dfy`, module `AdminGuard`. The guard is a pure function.

Environment inputs are parameters:

- the answer to `window.confirm` is `Reset`'s `confirmed`;
- `Date.now()` is `Show`'s `now`;
- `getUserProfile()` and `isAdmin()` become `Decide`'s two booleans;
- what `localStorage` holds at page load is the `Store` constructor's `initial`.

Two points where the code does less than its comments suggest:

- The comment on `resetAnalytics` says the data goes back to default values,
  and `defaultAnalytics` is all zeros. But a read after a reset returns the
  current contents of the `defaultAnalytics` object. That object stops being
  all zeros once `trackEvent` has run against missing or corrupt storage (see
  Findings). The model follows the code.
- `trackEvent` adds any `count`, with no sign check. The model therefore
  proves no property that counters are non-negative or only grow.

## Model

| member | source | states |
|---|---|---|
| `Analytics.ZeroRecordIsSevenZeros` | services/analytics.ts:6-14 | the initial defaults record has exactly the seven counter keys, seven entries, each 0 |
| `Analytics.Spread` | services/analytics.ts:25 | object spread: the keys of both records, the stored value wins, a default survives only where the stored record lacks the key |
| `Analytics.ReadValue` | services/analytics.ts:21-30 | absent, empty or unparseable blob: the read is the current defaults record; parsed blob: every stored key (known or unknown) overrides, missing counters take the default |
| `Analytics.SavedRecordReadsBack` | services/analytics.ts:21-40 | a saved record holding every default key reads back exactly as saved |
| `Analytics.Bumped` | services/analytics.ts:50 | counter `e` becomes its read value plus `count`; every other key keeps its value; no key is added or removed |
| `Analytics.Replay` | services/analytics.ts:50 | in-place updates of the defaults object never add or remove a key |
| `Analytics.ReplayAt` | services/analytics.ts:47-52 | after in-place updates, each default counter is 0 plus the sum of the counts that `trackEvent` calls added to it through the shared object |
| `Analytics.ReadAfterResetZeroIff` | services/analytics.ts:57-64 | a read after a confirmed reset is all zeros if and only if, for every counter, the counts added to the shared defaults object sum to 0 |
| `Analytics.Store.constructor` | services/analytics.ts:6-14 | page load: the defaults object is a fresh zero record; storage is as found; no signal yet |
| `Analytics.Store.Read` | services/analytics.ts:21-30 | returns the record `ReadValue` gives; on an absent, empty or corrupt blob the result is the defaults object itself (same reference), otherwise a new object; nothing changes and nothing is raised |
| `Analytics.Store.Save` | services/analytics.ts:36-40 | the blob becomes the given record unchanged, and the signal count rises by exactly one |
| `Analytics.Store.TrackEvent` | services/analytics.ts:47-52 | `count` defaults to 1; the stored record is the previous read with counter `e` raised by `count` and all else equal; a read afterwards returns exactly that; one signal; when storage was absent, empty or corrupt, the defaults object carries the same update |
| `Analytics.Store.Reset` | services/analytics.ts:57-64 | confirmed: the blob is removed and exactly one signal is sent; declined: nothing changes and no signal; repeating a confirmed reset leaves the blob removed and signals again |
| `Analytics.ThreePurchases` | services/analytics.ts:47-52 | from empty storage, three `trackEvent('purchases')` calls read back purchases 3 and every other counter 0 |
| `Analytics.FirstVisitThenReset` | App.tsx:36 | the visit counted on first mount, then a confirmed reset: the dashboard reads `totalVisits` as 1 |
| `Analytics.Store.ReadCopy` | services/analytics.ts:25-28 | corrected read: always a new object, with the same contents as `getAnalyticsData` |
| `Analytics.Store.TrackEventCopying` | services/analytics.ts:47-52 | `trackEvent` over the corrected read: stored record, read-back and signal as in `TrackEvent`, and the defaults object never changes |
| `Analytics.FirstVisitThenResetCopying` | App.tsx:36 | the same first visit and reset over the corrected read: `totalVisits` reads back 0 |
| `Analytics.CopyingResetReadsZeros` | services/analytics.ts:59 | while no update has reached the defaults object, a read after a confirmed reset is the zero record |
| `Toasts.KindOrDefault` | components/ToastNotification.tsx:17 | an event without a type gives a `success` toast; otherwise the event's type is kept |
| `Toasts.Decimal` | components/ToastNotification.tsx:18 | `toString` of a timestamp is a non-empty string of decimal digits, with no leading zero |
| `Toasts.DecimalRoundTrip` | components/ToastNotification.tsx:18 | reading the decimal id back gives the timestamp |
| `Toasts.IdsDistinct` | components/ToastNotification.tsx:18 | two toast ids are equal if and only if they were created in the same millisecond |
| `Toasts.NewToast` | components/ToastNotification.tsx:17-20 | a new toast carries the timestamp id, the event's message and the defaulted type |
| `Toasts.Appended` | components/ToastNotification.tsx:20 | adding a toast appends exactly one element at the end and keeps every earlier toast in order |
| `Toasts.Expired` | components/ToastNotification.tsx:24 | expiry never lengthens the list |
| `Toasts.ExpiredMembers` | components/ToastNotification.tsx:24 | a toast survives expiry of id `i` if and only if it was listed and its id is not `i` |
| `Toasts.ExpiredCounts` | components/ToastNotification.tsx:24 | after expiry of id `i`, toasts with id `i` occur 0 times and every other toast as often as before |
| `Toasts.ExpiredAbsentId` | components/ToastNotification.tsx:24 | expiring an id no toast carries leaves the list unchanged |
| `Toasts.ExpiredConcat` | components/ToastNotification.tsx:24 | expiry of a concatenation is the concatenation of the expiries, so the kept toasts stay in their original relative order |
| `Toasts.ExpiredIdempotent` | components/ToastNotification.tsx:24 | expiring the same id twice is the same as expiring it once |
| `Toasts.SameMillisecondExpiry` | components/ToastNotification.tsx:18-24 | two toasts shown in the same millisecond share an id, so the first expiry removes both, and the earlier toasts are filtered as usual |
| `Toasts.ToastList.constructor` | components/ToastNotification.tsx:11 | the toast list starts empty |
| `Toasts.ToastList.Show` | components/ToastNotification.tsx:15-20 | a `show-toast` event appends the new toast to the state and returns the id whose expiry is then scheduled |
| `Toasts.ToastList.Expire` | components/ToastNotification.tsx:23-25 | the expiry timeout replaces the state by the filtered list |
| `Toasts.SameMillisecondShows` | components/ToastNotification.tsx:18-24 | two toasts shown in one millisecond, then the first expiry: no toast is left |
| `AdminGuard.Decide` | components/AdminProtectedRoute.tsx:14-26 | no user: redirect to `/login` whatever the admin flag; user but not admin: redirect to `/`; children are rendered if and only if a user is present and is an admin; exactly one outcome |

## Left out

- JSON encoding and decoding. The blob is taken as its parse outcome. `Parsed`
  carries the properties the parsed value spreads, so `null` and numbers
  contribute none. A JSON string or array would spread index properties. Those
  properties are kept in the map, but with the values restricted to `int`.
- JavaScript type coercion. Every counter value is modelled as an `int`. A
  stored string (`"3" + 1` gives `"31"`), a fractional count, `NaN` and
  `Infinity` (which `JSON.stringify` writes as `null`) are not modelled.
- Monotonic counters. `count` has no sign check, so no property says counters
  only grow.
- `console.error` on a parse failure, `console.log` after a reset, and the
  `console.warn` in the guard are not modelled. They change no state.
- `localStorage.setItem` throwing (for instance over quota) is not modelled.
  The code does not handle it either.
- Cross-tab behaviour: last-writer-wins between tabs and the `storage` event.
- The listeners of `analytics-updated` and the signal's delivery. Only the
  number of signals dispatched is modelled.
- The 3000 ms delay before a toast expires, and the registration and removal
  of the `show-toast` listener. An expiry is modelled as a call the caller
  makes at any later point.
- `Toasts.Decimal`: `Number.prototype.toString` switches to exponent notation
  from 10^21 upwards. Millisecond timestamps never reach that range, so it is
  not modelled.
- Rendering of toasts, of the guard's `Navigate` elements and of the admin
  dashboard.
- `getUserProfile` and `isAdmin` are not part of this model. Their results are
  the guard's inputs.
- `pages/Wishlist.tsx`, `pages/AdminAnalytics.tsx` and `App.tsx` are not part
  of this model. The dashboard's card list (pages/AdminAnalytics.tsx:26-33)
  shows no `wishlistRemovals` card. `App.tsx` matters here only because it
  calls `trackEvent('totalVisits')` on mount.

## Findings

| source | as written | input that shows it | evidently intended | confidence | as-written member | corrected member |
|---|---|---|---|---|---|---|
| services/analytics.ts:21-52 | When the blob is missing, empty or corrupt, `getAnalyticsData` returns the shared `defaultAnalytics` object. `trackEvent` then adds to that object in place. | Empty storage. `trackEvent('totalVisits')` runs, as on the first mount of the application. A confirmed `resetAnalytics` follows, then a read: `totalVisits` is 1. | The fallback returns a copy (`{ ...defaultAnalytics }`), so a read after a confirmed reset is all zeros. | high; not executed | `Analytics.FirstVisitThenReset` | `Analytics.Store.TrackEventCopying` |

The general statement behind the finding is `Analytics.ReadAfterResetZeroIff`.
For any history, a read after a confirmed reset is all zeros exactly when the
updates made through the shared object cancel out.

With the corrected read, `Store.TrackEventCopying` leaves the defaults
object unchanged. `Analytics.CopyingResetReadsZeros` then gives all zeros
after every confirmed reset. `Analytics.FirstVisitThenResetCopying` shows
this on the same input. `Store.TrackEvent` keeps the behaviour as written,
because that is what the storefront does.
