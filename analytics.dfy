/**
 * The analytics counter store: a table of named integer counters kept in one
 * local-storage blob, read by merging the stored record over the module-level
 * `defaultAnalytics` object, and written back whole with an
 * `analytics-updated` signal after every change.
 *
 * The `defaultAnalytics` object is modelled as an object (`Record`) because
 * the store hands that very object to its callers when the blob is missing or
 * unreadable, and `trackEvent` then updates it in place.
 */
module Analytics {

  /** The seven counters of `AnalyticsData`. */
  datatype Counter =
    | TotalVisits
    | ProductViews
    | CartAdds
    | WishlistAdds
    | WishlistRemovals
    | Purchases
    | WorkshopBookings

  /** The property name of a counter in the stored record. */
  function Key(c: Counter): string
  {
    match c
    case TotalVisits => "totalVisits"
    case ProductViews => "productViews"
    case CartAdds => "cartAdds"
    case WishlistAdds => "wishlistAdds"
    case WishlistRemovals => "wishlistRemovals"
    case Purchases => "purchases"
    case WorkshopBookings => "workshopBookings"
  }

  /** The property names of all seven counters. */
  function CounterKeys(): set<string>
  {
    {"totalVisits", "productViews", "cartAdds", "wishlistAdds",
     "wishlistRemovals", "purchases", "workshopBookings"}
  }

  /** The initial contents of `defaultAnalytics`. */
  function ZeroRecord(): map<string, int>
  {
    map["totalVisits" := 0, "productViews" := 0, "cartAdds" := 0,
        "wishlistAdds" := 0, "wishlistRemovals" := 0, "purchases" := 0,
        "workshopBookings" := 0]
  }

  /** The initial defaults record holds exactly the seven counters, each 0. */
  lemma ZeroRecordIsSevenZeros()
    ensures ZeroRecord().Keys == CounterKeys()
    ensures |ZeroRecord()| == 7
    ensures forall c: Counter :: Key(c) in ZeroRecord() && ZeroRecord()[Key(c)] == 0
    ensures forall k :: k in ZeroRecord() ==> exists c: Counter :: Key(c) == k
  {
    var z := ZeroRecord();
    assert z.Keys == CounterKeys();
    assert Key(TotalVisits) in z && Key(ProductViews) in z && Key(CartAdds) in z;
    assert Key(WishlistAdds) in z && Key(WishlistRemovals) in z;
    assert Key(Purchases) in z && Key(WorkshopBookings) in z;
    forall k | k in z
      ensures exists c: Counter :: Key(c) == k
    {
      if k == "totalVisits" { assert Key(TotalVisits) == k; }
      else if k == "productViews" { assert Key(ProductViews) == k; }
      else if k == "cartAdds" { assert Key(CartAdds) == k; }
      else if k == "wishlistAdds" { assert Key(WishlistAdds) == k; }
      else if k == "wishlistRemovals" { assert Key(WishlistRemovals) == k; }
      else if k == "purchases" { assert Key(Purchases) == k; }
      else { assert Key(WorkshopBookings) == k; }
    }
  }

  /**
   * What `localStorage.getItem` yields for the analytics key, seen through
   * `JSON.parse`. `Parsed(fields)` is a non-empty string that parses; its
   * `fields` are the own properties the parsed value contributes to an
   * object spread (none for `null` or a number).
   */
  datatype Blob =
    | Absent
    | Empty
    | Corrupt
    | Parsed(fields: map<string, int>)

  /** The object spread `{ ...base, ...over }`: properties of `over` win. */
  function Spread(base: map<string, int>, over: map<string, int>): (r: map<string, int>)
    ensures r.Keys == base.Keys + over.Keys
    ensures forall k :: k in over ==> r[k] == over[k]
    ensures forall k :: k in base && k !in over ==> r[k] == base[k]
  {
    base + over
  }

  /**
   * True when `getAnalyticsData` returns the `defaultAnalytics` object itself:
   * the blob is missing, is the (falsy) empty string, or fails to parse.
   */
  predicate ReturnsDefaultsObject(b: Blob)
  {
    !b.Parsed?
  }

  /** The contents of the record `getAnalyticsData` returns. */
  function ReadValue(b: Blob, defaults: map<string, int>): (r: map<string, int>)
    ensures ReturnsDefaultsObject(b) ==> r == defaults
    ensures forall k :: k in r <==> k in defaults || (b.Parsed? && k in b.fields)
    ensures forall k :: k in r ==>
      r[k] == if b.Parsed? && k in b.fields then b.fields[k] else defaults[k]
  {
    match b
    case Parsed(fields) => Spread(defaults, fields)
    case _ => defaults
  }

  /**
   * A saved record reads back unchanged as long as it holds every property of
   * the defaults it is spread over.
   */
  lemma SavedRecordReadsBack(defaults: map<string, int>, saved: map<string, int>)
    requires defaults.Keys <= saved.Keys
    ensures ReadValue(Parsed(saved), defaults) == saved
  {
  }

  /** The record `trackEvent` writes: counter `c` raised by `count`. */
  function Bumped(m: map<string, int>, c: Counter, count: int): (r: map<string, int>)
    requires Key(c) in m
    ensures r.Keys == m.Keys
    ensures r[Key(c)] == m[Key(c)] + count
    ensures forall k :: k in m && k != Key(c) ==> r[k] == m[k]
  {
    m[Key(c) := m[Key(c)] + count]
  }

  /** True when a record holds a property for each of the seven counters. */
  predicate HasAllCounters(m: map<string, int>)
  {
    forall c: Counter :: Key(c) in m
  }

  /**
   * The contents of `defaultAnalytics` after the given `trackEvent` calls
   * have updated it in place, oldest first.
   */
  function Replay(m: map<string, int>, tracks: seq<(Counter, int)>): (r: map<string, int>)
    requires HasAllCounters(m)
    ensures r.Keys == m.Keys
    decreases |tracks|
  {
    if tracks == [] then m
    else
      var last := tracks[|tracks| - 1];
      Bumped(Replay(m, tracks[..|tracks| - 1]), last.0, last.1)
  }

  /** The sum of the counts the given updates added to counter `c`. */
  function SumFor(tracks: seq<(Counter, int)>, c: Counter): int
  {
    if tracks == [] then 0
    else
      var last := tracks[|tracks| - 1];
      SumFor(tracks[..|tracks| - 1], c) + (if last.0 == c then last.1 else 0)
  }

  /** After replaying updates, each counter is its start value plus the counts added to it. */
  lemma {:induction false} ReplayAt(m: map<string, int>, tracks: seq<(Counter, int)>, c: Counter)
    requires HasAllCounters(m)
    ensures Key(c) in Replay(m, tracks)
    ensures Replay(m, tracks)[Key(c)] == m[Key(c)] + SumFor(tracks, c)
    decreases |tracks|
  {
    if tracks != [] {
      var init := tracks[..|tracks| - 1];
      var last := tracks[|tracks| - 1];
      ReplayAt(m, init, c);
      if last.0 != c {
        assert Key(last.0) != Key(c);
      }
    }
  }

  /**
   * After a confirmed reset the store reads back the defaults object; it is
   * all zeros exactly when the in-place updates it received cancel out for
   * every counter.
   */
  lemma ReadAfterResetZeroIff(tracks: seq<(Counter, int)>)
    ensures HasAllCounters(ZeroRecord())
    ensures (forall c: Counter :: SumFor(tracks, c) == 0) ==>
      ReadValue(Absent, Replay(ZeroRecord(), tracks)) == ZeroRecord()
    ensures ReadValue(Absent, Replay(ZeroRecord(), tracks)) == ZeroRecord() ==>
      forall c: Counter :: SumFor(tracks, c) == 0
  {
    ZeroRecordIsSevenZeros();
    var d := Replay(ZeroRecord(), tracks);
    assert ReadValue(Absent, d) == d;
    if forall c: Counter :: SumFor(tracks, c) == 0 {
      forall k | k in d
        ensures d[k] == ZeroRecord()[k]
      {
        var c: Counter :| Key(c) == k;
        ReplayAt(ZeroRecord(), tracks, c);
      }
      assert d == ZeroRecord();
    }
    if d == ZeroRecord() {
      forall c: Counter
        ensures SumFor(tracks, c) == 0
      {
        ReplayAt(ZeroRecord(), tracks, c);
        assert ZeroRecord()[Key(c)] == 0;
        assert d[Key(c)] == 0;
      }
    }
  }

  /** A JavaScript object holding analytics counters, updated in place. */
  class Record {
    var fields: map<string, int>

    constructor (fields: map<string, int>)
      ensures this.fields == fields
    {
      this.fields := fields;
    }
  }

  /**
   * The store: the blob under the analytics key, the `defaultAnalytics`
   * object, and the number of `analytics-updated` signals dispatched.
   */
  class Store {
    var stored: Blob
    const defaults: Record
    var events: nat
    /** The `trackEvent` calls that updated `defaultAnalytics` in place, oldest first. */
    ghost var aliasedTracks: seq<(Counter, int)>

    ghost predicate Valid()
      reads this, defaults
    {
      HasAllCounters(ZeroRecord())
      && HasAllCounters(defaults.fields)
      && defaults.fields == Replay(ZeroRecord(), aliasedTracks)
    }

    /** Page load: `defaultAnalytics` as written in the module, storage as found. */
    constructor (initial: Blob)
      ensures Valid() && fresh(defaults)
      ensures stored == initial && events == 0
      ensures defaults.fields == ZeroRecord() && aliasedTracks == []
    {
      ZeroRecordIsSevenZeros();
      stored := initial;
      defaults := new Record(ZeroRecord());
      events := 0;
      aliasedTracks := [];
    }

    /**
     * `getAnalyticsData`: the defaults object itself when the blob is missing,
     * empty or corrupt (the parse error is swallowed); otherwise a new object
     * with the stored properties spread over the defaults.
     */
    method Read() returns (r: Record)
      ensures r.fields == ReadValue(stored, defaults.fields)
      ensures ReturnsDefaultsObject(stored) ==> r == defaults
      ensures !ReturnsDefaultsObject(stored) ==> fresh(r)
    {
      match stored
      case Parsed(fields) =>
        r := new Record(Spread(defaults.fields, fields));
      case _ =>
        r := defaults;
    }

    /** `saveAnalyticsData`: store the whole record and signal once. */
    method Save(data: Record)
      modifies this
      ensures stored == Parsed(data.fields)
      ensures events == old(events) + 1
      ensures aliasedTracks == old(aliasedTracks)
    {
      stored := Parsed(data.fields);
      events := events + 1;
    }

    /**
     * `trackEvent`: read, add `count` to one counter of the record read, save.
     * When the read handed back the defaults object, that object keeps the
     * update too.
     */
    method TrackEvent(c: Counter, count: int := 1)
      requires Valid()
      modifies this, defaults
      ensures Valid()
      ensures stored == Parsed(Bumped(old(ReadValue(stored, defaults.fields)), c, count))
      ensures ReadValue(stored, defaults.fields)
           == Bumped(old(ReadValue(stored, defaults.fields)), c, count)
      ensures events == old(events) + 1
      ensures ReturnsDefaultsObject(old(stored)) ==>
        aliasedTracks == old(aliasedTracks) + [(c, count)]
        && defaults.fields == Bumped(old(defaults.fields), c, count)
      ensures !ReturnsDefaultsObject(old(stored)) ==>
        aliasedTracks == old(aliasedTracks) && defaults.fields == old(defaults.fields)
    {
      ghost var tracks := aliasedTracks;
      var data := Read();
      data.fields := Bumped(data.fields, c, count);
      if data == defaults {
        aliasedTracks := aliasedTracks + [(c, count)];
        assert aliasedTracks[..|aliasedTracks| - 1] == tracks;
        assert defaults.fields == Replay(ZeroRecord(), aliasedTracks);
      }
      Save(data);
      SavedRecordReadsBack(defaults.fields, data.fields);
    }

    /**
     * `resetAnalytics`: when the user confirms, remove the blob and signal
     * once; when the user declines, do nothing. `confirmed` is the answer
     * to the confirmation dialog.
     */
    method Reset(confirmed: bool)
      modifies this
      ensures confirmed ==> stored == Absent && events == old(events) + 1
      ensures !confirmed ==> stored == old(stored) && events == old(events)
      ensures aliasedTracks == old(aliasedTracks)
    {
      if confirmed {
        stored := Absent;
        events := events + 1;
      }
    }

    /**
     * The read a corrected `getAnalyticsData` would perform: a new object on
     * every path (`{ ...defaultAnalytics }` on the fallback paths).
     */
    method ReadCopy() returns (r: Record)
      ensures fresh(r)
      ensures r.fields == ReadValue(stored, defaults.fields)
    {
      match stored
      case Parsed(fields) =>
        r := new Record(Spread(defaults.fields, fields));
      case _ =>
        r := new Record(defaults.fields);
    }

    /** `trackEvent` over the corrected read: the defaults object never changes. */
    method TrackEventCopying(c: Counter, count: int := 1)
      requires Valid()
      modifies this
      ensures Valid()
      ensures stored == Parsed(Bumped(old(ReadValue(stored, defaults.fields)), c, count))
      ensures ReadValue(stored, defaults.fields)
           == Bumped(old(ReadValue(stored, defaults.fields)), c, count)
      ensures events == old(events) + 1
      ensures aliasedTracks == old(aliasedTracks)
      ensures defaults.fields == old(defaults.fields)
    {
      var data := ReadCopy();
      data.fields := Bumped(data.fields, c, count);
      Save(data);
      SavedRecordReadsBack(defaults.fields, data.fields);
    }
  }

  /**
   * Three purchases tracked from empty storage read back as `purchases` 3
   * with every other counter still 0.
   */
  method ThreePurchases() returns (data: map<string, int>)
    ensures HasAllCounters(data)
    ensures data[Key(Purchases)] == 3
    ensures forall c: Counter :: c != Purchases ==> data[Key(c)] == 0
  {
    var store := new Store(Absent);
    store.TrackEvent(Purchases);
    store.TrackEvent(Purchases);
    store.TrackEvent(Purchases);
    var r := store.Read();
    data := r.fields;
  }

  /**
   * A first visit (the application counts a visit on mount) followed by a
   * confirmed reset: the dashboard then reads `totalVisits` as 1, not 0.
   */
  method FirstVisitThenReset() returns (visits: int)
    ensures visits == 1
  {
    var store := new Store(Absent);
    store.TrackEvent(TotalVisits);
    store.Reset(true);
    var data := store.Read();
    visits := data.fields[Key(TotalVisits)];
  }

  /** The same sequence over the corrected read: the reset reads back zero. */
  method FirstVisitThenResetCopying() returns (visits: int)
    ensures visits == 0
  {
    var store := new Store(Absent);
    store.TrackEventCopying(TotalVisits);
    store.Reset(true);
    var data := store.Read();
    visits := data.fields[Key(TotalVisits)];
  }

  /**
   * Over the corrected operations the defaults object keeps its initial
   * zeros, so every confirmed reset reads back all zeros.
   */
  lemma CopyingResetReadsZeros(s: Store)
    requires s.Valid() && s.aliasedTracks == []
    ensures ReadValue(Absent, s.defaults.fields) == ZeroRecord()
  {
  }
}
