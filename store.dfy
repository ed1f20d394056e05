/**
 * The publish and versioning engine: the integrations table as a map from
 * (id, version) to its row, the append-only download events, and the
 * operations that publish a version, count a download and read the table.
 */
module Store {
  import opened Wrappers
  import opened Models
  import opened Strings
  import opened Sequences

  /** The primary key of a row: (id, version). */
  type Key = (string, string)

  /** The largest value of the int64 downloads column. */
  const MaxInt64: int := 0x7fff_ffff_ffff_ffff

  /** The trending window: seven days, in seconds. */
  const TrendingWindow: int := 7 * 24 * 60 * 60

  datatype StoreError =
    | ListenPathRequired   // "listen_path is required"
    | ListenPathInUse      // ErrListenPathInUse
    | NameInUse            // ErrNameInUse
    | NotFound             // no row matched the query
    | DownloadsOutOfRange  // the bigint downloads column would overflow

  datatype DownloadEvent = DownloadEvent(integrationId: string, createdAt: Time)

  /** The engagement columns carried from one latest version to the next. */
  datatype Stats = Stats(downloads: int, trendingScore: int, featured: bool)

  function StatsOf(row: Integration): Stats {
    Stats(row.downloads, row.trendingScore, row.featured)
  }

  // ---------------------------------------------------------------------
  // Table invariants

  /** Every row sits under its own (id, version). */
  ghost predicate KeysConsistent(rows: map<Key, Integration>) {
    forall k :: k in rows ==> rows[k].id == k.0 && rows[k].version == k.1
  }

  /** At most one row per package id carries the latest flag. */
  ghost predicate OneLatestPerId(rows: map<Key, Integration>) {
    forall k1, k2 ::
      (k1 in rows && k2 in rows && rows[k1].latest && rows[k2].latest && rows[k1].id == rows[k2].id)
      ==> k1 == k2
  }

  /** Latest rows of different packages use different listen paths. */
  ghost predicate LatestListenPathsUnique(rows: map<Key, Integration>) {
    forall k1, k2 ::
      (k1 in rows && k2 in rows && rows[k1].latest && rows[k2].latest && rows[k1].id != rows[k2].id)
      ==> rows[k1].listenPath != rows[k2].listenPath
  }

  /** Latest rows of different packages use different names. */
  ghost predicate LatestNamesUnique(rows: map<Key, Integration>) {
    forall k1, k2 ::
      (k1 in rows && k2 in rows && rows[k1].latest && rows[k2].latest && rows[k1].id != rows[k2].id)
      ==> rows[k1].name != rows[k2].name
  }

  /** Rows under different keys differ, since each row carries its own key. */
  lemma KeysConsistentInjective(rows: map<Key, Integration>)
    requires KeysConsistent(rows)
    ensures Injective(rows)
  {
  }

  /** Download counters fit the int64 column. */
  ghost predicate CountersInRange(rows: map<Key, Integration>) {
    forall k :: k in rows ==> 0 <= rows[k].downloads <= MaxInt64
  }

  ghost predicate TableInvariant(rows: map<Key, Integration>) {
    && KeysConsistent(rows)
    && OneLatestPerId(rows)
    && LatestListenPathsUnique(rows)
    && LatestNamesUnique(rows)
    && CountersInRange(rows)
  }

  // ---------------------------------------------------------------------
  // Queries used by the publish step

  /** Some other package's latest row already uses the listen path (the count query is > 0). */
  predicate ListenPathTaken(rows: map<Key, Integration>, listenPath: string, id: string) {
    exists k :: k in rows && rows[k].listenPath == listenPath && rows[k].latest && rows[k].id != id
  }

  /** Some other package's latest row already uses the name. */
  predicate NameTaken(rows: map<Key, Integration>, name: string, id: string) {
    exists k :: k in rows && rows[k].name == name && rows[k].latest && rows[k].id != id
  }

  /** Some row of the package carries the latest flag. */
  predicate HasLatest(rows: map<Key, Integration>, id: string) {
    exists k :: k in rows && rows[k].id == id && rows[k].latest
  }

  /** The key of the package's latest row, if there is one. */
  ghost function LatestKey(rows: map<Key, Integration>, id: string): (r: Option<Key>)
    ensures r.Some? <==> HasLatest(rows, id)
    ensures r.Some? ==> r.value in rows && rows[r.value].id == id && rows[r.value].latest
  {
    if HasLatest(rows, id) then
      var k :| k in rows && rows[k].id == id && rows[k].latest; Some(k)
    else None
  }

  /** Under the one-latest invariant the latest row of a package is the only candidate. */
  lemma LatestKeyUnique(rows: map<Key, Integration>, id: string, k: Key)
    requires OneLatestPerId(rows)
    requires k in rows && rows[k].id == id && rows[k].latest
    ensures LatestKey(rows, id) == Some(k)
  {
  }

  /** The stats a new version starts from: the latest row's, or zero. */
  ghost function CarriedStats(rows: map<Key, Integration>, id: string): Stats {
    match LatestKey(rows, id)
    case Some(k) => StatsOf(rows[k])
    case None => Stats(0, 0, false)
  }

  // ---------------------------------------------------------------------
  // The state a successful publish leaves behind

  /** The row the upsert inserts for a new (id, version). */
  function RecordFor(req: PublishRequest, verified: bool, stats: Stats, now: Time): Integration {
    Integration(
      req.id, req.version, req.name, req.description, req.manifestUrl, req.manifest,
      req.image, req.images, req.assets, req.listenPath, req.composeFile, req.repoUrl,
      req.releaseTag, req.publisher, verified, true,
      stats.downloads, stats.trendingScore, stats.featured, now, now)
  }

  /** UPDATE integrations SET latest = false WHERE id = ?; the update also stamps updated_at. */
  function ClearLatest(rows: map<Key, Integration>, id: string, now: Time): map<Key, Integration> {
    map k | k in rows :: if rows[k].id == id then rows[k].(latest := false, updatedAt := now) else rows[k]
  }

  /**
   * Upsert on (id, version): an existing row gets every listed column
   * overwritten but keeps its created_at; a new key gets a new row.
   */
  function Upsert(rows: map<Key, Integration>, record: Integration): map<Key, Integration> {
    var key := (record.id, record.version);
    rows[key := if key in rows then record.(createdAt := rows[key].createdAt) else record]
  }

  /**
   * The table after a publish that passed its checks: the package's rows lose the
   * latest flag, then the request is upserted with the stats of the package's
   * latest row as it was before the publish.
   */
  ghost function Published(rows: map<Key, Integration>, req: PublishRequest, verified: bool, now: Time): map<Key, Integration> {
    WriteVersion(rows, req, verified, CarriedStats(rows, req.id), now)
  }

  /** The two writes of the publish transaction, given the stats to carry. */
  function WriteVersion(rows: map<Key, Integration>, req: PublishRequest, verified: bool, stats: Stats, now: Time): map<Key, Integration> {
    Upsert(ClearLatest(rows, req.id, now), RecordFor(req, verified, stats, now))
  }

  /** What PublishIntegration returns: the first failed check, or the stored row. */
  ghost function PublishOutcome(rows: map<Key, Integration>, req: PublishRequest, verified: bool, now: Time): Result<Integration, StoreError> {
    if req.listenPath == "" then Err(ListenPathRequired)
    else if ListenPathTaken(rows, req.listenPath, req.id) then Err(ListenPathInUse)
    else if NameTaken(rows, req.name, req.id) then Err(NameInUse)
    else Ok(Published(rows, req, verified, now)[(req.id, req.version)])
  }

  /** The table PublishIntegration leaves: written only when every check passed. */
  ghost function TableAfterPublish(rows: map<Key, Integration>, req: PublishRequest, verified: bool, now: Time): map<Key, Integration> {
    if PublishOutcome(rows, req, verified, now).Ok? then Published(rows, req, verified, now) else rows
  }

  // ---------------------------------------------------------------------
  // Download counting

  /** The package's download events at or after since (the COUNT(*) query). */
  function RecentCount(events: seq<DownloadEvent>, id: string, since: Time): nat {
    if events == [] then 0
    else
      var last := events[|events| - 1];
      RecentCount(events[..|events| - 1], id, since) + (if last.integrationId == id && last.createdAt >= since then 1 else 0)
  }

  /** Recording one more event of the package inside the window raises its count by one. */
  lemma RecentCountAppend(events: seq<DownloadEvent>, e: DownloadEvent, id: string, since: Time)
    ensures RecentCount(events + [e], id, since)
      == RecentCount(events, id, since) + (if e.integrationId == id && e.createdAt >= since then 1 else 0)
  {
    assert (events + [e])[..|events|] == events;
  }

  /** The event just recorded is inside the window, so the trending score is at least one. */
  lemma TrendingAtLeastOne(events: seq<DownloadEvent>, id: string, now: Time)
    ensures RecentCount(events + [DownloadEvent(id, now)], id, now - TrendingWindow) >= 1
  {
    RecentCountAppend(events, DownloadEvent(id, now), id, now - TrendingWindow);
  }

  // ---------------------------------------------------------------------
  // Read paths

  /** The sort orders of ListIntegrations. */
  datatype SortKey = ByDownloads | ByTrending | ByVersion | ByName

  /** The sort parameter, trimmed and lowercased; anything unknown sorts by name. */
  function ParseSort(sortBy: string): (key: SortKey)
    ensures key == ByDownloads <==> ToLower(TrimSpace(sortBy)) == "downloads"
    ensures key == ByTrending <==> ToLower(TrimSpace(sortBy)) == "trending"
    ensures key == ByVersion <==> ToLower(TrimSpace(sortBy)) == "version"
  {
    var s := ToLower(TrimSpace(sortBy));
    if s == "downloads" then ByDownloads
    else if s == "trending" then ByTrending
    else if s == "version" then ByVersion
    else ByName
  }

  /**
   * a may be listed before b: downloads DESC, name ASC; trending DESC, name ASC;
   * version DESC; name ASC. Text compares by code points.
   */
  predicate Before(key: SortKey, a: Integration, b: Integration) {
    match key
    case ByDownloads => a.downloads > b.downloads || (a.downloads == b.downloads && LexLe(a.name, b.name))
    case ByTrending => a.trendingScore > b.trendingScore || (a.trendingScore == b.trendingScore && LexLe(a.name, b.name))
    case ByVersion => LexLe(b.version, a.version)
    case ByName => LexLe(a.name, b.name)
  }

  function Order(key: SortKey): (Integration, Integration) -> bool {
    (a, b) => Before(key, a, b)
  }

  /** Each order is a valid comparator, so sorting by it yields a sorted listing. */
  lemma OrderIsTotalPreorder(key: SortKey)
    ensures TotalPreorder(Order(key))
  {
    forall a, b ensures Order(key)(a, b) || Order(key)(b, a) {
      LexLeTotal(a.name, b.name);
      LexLeTotal(a.version, b.version);
    }
    forall a, b, c | Order(key)(a, b) && Order(key)(b, c) ensures Order(key)(a, c) {
      match key
      case ByVersion => LexLeTransitive(c.version, b.version, a.version);
      case _ =>
        if LexLe(a.name, b.name) && LexLe(b.name, c.name) {
          LexLeTransitive(a.name, b.name, c.name);
        }
    }
  }

  /** ListVersions: created_at DESC. */
  function NewestFirst(): (Integration, Integration) -> bool {
    (a: Integration, b: Integration) => a.createdAt >= b.createdAt
  }

  lemma NewestFirstIsTotalPreorder()
    ensures TotalPreorder(NewestFirst())
  {
  }

  /** The WHERE clause of ListIntegrations. */
  predicate Selected(row: Integration, latestOnly: bool, featuredOnly: bool) {
    (!latestOnly || row.latest) && (!featuredOnly || row.featured)
  }

  // ---------------------------------------------------------------------
  // The table

  class IntegrationStore {
    var rows: map<Key, Integration>
    var events: seq<DownloadEvent>

    ghost predicate Valid()
      reads this
    {
      TableInvariant(rows)
    }

    constructor ()
      ensures Valid() && rows == map[] && events == []
    {
      rows := map[];
      events := [];
    }

    /** ensureListenPathAvailable: fails when another package's latest row uses the path. */
    function EnsureListenPathAvailable(listenPath: string, id: string): (r: Outcome<StoreError>)
      reads this
      ensures r == Pass <==> forall k :: k in rows && rows[k].latest && rows[k].id != id ==> rows[k].listenPath != listenPath
      ensures r != Pass ==> r == Fail(ListenPathInUse)
    {
      if ListenPathTaken(rows, listenPath, id) then Fail(ListenPathInUse) else Pass
    }

    /** ensureNameAvailable: fails when another package's latest row uses the name. */
    function EnsureNameAvailable(name: string, id: string): (r: Outcome<StoreError>)
      reads this
      ensures r == Pass <==> forall k :: k in rows && rows[k].latest && rows[k].id != id ==> rows[k].name != name
      ensures r != Pass ==> r == Fail(NameInUse)
    {
      if NameTaken(rows, name, id) then Fail(NameInUse) else Pass
    }

    /** getLatestStats: the stats of the package's latest row, if it has one. */
    method GetLatestStats(id: string) returns (r: Option<Stats>)
      requires Valid()
      ensures r.None? <==> !HasLatest(rows, id)
      ensures r.Some? ==> exists k :: k in rows && rows[k].id == id && rows[k].latest && StatsOf(rows[k]) == r.value
      ensures r.Some? ==> r.value == CarriedStats(rows, id)
    {
      if HasLatest(rows, id) {
        var k :| k in rows && rows[k].id == id && rows[k].latest;
        r := Some(StatsOf(rows[k]));
      } else {
        r := None;
      }
    }

    /** GetIntegration: the exact version when one is given, otherwise the latest row. */
    method GetIntegration(id: string, version: string) returns (r: Result<Integration, StoreError>)
      requires Valid()
      ensures version != "" ==> (r.Ok? <==> (id, version) in rows)
      ensures version != "" && r.Ok? ==> r.value == rows[(id, version)]
      ensures version == "" ==> (r.Ok? <==> HasLatest(rows, id))
      ensures version == "" && r.Ok? ==> r.value == rows[LatestKey(rows, id).value]
      ensures r.Err? ==> r.error == NotFound
    {
      if version != "" {
        if (id, version) in rows {
          r := Ok(rows[(id, version)]);
        } else {
          r := Err(NotFound);
        }
      } else if HasLatest(rows, id) {
        var k :| k in rows && rows[k].id == id && rows[k].latest;
        LatestKeyUnique(rows, id, k);
        r := Ok(rows[k]);
      } else {
        r := Err(NotFound);
      }
    }

    /** ListIntegrations: the selected rows, each once, ordered by the sort key. */
    method ListIntegrations(latestOnly: bool, sortBy: string, featuredOnly: bool) returns (items: seq<Integration>)
      requires Valid()
      ensures forall x :: x in items <==> x in rows.Values && Selected(x, latestOnly, featuredOnly)
      ensures NoDup(items)
      ensures Sorted(items, Order(ParseSort(sortBy)))
    {
      KeysConsistentInjective(rows);
      var matching := SelectValues(rows, (x: Integration) => Selected(x, latestOnly, featuredOnly));
      var key := ParseSort(sortBy);
      items := Sort(matching, Order(key));
      OrderIsTotalPreorder(key);
      SortSorted(matching, Order(key));
      SortNoDup(matching, Order(key));
      SortSameElements(matching, Order(key));
    }

    /** ListVersions: every version of the package, newest first. */
    method ListVersions(id: string) returns (items: seq<Integration>)
      requires Valid()
      ensures forall x :: x in items <==> x in rows.Values && x.id == id
      ensures NoDup(items)
      ensures Sorted(items, NewestFirst())
    {
      KeysConsistentInjective(rows);
      var matching := SelectValues(rows, (x: Integration) => x.id == id);
      items := Sort(matching, NewestFirst());
      NewestFirstIsTotalPreorder();
      SortSorted(matching, NewestFirst());
      SortNoDup(matching, NewestFirst());
      SortSameElements(matching, NewestFirst());
    }

    /**
     * PublishIntegration: an empty listen path is refused before anything else,
     * then the listen path and the name are checked against other packages'
     * latest rows (in that order); only then is the table written.
     */
    method PublishIntegration(req: PublishRequest, verified: bool, now: Time) returns (r: Result<Integration, StoreError>)
      requires Valid()
      modifies this
      ensures Valid() && events == old(events)
      ensures req.listenPath == "" ==> r == Err(ListenPathRequired) && rows == old(rows)
      ensures req.listenPath != "" && ListenPathTaken(old(rows), req.listenPath, req.id)
        ==> (r == Err(ListenPathInUse) && rows == old(rows))
      ensures req.listenPath != "" && !ListenPathTaken(old(rows), req.listenPath, req.id)
        && NameTaken(old(rows), req.name, req.id)
        ==> (r == Err(NameInUse) && rows == old(rows))
      ensures req.listenPath != "" && !ListenPathTaken(old(rows), req.listenPath, req.id)
        && !NameTaken(old(rows), req.name, req.id)
        ==> (rows == Published(old(rows), req, verified, now)
          && (req.id, req.version) in rows && r == Ok(rows[(req.id, req.version)]))
    {
      if req.listenPath == "" {
        return Err(ListenPathRequired);
      }
      var pathFree := EnsureListenPathAvailable(req.listenPath, req.id);
      if pathFree.Fail? {
        return Err(pathFree.error);
      }
      var nameFree := EnsureNameAvailable(req.name, req.id);
      if nameFree.Fail? {
        return Err(nameFree.error);
      }
      // The stats are read outside the transaction, so they come from the table
      // as it was before the latest flags are cleared.
      var current := GetLatestStats(req.id);
      var stats := if current.Some? then current.value else Stats(0, 0, false);
      PublishedKeepsInvariant(rows, req, verified, now);
      PublishedMakesLatest(rows, req, verified, now);
      rows := WriteVersion(rows, req, verified, stats, now);
      LatestKeyUnique(rows, req.id, (req.id, req.version));
      r := GetIntegration(req.id, req.version);
    }

    /**
     * IncrementDownloads: records one download event, adds one to the latest
     * row's downloads and sets its trending score to the package's events of the
     * last seven days. Without a latest row (or on overflow) everything rolls back.
     */
    method IncrementDownloads(id: string, now: Time) returns (r: Result<Integration, StoreError>)
      requires Valid()
      modifies this
      ensures Valid()
      ensures !HasLatest(old(rows), id) ==> r == Err(NotFound) && rows == old(rows) && events == old(events)
      ensures HasLatest(old(rows), id) ==>
        var k := LatestKey(old(rows), id).value;
        if old(rows)[k].downloads == MaxInt64 then
          r == Err(DownloadsOutOfRange) && rows == old(rows) && events == old(events)
        else
          && events == old(events) + [DownloadEvent(id, now)]
          && rows == old(rows)[k := old(rows)[k].(
               downloads := old(rows)[k].downloads + 1,
               trendingScore := RecentCount(events, id, now - TrendingWindow),
               updatedAt := now)]
          && r == Ok(rows[k])
    {
      if !HasLatest(rows, id) {
        return Err(NotFound);
      }
      var k :| k in rows && rows[k].id == id && rows[k].latest;
      assert k == LatestKey(rows, id).value;
      var row := rows[k];
      if row.downloads == MaxInt64 {
        return Err(DownloadsOutOfRange);
      }
      var logged := events + [DownloadEvent(id, now)];
      var recent := RecentCount(logged, id, now - TrendingWindow);
      var bumped := row.(downloads := row.downloads + 1, trendingScore := recent, updatedAt := now);
      ghost var before := rows;
      IncrementKeepsInvariant(before, k, bumped);
      events := logged;
      rows := rows[k := bumped];
      r := Ok(bumped);
    }
  }

  // ---------------------------------------------------------------------
  // Properties of a publish

  /** The package's rows all lose the latest flag; other rows are untouched. */
  lemma ClearLatestEffect(rows: map<Key, Integration>, id: string, now: Time)
    ensures ClearLatest(rows, id, now).Keys == rows.Keys
    ensures forall k :: k in rows && rows[k].id == id ==> !ClearLatest(rows, id, now)[k].latest
    ensures forall k :: k in rows && rows[k].id != id ==> ClearLatest(rows, id, now)[k] == rows[k]
  {
  }

  /** After a publish the published version is the package's one latest row. */
  lemma PublishedMakesLatest(rows: map<Key, Integration>, req: PublishRequest, verified: bool, now: Time)
    requires KeysConsistent(rows)
    ensures var after := Published(rows, req, verified, now);
      && (req.id, req.version) in after
      && after[(req.id, req.version)].latest
      && after[(req.id, req.version)].verified == verified
      && forall k :: k in after && after[k].id == req.id && k != (req.id, req.version) ==> !after[k].latest
  {
  }

  /** A publish never touches another package's rows and adds at most the one key. */
  lemma PublishedKeepsOthers(rows: map<Key, Integration>, req: PublishRequest, verified: bool, now: Time)
    requires KeysConsistent(rows)
    ensures var after := Published(rows, req, verified, now);
      && after.Keys == rows.Keys + {(req.id, req.version)}
      && forall k :: k in rows && rows[k].id != req.id ==> after[k] == rows[k]
  {
  }

  /**
   * The new row's downloads, trending score and featured flag are those of the
   * package's latest row before the publish, or 0, 0, false when it had none.
   */
  lemma PublishedCarriesStats(rows: map<Key, Integration>, req: PublishRequest, verified: bool, now: Time)
    requires OneLatestPerId(rows)
    ensures var row := Published(rows, req, verified, now)[(req.id, req.version)];
      && (forall k :: k in rows && rows[k].id == req.id && rows[k].latest ==> StatsOf(row) == StatsOf(rows[k]))
      && (!HasLatest(rows, req.id) ==> row.downloads == 0 && row.trendingScore == 0 && !row.featured)
  {
    forall k | k in rows && rows[k].id == req.id && rows[k].latest
      ensures CarriedStats(rows, req.id) == StatsOf(rows[k])
    {
      assert LatestKey(rows, req.id).value == k;
    }
  }

  lemma PublishedKeys(rows: map<Key, Integration>, req: PublishRequest, verified: bool, now: Time)
    ensures Published(rows, req, verified, now).Keys == rows.Keys + {(req.id, req.version)}
  {
  }

  /**
   * Republishing an existing (id, version) overwrites it in place and keeps its
   * created_at; a new version adds exactly one row created now.
   */
  lemma PublishedUpsertsByKey(rows: map<Key, Integration>, req: PublishRequest, verified: bool, now: Time)
    ensures var after := Published(rows, req, verified, now);
      var key := (req.id, req.version);
      && (key in rows ==> |after| == |rows| && after[key].createdAt == rows[key].createdAt)
      && (key !in rows ==> |after| == |rows| + 1 && after[key].createdAt == now)
      && after[key].updatedAt == now
  {
    var key := (req.id, req.version);
    PublishedKeys(rows, req, verified, now);
    if key !in rows {
      assert |rows.Keys + {key}| == |rows.Keys| + 1;
    } else {
      assert rows.Keys + {key} == rows.Keys;
    }
  }

  /**
   * What a publish does to the columns the invariants mention: the key set grows
   * by the request's key, the new row is the package's latest, and every other row
   * keeps its columns except that the package's rows lose the latest flag.
   */
  ghost predicate PublishShape(rows: map<Key, Integration>, after: map<Key, Integration>, req: PublishRequest, downloads: int) {
    var key := (req.id, req.version);
    && after.Keys == rows.Keys + {key}
    && after[key].id == req.id && after[key].version == req.version && after[key].latest
    && after[key].listenPath == req.listenPath && after[key].name == req.name
    && after[key].downloads == downloads
    && forall k :: k in rows && k != key ==>
         && after[k].id == rows[k].id && after[k].version == rows[k].version
         && after[k].listenPath == rows[k].listenPath && after[k].name == rows[k].name
         && after[k].downloads == rows[k].downloads
         && after[k].latest == (rows[k].latest && rows[k].id != req.id)
  }

  lemma PublishedHasShape(rows: map<Key, Integration>, req: PublishRequest, verified: bool, now: Time)
    requires KeysConsistent(rows)
    ensures PublishShape(rows, Published(rows, req, verified, now), req, CarriedStats(rows, req.id).downloads)
  {
  }

  /** The invariant argument, on the shape alone. */
  lemma ShapeKeepsInvariant(rows: map<Key, Integration>, after: map<Key, Integration>, req: PublishRequest, downloads: int)
    requires TableInvariant(rows)
    requires !ListenPathTaken(rows, req.listenPath, req.id)
    requires !NameTaken(rows, req.name, req.id)
    requires PublishShape(rows, after, req, downloads) && 0 <= downloads <= MaxInt64
    ensures TableInvariant(after)
  {
    ShapeKeepsOneLatest(rows, after, req, downloads);
    ShapeKeepsListenPaths(rows, after, req, downloads);
    ShapeKeepsNames(rows, after, req, downloads);
  }

  lemma ShapeKeepsOneLatest(rows: map<Key, Integration>, after: map<Key, Integration>, req: PublishRequest, downloads: int)
    requires OneLatestPerId(rows) && PublishShape(rows, after, req, downloads)
    ensures OneLatestPerId(after)
  {
    var key := (req.id, req.version);
    forall k1, k2 | k1 in after && k2 in after && after[k1].latest && after[k2].latest && after[k1].id == after[k2].id
      ensures k1 == k2
    {
      if k1 != key && k2 != key {
        assert k1 in rows && k2 in rows;
      }
    }
  }

  lemma ShapeKeepsListenPaths(rows: map<Key, Integration>, after: map<Key, Integration>, req: PublishRequest, downloads: int)
    requires LatestListenPathsUnique(rows) && !ListenPathTaken(rows, req.listenPath, req.id)
    requires PublishShape(rows, after, req, downloads)
    ensures LatestListenPathsUnique(after)
  {
    var key := (req.id, req.version);
    forall k1, k2 | k1 in after && k2 in after && after[k1].latest && after[k2].latest && after[k1].id != after[k2].id
      ensures after[k1].listenPath != after[k2].listenPath
    {
      if k1 == key {
        assert k2 in rows && rows[k2].latest && rows[k2].id != req.id;
      } else if k2 == key {
        assert k1 in rows && rows[k1].latest && rows[k1].id != req.id;
      } else {
        assert k1 in rows && k2 in rows;
      }
    }
  }

  lemma ShapeKeepsNames(rows: map<Key, Integration>, after: map<Key, Integration>, req: PublishRequest, downloads: int)
    requires LatestNamesUnique(rows) && !NameTaken(rows, req.name, req.id)
    requires PublishShape(rows, after, req, downloads)
    ensures LatestNamesUnique(after)
  {
    var key := (req.id, req.version);
    forall k1, k2 | k1 in after && k2 in after && after[k1].latest && after[k2].latest && after[k1].id != after[k2].id
      ensures after[k1].name != after[k2].name
    {
      if k1 == key {
        assert k2 in rows && rows[k2].latest && rows[k2].id != req.id;
      } else if k2 == key {
        assert k1 in rows && rows[k1].latest && rows[k1].id != req.id;
      } else {
        assert k1 in rows && k2 in rows;
      }
    }
  }

  /** A publish that passed both availability checks keeps every table invariant. */
  lemma PublishedKeepsInvariant(rows: map<Key, Integration>, req: PublishRequest, verified: bool, now: Time)
    requires TableInvariant(rows)
    requires !ListenPathTaken(rows, req.listenPath, req.id)
    requires !NameTaken(rows, req.name, req.id)
    ensures TableInvariant(Published(rows, req, verified, now))
  {
    var stats := CarriedStats(rows, req.id);
    assert 0 <= stats.downloads <= MaxInt64 by {
      if HasLatest(rows, req.id) {
        assert LatestKey(rows, req.id).value in rows;
      }
    }
    PublishedHasShape(rows, req, verified, now);
    ShapeKeepsInvariant(rows, Published(rows, req, verified, now), req, stats.downloads);
  }

  /**
   * Once package A is published at a listen path, publishing any other package
   * at that path is refused, while A itself may publish again at it.
   */
  lemma ListenPathClaimedByPublish(rows: map<Key, Integration>, req: PublishRequest, verified: bool, now: Time, otherId: string)
    requires TableInvariant(rows)
    requires !ListenPathTaken(rows, req.listenPath, req.id)
    requires otherId != req.id
    ensures ListenPathTaken(Published(rows, req, verified, now), req.listenPath, otherId)
    ensures !ListenPathTaken(Published(rows, req, verified, now), req.listenPath, req.id)
  {
    var after := Published(rows, req, verified, now);
    PublishedMakesLatest(rows, req, verified, now);
    assert after[(req.id, req.version)].listenPath == req.listenPath;
    forall k | k in after && after[k].latest && after[k].id != req.id
      ensures after[k].listenPath != req.listenPath
    {
      assert k in rows && after[k] == rows[k];
    }
  }

  /** Counting a download keeps every table invariant. */
  lemma IncrementKeepsInvariant(rows: map<Key, Integration>, k: Key, bumped: Integration)
    requires TableInvariant(rows) && k in rows
    requires bumped == rows[k].(downloads := bumped.downloads, trendingScore := bumped.trendingScore, updatedAt := bumped.updatedAt)
    requires bumped.downloads == rows[k].downloads + 1 <= MaxInt64
    ensures TableInvariant(rows[k := bumped])
  {
    var after := rows[k := bumped];
    forall k1, k2 | k1 in after && k2 in after
      ensures after[k1].latest == rows[k1].latest && after[k1].id == rows[k1].id
      ensures after[k1].listenPath == rows[k1].listenPath && after[k1].name == rows[k1].name
      ensures after[k2].latest == rows[k2].latest && after[k2].id == rows[k2].id
      ensures after[k2].listenPath == rows[k2].listenPath && after[k2].name == rows[k2].name
    {
    }
  }
}
