/**
 * The channel table of the proxy's database, held in memory: one record
 * per (BonDriver, NID, SID, TSID, manual sheet), merged with the results
 * of each scan inside one transaction. A scanned channel whose key the
 * driver already has refreshes and re-enables those records; a new key
 * is inserted; the driver's enabled records that the scan did not see
 * are disabled. The UNIQUE constraint of the table is SQL's: a record
 * with no manual sheet (NULL) never collides with another. Foreign keys
 * are enforced: a record can only be inserted for a driver id that the
 * `bon_drivers` table holds.
 */
module ChannelTable {
  import opened Wrappers
  import opened Bytes
  import P = ProtocolTypes
  import BR = BroadcastRegion
  import Text

  /** A row of the `channels` table (timestamps left out). */
  datatype ChannelRecord = ChannelRecord(
    id: nat,
    bonDriverId: int,
    info: P.ChannelInfo,
    regionId: Option<int>,
    isEnabled: bool,
    failureCount: nat,
    priority: int)

  /** The merge key of a record. */
  function KeyOf(r: ChannelRecord): P.UniqueKey
  {
    P.UniqueKeyOf(r.info)
  }

  /** Whether `r` is the driver's record for `key`. */
  predicate Matches(r: ChannelRecord, driver: int, key: P.UniqueKey)
  {
    r.bonDriverId == driver && KeyOf(r) == key
  }

  /** Whether the driver has a record for `key`. */
  predicate HasMatch(rows: seq<ChannelRecord>, driver: int, key: P.UniqueKey)
  {
    exists i :: 0 <= i < |rows| && Matches(rows[i], driver, key)
  }

  /** Row ids are below the next id the table hands out, and distinct. */
  predicate ValidTable(rows: seq<ChannelRecord>, nextId: nat)
  {
    (forall i :: 0 <= i < |rows| ==> rows[i].id < nextId) && IdsDistinct(rows)
  }

  /** No two records share an id. */
  predicate IdsDistinct(rows: seq<ChannelRecord>)
  {
    forall i, j :: 0 <= i < j < |rows| ==> rows[i].id != rows[j].id
  }

  /** `MergeResult` */
  datatype MergeResult = MergeResult(inserted: nat, updated: nat, disabled: nat)

  /**
   * How a merge statement fails: a second record for a key with a manual
   * sheet breaks the UNIQUE constraint; a record for a driver id that
   * `bon_drivers` does not hold breaks the foreign key.
   */
  datatype DbError = UniqueViolation(key: P.UniqueKey) | ForeignKeyViolation(driver: int)

  /**
   * The columns written for a scanned channel: its band type, or the one
   * its NID implies, and its terrestrial region, or the prefecture its NID
   * implies.
   */
  function Stored(info: P.ChannelInfo): (s: P.ChannelInfo)
    ensures P.UniqueKeyOf(s) == P.UniqueKeyOf(info) && s.bandType.Some?
    ensures info.bandType.Some? ==> s.bandType == info.bandType
    ensures info.terrestrialRegion.Some? ==> s.terrestrialRegion == info.terrestrialRegion
    ensures s.channelName == info.channelName && s.bonSpace == info.bonSpace && s.bonChannel == info.bonChannel
  {
    info.(bandType := Some(if info.bandType.Some? then info.bandType.value else P.BandCode(P.BandFromNid(info.nid))),
          terrestrialRegion := if info.terrestrialRegion.Some? then info.terrestrialRegion else BR.PrefectureName(info.nid))
  }

  /** The UPDATE of an existing record: every scanned column, the region id, and enabled again. */
  function Refreshed(r: ChannelRecord, info: P.ChannelInfo): ChannelRecord
  {
    r.(info := Stored(info), regionId := BR.RegionIdFromNid(info.nid), isEnabled := true)
  }

  /** The INSERT of a new record, with the table's defaults for the other columns. */
  function NewRecord(id: nat, driver: int, info: P.ChannelInfo): ChannelRecord
  {
    ChannelRecord(id, driver, Stored(info), BR.RegionIdFromNid(info.nid), true, 0, 0)
  }

  /** Every record of the driver for the key of `info`, refreshed from it. */
  function UpdateMatching(rows: seq<ChannelRecord>, driver: int, info: P.ChannelInfo): seq<ChannelRecord>
  {
    seq(|rows|, i requires 0 <= i < |rows| =>
      if Matches(rows[i], driver, P.UniqueKeyOf(info)) then Refreshed(rows[i], info) else rows[i])
  }

  /** The records with id `id`, disabled. */
  function SetDisabled(rows: seq<ChannelRecord>, id: nat): seq<ChannelRecord>
  {
    seq(|rows|, i requires 0 <= i < |rows| => if rows[i].id == id then rows[i].(isEnabled := false) else rows[i])
  }

  /** The table and counters while a merge runs, and the ids of the `bon_drivers` table. */
  datatype MergeState = MergeState(rows: seq<ChannelRecord>, nextId: nat, counts: MergeResult, drivers: set<int>)

  /**
   * One scanned channel: update when the driver had its key before the
   * merge, otherwise insert. The insert checks the UNIQUE constraint
   * while it writes the row and the (immediate) foreign key at the end of
   * the statement, so a row that breaks both reports the UNIQUE one.
   */
  function ScanStep(st: MergeState, driver: int, existingKeys: set<P.UniqueKey>, info: P.ChannelInfo): (r: Result<MergeState, DbError>)
    ensures P.UniqueKeyOf(info) in existingKeys ==>
      && r.Ok? && |r.value.rows| == |st.rows| && r.value.nextId == st.nextId
      && r.value.counts == st.counts.(updated := st.counts.updated + 1)
    ensures r.Ok? && P.UniqueKeyOf(info) !in existingKeys ==>
      && |r.value.rows| == |st.rows| + 1 && r.value.rows[..|st.rows|] == st.rows
      && Matches(r.value.rows[|st.rows|], driver, P.UniqueKeyOf(info)) && r.value.rows[|st.rows|].id == st.nextId
      && r.value.nextId == st.nextId + 1 && r.value.counts == st.counts.(inserted := st.counts.inserted + 1)
    ensures r.Ok? ==> r.value.drivers == st.drivers
    ensures r.Err? <==> (P.UniqueKeyOf(info) !in existingKeys
      && ((info.manualSheet.Some? && HasMatch(st.rows, driver, P.UniqueKeyOf(info))) || driver !in st.drivers))
    ensures r.Err? && r.error.UniqueViolation? ==> r.error.key == P.UniqueKeyOf(info) && info.manualSheet.Some?
    ensures r.Err? && r.error.ForeignKeyViolation? ==> r.error.driver == driver && driver !in st.drivers
  {
    var key := P.UniqueKeyOf(info);
    if key in existingKeys then
      Ok(st.(rows := UpdateMatching(st.rows, driver, info), counts := st.counts.(updated := st.counts.updated + 1)))
    else if info.manualSheet.Some? && HasMatch(st.rows, driver, key) then
      Err(UniqueViolation(key))
    else if driver !in st.drivers then
      Err(ForeignKeyViolation(driver))
    else
      Ok(st.(rows := st.rows + [NewRecord(st.nextId, driver, info)], nextId := st.nextId + 1,
             counts := st.counts.(inserted := st.counts.inserted + 1)))
  }

  /** The first loop of `merge_scan_results`: every scanned channel in order, stopping at the first error. */
  function ScanAll(st: MergeState, driver: int, existingKeys: set<P.UniqueKey>, scanned: seq<P.ChannelInfo>): Result<MergeState, DbError>
  {
    if scanned == [] then Ok(st)
    else
      match ScanAll(st, driver, existingKeys, scanned[..|scanned| - 1])
      case Err(e) => Err(e)
      case Ok(s) => ScanStep(s, driver, existingKeys, scanned[|scanned| - 1])
  }

  /** The driver's records. */
  function ExistingOf(rows: seq<ChannelRecord>, driver: int): (r: seq<ChannelRecord>)
    ensures forall e :: e in r <==> e in rows && e.bonDriverId == driver
  {
    if rows == [] then []
    else
      var front := ExistingOf(rows[..|rows| - 1], driver);
      assert rows == rows[..|rows| - 1] + [rows[|rows| - 1]];
      if rows[|rows| - 1].bonDriverId == driver then front + [rows[|rows| - 1]] else front
  }

  /** The keys of some records. */
  function KeysOf(rows: seq<ChannelRecord>): set<P.UniqueKey>
  {
    set e | e in rows :: KeyOf(e)
  }

  /** The keys of the scanned channels. */
  function ScannedKeys(scanned: seq<P.ChannelInfo>): set<P.UniqueKey>
  {
    set c | c in scanned :: P.UniqueKeyOf(c)
  }

  /** The enabled records among `existing` whose key the scan did not see. */
  function Stale(existing: seq<ChannelRecord>, scannedKeys: set<P.UniqueKey>): (r: seq<ChannelRecord>)
    ensures forall e :: e in r <==> e in existing && KeyOf(e) !in scannedKeys && e.isEnabled
  {
    if existing == [] then []
    else
      var front := Stale(existing[..|existing| - 1], scannedKeys);
      var e := existing[|existing| - 1];
      assert existing == existing[..|existing| - 1] + [e];
      if KeyOf(e) !in scannedKeys && e.isEnabled then front + [e] else front
  }

  /** The ids of some records. */
  function IdsOf(rows: seq<ChannelRecord>): set<nat>
  {
    set e | e in rows :: e.id
  }

  /** The second loop: each stale record disabled and counted. */
  function DisableAll(rows: seq<ChannelRecord>, existing: seq<ChannelRecord>, scannedKeys: set<P.UniqueKey>): (seq<ChannelRecord>, nat)
  {
    if existing == [] then (rows, 0)
    else
      var (front, n) := DisableAll(rows, existing[..|existing| - 1], scannedKeys);
      var e := existing[|existing| - 1];
      if KeyOf(e) !in scannedKeys && e.isEnabled then (SetDisabled(front, e.id), n + 1) else (front, n)
  }

  /**
   * `merge_scan_results` for driver `driver`, on a table with `drivers`
   * in `bon_drivers`: the table, next id and counters after the
   * transaction, or its error.
   */
  function Merge(rows: seq<ChannelRecord>, nextId: nat, drivers: set<int>, driver: int, scanned: seq<P.ChannelInfo>): (r: Result<MergeState, DbError>)
    ensures r.Ok? ==> var existing := ExistingOf(rows, driver);
      && r.value.counts.inserted + r.value.counts.updated == |scanned|
      && r.value.counts.updated == CountIn(scanned, KeysOf(existing))
      && r.value.counts.disabled == |Stale(existing, ScannedKeys(scanned))|
      && |r.value.rows| == |rows| + r.value.counts.inserted
      && r.value.nextId == nextId + r.value.counts.inserted
      && r.value.drivers == drivers
  {
    var existing := ExistingOf(rows, driver);
    var start := MergeState(rows, nextId, MergeResult(0, 0, 0), drivers);
    match ScanAll(start, driver, KeysOf(existing), scanned)
    case Err(e) => Err(e)
    case Ok(st) =>
      ScanAllCounts(start, driver, KeysOf(existing), scanned);
      DisableAllFacts(st.rows, existing, ScannedKeys(scanned));
      var (disabledRows, n) := DisableAll(st.rows, existing, ScannedKeys(scanned));
      Ok(st.(rows := disabledRows, counts := st.counts.(disabled := n)))
  }

  /** How many scanned channels have a key in `keys`. */
  function CountIn(scanned: seq<P.ChannelInfo>, keys: set<P.UniqueKey>): (n: nat)
    ensures n <= |scanned|
  {
    if scanned == [] then 0
    else CountIn(scanned[..|scanned| - 1], keys) + (if P.UniqueKeyOf(scanned[|scanned| - 1]) in keys then 1 else 0)
  }

  // ---------------------------------------------------------------- the scan loop

  /** Each scanned channel is counted once, as updated when its key existed and as inserted otherwise. */
  lemma {:induction false} ScanAllCounts(st: MergeState, driver: int, ek: set<P.UniqueKey>, scanned: seq<P.ChannelInfo>)
    requires ScanAll(st, driver, ek, scanned).Ok?
    ensures var s := ScanAll(st, driver, ek, scanned).value;
      && s.counts.updated == st.counts.updated + CountIn(scanned, ek)
      && s.counts.inserted == st.counts.inserted + |scanned| - CountIn(scanned, ek)
      && s.counts.disabled == st.counts.disabled
      && |s.rows| == |st.rows| + |scanned| - CountIn(scanned, ek)
      && s.nextId == st.nextId + |scanned| - CountIn(scanned, ek)
      && s.drivers == st.drivers
  {
    if scanned != [] {
      ScanAllCounts(st, driver, ek, scanned[..|scanned| - 1]);
    }
  }

  /**
   * `after` keeps the records of `before` in place with their ids, drivers
   * and keys, enabled ones enabled; the driver's records for keys outside `keys` and other
   * drivers' records are untouched; every appended record is the driver's,
   * enabled, for a key in `keys`.
   */
  predicate Extends(before: seq<ChannelRecord>, after: seq<ChannelRecord>, driver: int, keys: set<P.UniqueKey>)
  {
    && |before| <= |after|
    && (forall i :: 0 <= i < |before| ==>
          after[i].id == before[i].id && after[i].bonDriverId == before[i].bonDriverId && KeyOf(after[i]) == KeyOf(before[i]))
    && (forall i :: 0 <= i < |before| && (before[i].bonDriverId != driver || KeyOf(before[i]) !in keys) ==> after[i] == before[i])
    && (forall i :: 0 <= i < |before| && before[i].isEnabled ==> after[i].isEnabled)
    && (forall i :: |before| <= i < |after| ==> after[i].bonDriverId == driver && KeyOf(after[i]) in keys && after[i].isEnabled)
  }

  /** Every key in `keys` has an enabled record of the driver. */
  predicate Covered(rows: seq<ChannelRecord>, driver: int, keys: set<P.UniqueKey>)
  {
    forall k :: k in keys ==> exists i :: 0 <= i < |rows| && Matches(rows[i], driver, k) && rows[i].isEnabled
  }

  /** One scanned channel extends the table by its key and leaves the table's ids valid. */
  lemma ScanStepExtends(st: MergeState, driver: int, ek: set<P.UniqueKey>, info: P.ChannelInfo, s: MergeState)
    requires ScanStep(st, driver, ek, info) == Ok(s)
    ensures Extends(st.rows, s.rows, driver, {P.UniqueKeyOf(info)})
    ensures ValidTable(st.rows, st.nextId) ==> ValidTable(s.rows, s.nextId)
  {
  }

  /** One scanned channel leaves an enabled record for its key, given one to update when the key existed. */
  lemma ScanStepCovers(st: MergeState, driver: int, ek: set<P.UniqueKey>, info: P.ChannelInfo, s: MergeState)
    requires StartKeys(st.rows, driver, ek)
    requires ScanStep(st, driver, ek, info) == Ok(s)
    ensures Covered(s.rows, driver, {P.UniqueKeyOf(info)})
  {
    var key := P.UniqueKeyOf(info);
    if key in ek {
      var i :| 0 <= i < |st.rows| && Matches(st.rows[i], driver, key);
      assert Matches(s.rows[i], driver, key) && s.rows[i].isEnabled;
    } else {
      assert Matches(s.rows[|st.rows|], driver, key);
    }
  }

  /** A step keeps every enabled record it does not touch, and enables the ones it does. */
  lemma CoveredStep(st: MergeState, driver: int, ek: set<P.UniqueKey>, info: P.ChannelInfo, s: MergeState, keys: set<P.UniqueKey>)
    requires ScanStep(st, driver, ek, info) == Ok(s)
    requires Covered(st.rows, driver, keys)
    ensures Covered(s.rows, driver, keys)
  {
    forall k | k in keys
      ensures exists i :: 0 <= i < |s.rows| && Matches(s.rows[i], driver, k) && s.rows[i].isEnabled
    {
      var i :| 0 <= i < |st.rows| && Matches(st.rows[i], driver, k) && st.rows[i].isEnabled;
      assert Matches(s.rows[i], driver, k) && s.rows[i].isEnabled;
    }
  }

  /** Extending twice extends by the union of the keys. */
  lemma ExtendsTrans(a: seq<ChannelRecord>, b: seq<ChannelRecord>, c: seq<ChannelRecord>, driver: int,
                     k1: set<P.UniqueKey>, k2: set<P.UniqueKey>)
    requires Extends(a, b, driver, k1) && Extends(b, c, driver, k2)
    ensures Extends(a, c, driver, k1 + k2)
  {
  }

  /** The scanned keys of a sequence, last one split off. */
  lemma ScannedKeysSnoc(scanned: seq<P.ChannelInfo>)
    requires scanned != []
    ensures ScannedKeys(scanned) == ScannedKeys(scanned[..|scanned| - 1]) + {P.UniqueKeyOf(scanned[|scanned| - 1])}
  {
    assert scanned == scanned[..|scanned| - 1] + [scanned[|scanned| - 1]];
  }

  /** Every key in `ek` has a record of the driver in `rows`. */
  predicate StartKeys(rows: seq<ChannelRecord>, driver: int, ek: set<P.UniqueKey>)
  {
    forall k :: k in ek ==> HasMatch(rows, driver, k)
  }

  /** Records kept in place keep their keys, so the keys that had a record still have one. */
  lemma StartKeysExtends(before: seq<ChannelRecord>, after: seq<ChannelRecord>, driver: int, ek: set<P.UniqueKey>, keys: set<P.UniqueKey>)
    requires StartKeys(before, driver, ek) && Extends(before, after, driver, keys)
    ensures StartKeys(after, driver, ek)
  {
    forall k | k in ek ensures HasMatch(after, driver, k) {
      var i :| 0 <= i < |before| && Matches(before[i], driver, k);
      assert Matches(after[i], driver, k);
    }
  }

  /** The scan loop extends the table by the scanned keys and keeps its ids valid. */
  lemma {:induction false} ScanAllExtends(st: MergeState, driver: int, ek: set<P.UniqueKey>, scanned: seq<P.ChannelInfo>)
    requires ScanAll(st, driver, ek, scanned).Ok?
    ensures var s := ScanAll(st, driver, ek, scanned).value;
      && Extends(st.rows, s.rows, driver, ScannedKeys(scanned))
      && (ValidTable(st.rows, st.nextId) ==> ValidTable(s.rows, s.nextId))
  {
    if scanned == [] {
      assert ScannedKeys(scanned) == {};
    } else {
      var front := scanned[..|scanned| - 1];
      var info := scanned[|scanned| - 1];
      ScanAllExtends(st, driver, ek, front);
      var s := ScanAll(st, driver, ek, front).value;
      var s' := ScanAll(st, driver, ek, scanned).value;
      assert ScanStep(s, driver, ek, info) == Ok(s');
      ScanStepExtends(s, driver, ek, info, s');
      ExtendsTrans(st.rows, s.rows, s'.rows, driver, ScannedKeys(front), {P.UniqueKeyOf(info)});
      ScannedKeysSnoc(scanned);
    }
  }

  /** After the scan loop every scanned key has an enabled record of the driver. */
  lemma {:induction false} ScanAllCovers(st: MergeState, driver: int, ek: set<P.UniqueKey>, scanned: seq<P.ChannelInfo>)
    requires StartKeys(st.rows, driver, ek)
    requires ScanAll(st, driver, ek, scanned).Ok?
    ensures Covered(ScanAll(st, driver, ek, scanned).value.rows, driver, ScannedKeys(scanned))
  {
    if scanned == [] {
      assert ScannedKeys(scanned) == {};
    } else {
      var front := scanned[..|scanned| - 1];
      var info := scanned[|scanned| - 1];
      ScanAllCovers(st, driver, ek, front);
      ScanAllExtends(st, driver, ek, front);
      var s := ScanAll(st, driver, ek, front).value;
      var s' := ScanAll(st, driver, ek, scanned).value;
      assert ScanStep(s, driver, ek, info) == Ok(s');
      StartKeysExtends(st.rows, s.rows, driver, ek, ScannedKeys(front));
      ScanStepCovers(s, driver, ek, info, s');
      CoveredStep(s, driver, ek, info, s', ScannedKeys(front));
      ScannedKeysSnoc(scanned);
    }
  }

  /** Whether two scanned channels, the later one with a manual sheet, share a key the driver did not have. */
  predicate DuplicateNewSheetKey(scanned: seq<P.ChannelInfo>, ek: set<P.UniqueKey>)
  {
    exists i, j :: 0 <= i < j < |scanned| && P.UniqueKeyOf(scanned[i]) == P.UniqueKeyOf(scanned[j])
      && scanned[j].manualSheet.Some? && P.UniqueKeyOf(scanned[j]) !in ek
  }

  /** The driver's records have keys in `keys`. */
  predicate KeysBound(rows: seq<ChannelRecord>, driver: int, keys: set<P.UniqueKey>)
  {
    forall i :: 0 <= i < |rows| && rows[i].bonDriverId == driver ==> KeyOf(rows[i]) in keys
  }

  /** Extending the table by some keys extends the keys its records may have. */
  lemma KeysBoundExtends(before: seq<ChannelRecord>, after: seq<ChannelRecord>, driver: int, ek: set<P.UniqueKey>, keys: set<P.UniqueKey>)
    requires KeysBound(before, driver, ek) && Extends(before, after, driver, keys)
    ensures KeysBound(after, driver, ek + keys)
  {
  }

  /** A record for a new key during the scan comes from an earlier scanned channel with that key. */
  lemma EarlierScanned(front: seq<P.ChannelInfo>, key: P.UniqueKey) returns (i: nat)
    requires key in ScannedKeys(front)
    ensures i < |front| && P.UniqueKeyOf(front[i]) == key
  {
    var c :| c in front && P.UniqueKeyOf(c) == key;
    i :| 0 <= i < |front| && front[i] == c;
  }

  /** Whether some scanned channel has a key the driver did not have, so that it is inserted. */
  predicate InsertsNewKey(scanned: seq<P.ChannelInfo>, ek: set<P.UniqueKey>)
  {
    exists i :: 0 <= i < |scanned| && P.UniqueKeyOf(scanned[i]) !in ek
  }

  /**
   * The scan fails on the UNIQUE constraint only when two scanned channels
   * with a manual sheet share a new key, and on the foreign key only when
   * the driver is not in `bon_drivers` and some channel is inserted.
   */
  lemma {:induction false} ScanAllErr(st: MergeState, driver: int, ek: set<P.UniqueKey>, scanned: seq<P.ChannelInfo>)
    requires KeysBound(st.rows, driver, ek)
    requires ScanAll(st, driver, ek, scanned).Err?
    ensures ScanAll(st, driver, ek, scanned).error.UniqueViolation? ==> DuplicateNewSheetKey(scanned, ek)
    ensures ScanAll(st, driver, ek, scanned).error.ForeignKeyViolation? ==>
      ScanAll(st, driver, ek, scanned).error.driver == driver && driver !in st.drivers && InsertsNewKey(scanned, ek)
  {
    var front := scanned[..|scanned| - 1];
    var info := scanned[|scanned| - 1];
    var e := ScanAll(st, driver, ek, scanned).error;
    if ScanAll(st, driver, ek, front).Err? {
      ScanAllErr(st, driver, ek, front);
      if e.UniqueViolation? {
        var i, j :| 0 <= i < j < |front| && P.UniqueKeyOf(front[i]) == P.UniqueKeyOf(front[j])
          && front[j].manualSheet.Some? && P.UniqueKeyOf(front[j]) !in ek;
        assert scanned[i] == front[i] && scanned[j] == front[j];
      } else {
        var i :| 0 <= i < |front| && P.UniqueKeyOf(front[i]) !in ek;
        assert scanned[i] == front[i];
      }
    } else {
      ScanAllExtends(st, driver, ek, front);
      ScanAllCounts(st, driver, ek, front);
      var s := ScanAll(st, driver, ek, front).value;
      var key := P.UniqueKeyOf(info);
      assert ScanStep(s, driver, ek, info) == Err(e);
      if e.UniqueViolation? {
        assert key !in ek && info.manualSheet.Some? && HasMatch(s.rows, driver, key);
        var p :| 0 <= p < |s.rows| && Matches(s.rows[p], driver, key);
        KeysBoundExtends(st.rows, s.rows, driver, ek, ScannedKeys(front));
        var i := EarlierScanned(front, key);
        assert scanned[i] == front[i] && i < |scanned| - 1;
      } else {
        assert key !in ek && driver !in s.drivers;
      }
    }
  }

  /**
   * A scanned channel with a new key fails the scan when an earlier
   * channel had its key and it has a manual sheet, or when the driver is
   * not in `bon_drivers`: if nothing failed before it, its insert does.
   */
  lemma ScanAllFailsAt(st: MergeState, driver: int, ek: set<P.UniqueKey>, scanned: seq<P.ChannelInfo>, j: nat)
    requires StartKeys(st.rows, driver, ek)
    requires j < |scanned| && P.UniqueKeyOf(scanned[j]) !in ek
    requires (scanned[j].manualSheet.Some? && P.UniqueKeyOf(scanned[j]) in ScannedKeys(scanned[..j])) || driver !in st.drivers
    ensures ScanAll(st, driver, ek, scanned).Err?
  {
    var front := scanned[..j];
    assert scanned[..j + 1][..j] == front;
    if ScanAll(st, driver, ek, front).Ok? {
      var s := ScanAll(st, driver, ek, front).value;
      ScanAllCovers(st, driver, ek, front);
      ScanAllCounts(st, driver, ek, front);
      var key := P.UniqueKeyOf(scanned[j]);
      if scanned[j].manualSheet.Some? && key in ScannedKeys(front) {
        var i :| 0 <= i < |s.rows| && Matches(s.rows[i], driver, key) && s.rows[i].isEnabled;
      }
      assert ScanStep(s, driver, ek, scanned[j]).Err?;
      assert ScanAll(st, driver, ek, scanned[..j + 1]) == ScanStep(s, driver, ek, scanned[j]);
    }
    ScanAllStopsAtError(st, driver, ek, scanned, j + 1);
  }

  // ---------------------------------------------------------------- the disable loop

  /**
   * The disable loop disables exactly the records whose id is a stale
   * record's, and counts the stale records.
   */
  lemma {:induction false} DisableAllFacts(rows: seq<ChannelRecord>, existing: seq<ChannelRecord>, sk: set<P.UniqueKey>)
    ensures var (r, n) := DisableAll(rows, existing, sk);
      && |r| == |rows| && n == |Stale(existing, sk)|
      && forall i :: 0 <= i < |rows| ==>
           r[i] == if rows[i].id in IdsOf(Stale(existing, sk)) then rows[i].(isEnabled := false) else rows[i]
  {
    if existing != [] {
      var front := existing[..|existing| - 1];
      var e := existing[|existing| - 1];
      DisableAllFacts(rows, front, sk);
      if KeyOf(e) !in sk && e.isEnabled {
        assert Stale(existing, sk) == Stale(front, sk) + [e];
        assert IdsOf(Stale(existing, sk)) == IdsOf(Stale(front, sk)) + {e.id};
      } else {
        assert Stale(existing, sk) == Stale(front, sk);
      }
    }
  }

  // ---------------------------------------------------------------- the whole merge

  /** The driver's key set, read before the merge, has a record for each of its keys, and only those. */
  lemma StartKeysOfExisting(rows: seq<ChannelRecord>, driver: int)
    ensures StartKeys(rows, driver, KeysOf(ExistingOf(rows, driver)))
    ensures KeysBound(rows, driver, KeysOf(ExistingOf(rows, driver)))
  {
    var ek := KeysOf(ExistingOf(rows, driver));
    forall k | k in ek ensures HasMatch(rows, driver, k) {
      var e :| e in ExistingOf(rows, driver) && KeyOf(e) == k;
      var i :| 0 <= i < |rows| && rows[i] == e;
      assert Matches(rows[i], driver, k);
    }
    forall i | 0 <= i < |rows| && rows[i].bonDriverId == driver ensures KeyOf(rows[i]) in ek {
      assert rows[i] in ExistingOf(rows, driver);
    }
  }

  /** A stale record's id belongs to no record the scan kept for a scanned key or for another driver. */
  lemma StaleIdsElsewhere(rows: seq<ChannelRecord>, s: seq<ChannelRecord>, driver: int, sk: set<P.UniqueKey>, p: nat)
    requires IdsDistinct(s) && Extends(rows, s, driver, sk) && p < |s|
    requires p < |rows| ==> rows[p].bonDriverId != driver || KeyOf(rows[p]) in sk || !rows[p].isEnabled
    ensures s[p].id !in IdsOf(Stale(ExistingOf(rows, driver), sk))
  {
    forall e | e in Stale(ExistingOf(rows, driver), sk) ensures e.id != s[p].id {
      var q :| 0 <= q < |rows| && rows[q] == e;
      assert s[q].id == e.id && q != p;
    }
  }

  /** A merge that succeeds is its scan loop followed by its disable loop. */
  lemma MergeUnfold(rows: seq<ChannelRecord>, nextId: nat, drivers: set<int>, driver: int, scanned: seq<P.ChannelInfo>)
    ensures var existing := ExistingOf(rows, driver);
      var scan := ScanAll(MergeState(rows, nextId, MergeResult(0, 0, 0), drivers), driver, KeysOf(existing), scanned);
      && (scan.Err? <==> Merge(rows, nextId, drivers, driver, scanned).Err?)
      && (scan.Err? ==> Merge(rows, nextId, drivers, driver, scanned).error == scan.error)
      && (scan.Ok? ==>
            var d := DisableAll(scan.value.rows, existing, ScannedKeys(scanned));
            Merge(rows, nextId, drivers, driver, scanned).value == scan.value.(rows := d.0, counts := scan.value.counts.(disabled := d.1)))
  {
  }

  /** Disabling the stale records keeps an enabled record for every scanned key. */
  lemma CoveredAfterDisable(rows: seq<ChannelRecord>, s: seq<ChannelRecord>, driver: int, sk: set<P.UniqueKey>)
    requires IdsDistinct(s) && Extends(rows, s, driver, sk) && Covered(s, driver, sk)
    ensures Covered(DisableAll(s, ExistingOf(rows, driver), sk).0, driver, sk)
  {
    var existing := ExistingOf(rows, driver);
    DisableAllFacts(s, existing, sk);
    var t := DisableAll(s, existing, sk).0;
    forall k | k in sk
      ensures exists i :: 0 <= i < |t| && Matches(t[i], driver, k) && t[i].isEnabled
    {
      var p :| 0 <= p < |s| && Matches(s[p], driver, k) && s[p].isEnabled;
      StaleIdsElsewhere(rows, s, driver, sk, p);
      assert t[p] == s[p];
    }
  }

  /** Disabling records keeps their ids. */
  lemma ValidAfterDisable(s: seq<ChannelRecord>, existing: seq<ChannelRecord>, sk: set<P.UniqueKey>, nextId: nat)
    requires ValidTable(s, nextId)
    ensures ValidTable(DisableAll(s, existing, sk).0, nextId)
  {
    DisableAllFacts(s, existing, sk);
  }

  /** After a merge the ids are still valid and every scanned key has an enabled record of the driver. */
  lemma MergeCovers(rows: seq<ChannelRecord>, nextId: nat, drivers: set<int>, driver: int, scanned: seq<P.ChannelInfo>)
    requires ValidTable(rows, nextId) && Merge(rows, nextId, drivers, driver, scanned).Ok?
    ensures var st := Merge(rows, nextId, drivers, driver, scanned).value;
      ValidTable(st.rows, st.nextId) && Covered(st.rows, driver, ScannedKeys(scanned))
  {
    var existing := ExistingOf(rows, driver);
    var ek, sk := KeysOf(existing), ScannedKeys(scanned);
    var start := MergeState(rows, nextId, MergeResult(0, 0, 0), drivers);
    StartKeysOfExisting(rows, driver);
    ScanAllExtends(start, driver, ek, scanned);
    ScanAllCovers(start, driver, ek, scanned);
    var s := ScanAll(start, driver, ek, scanned).value;
    MergeUnfold(rows, nextId, drivers, driver, scanned);
    CoveredAfterDisable(rows, s.rows, driver, sk);
    ValidAfterDisable(s.rows, existing, sk, s.nextId);
  }

  /**
   * A merge leaves other drivers' records as they were, and disables the
   * driver's records whose key the scan did not see, changing nothing else
   * about them.
   */
  lemma MergeKeeps(rows: seq<ChannelRecord>, nextId: nat, drivers: set<int>, driver: int, scanned: seq<P.ChannelInfo>)
    requires ValidTable(rows, nextId) && Merge(rows, nextId, drivers, driver, scanned).Ok?
    ensures var st := Merge(rows, nextId, drivers, driver, scanned).value;
      && |rows| <= |st.rows|
      && (forall i :: 0 <= i < |rows| && rows[i].bonDriverId != driver ==> st.rows[i] == rows[i])
      && (forall i :: 0 <= i < |rows| && rows[i].bonDriverId == driver && KeyOf(rows[i]) !in ScannedKeys(scanned) ==>
            st.rows[i] == rows[i].(isEnabled := false))
  {
    var existing := ExistingOf(rows, driver);
    var ek, sk := KeysOf(existing), ScannedKeys(scanned);
    var start := MergeState(rows, nextId, MergeResult(0, 0, 0), drivers);
    ScanAllExtends(start, driver, ek, scanned);
    var s := ScanAll(start, driver, ek, scanned).value;
    DisableAllFacts(s.rows, existing, sk);
    MergeUnfold(rows, nextId, drivers, driver, scanned);
    var st := Merge(rows, nextId, drivers, driver, scanned).value;
    forall i | 0 <= i < |rows| && rows[i].bonDriverId != driver ensures st.rows[i] == rows[i] {
      StaleIdsElsewhere(rows, s.rows, driver, sk, i);
    }
    forall i | 0 <= i < |rows| && rows[i].bonDriverId == driver && KeyOf(rows[i]) !in sk
      ensures st.rows[i] == rows[i].(isEnabled := false)
    {
      assert s.rows[i] == rows[i];
      if rows[i].isEnabled {
        assert rows[i] in Stale(existing, sk);
      }
    }
  }

  /**
   * A merge fails exactly when two scanned channels, the later one with a
   * manual sheet, share a key the driver did not have (the UNIQUE
   * constraint), or when the driver is not in `bon_drivers` and some
   * scanned key is new (the foreign key); the error names which.
   */
  lemma MergeErr(rows: seq<ChannelRecord>, nextId: nat, drivers: set<int>, driver: int, scanned: seq<P.ChannelInfo>)
    ensures var ek := KeysOf(ExistingOf(rows, driver));
      Merge(rows, nextId, drivers, driver, scanned).Err? <==>
        DuplicateNewSheetKey(scanned, ek) || (driver !in drivers && InsertsNewKey(scanned, ek))
    ensures var m := Merge(rows, nextId, drivers, driver, scanned);
      m.Err? && m.error.UniqueViolation? ==> DuplicateNewSheetKey(scanned, KeysOf(ExistingOf(rows, driver)))
    ensures var m := Merge(rows, nextId, drivers, driver, scanned);
      m.Err? && m.error.ForeignKeyViolation? ==>
        m.error.driver == driver && driver !in drivers && InsertsNewKey(scanned, KeysOf(ExistingOf(rows, driver)))
  {
    var ek := KeysOf(ExistingOf(rows, driver));
    var start := MergeState(rows, nextId, MergeResult(0, 0, 0), drivers);
    StartKeysOfExisting(rows, driver);
    MergeUnfold(rows, nextId, drivers, driver, scanned);
    if Merge(rows, nextId, drivers, driver, scanned).Err? {
      ScanAllErr(start, driver, ek, scanned);
    }
    if DuplicateNewSheetKey(scanned, ek) {
      var i, j :| 0 <= i < j < |scanned| && P.UniqueKeyOf(scanned[i]) == P.UniqueKeyOf(scanned[j])
        && scanned[j].manualSheet.Some? && P.UniqueKeyOf(scanned[j]) !in ek;
      assert scanned[..j][i] == scanned[i];
      ScanAllFailsAt(start, driver, ek, scanned, j);
    } else if driver !in drivers && InsertsNewKey(scanned, ek) {
      var i :| 0 <= i < |scanned| && P.UniqueKeyOf(scanned[i]) !in ek;
      ScanAllFailsAt(start, driver, ek, scanned, i);
    }
  }

  /** A scan whose channels have distinct keys always merges for a driver that `bon_drivers` holds. */
  lemma MergeDistinctSucceeds(rows: seq<ChannelRecord>, nextId: nat, drivers: set<int>, driver: int, scanned: seq<P.ChannelInfo>)
    requires forall i, j :: 0 <= i < j < |scanned| ==> P.UniqueKeyOf(scanned[i]) != P.UniqueKeyOf(scanned[j])
    requires driver in drivers
    ensures Merge(rows, nextId, drivers, driver, scanned).Ok?
  {
    MergeErr(rows, nextId, drivers, driver, scanned);
  }

  /** A merge for a driver that `bon_drivers` does not hold fails iff it has a channel to insert. */
  lemma MergeUnknownDriver(rows: seq<ChannelRecord>, nextId: nat, drivers: set<int>, driver: int, scanned: seq<P.ChannelInfo>)
    requires driver !in drivers
    ensures Merge(rows, nextId, drivers, driver, scanned).Err? <==> InsertsNewKey(scanned, KeysOf(ExistingOf(rows, driver)))
  {
    var ek := KeysOf(ExistingOf(rows, driver));
    MergeErr(rows, nextId, drivers, driver, scanned);
    if DuplicateNewSheetKey(scanned, ek) {
      var i, j :| 0 <= i < j < |scanned| && P.UniqueKeyOf(scanned[i]) == P.UniqueKeyOf(scanned[j])
        && scanned[j].manualSheet.Some? && P.UniqueKeyOf(scanned[j]) !in ek;
    }
  }

  /** A failed scan step fails the whole scan with the same error. */
  lemma {:induction false} ScanAllStopsAtError(st: MergeState, driver: int, ek: set<P.UniqueKey>, scanned: seq<P.ChannelInfo>, i: nat)
    requires i <= |scanned| && ScanAll(st, driver, ek, scanned[..i]).Err?
    ensures ScanAll(st, driver, ek, scanned) == ScanAll(st, driver, ek, scanned[..i])
    decreases |scanned|
  {
    if i == |scanned| {
      assert scanned[..i] == scanned;
    } else {
      var front := scanned[..|scanned| - 1];
      assert front[..i] == scanned[..i];
      ScanAllStopsAtError(st, driver, ek, front, i);
    }
  }

  // ---------------------------------------------------------------- the database object

  /** The first loop of `merge_scan_results`, stopping at the first failed statement. */
  method ScanChannels(start: MergeState, driver: int, existingKeys: set<P.UniqueKey>, scanned: seq<P.ChannelInfo>)
    returns (r: Result<MergeState, DbError>)
    ensures r == ScanAll(start, driver, existingKeys, scanned)
  {
    var st := start;
    var i := 0;
    while i < |scanned|
      invariant 0 <= i <= |scanned|
      invariant ScanAll(start, driver, existingKeys, scanned[..i]) == Ok(st)
    {
      assert scanned[..i + 1][..i] == scanned[..i];
      var step := ScanStep(st, driver, existingKeys, scanned[i]);
      if step.Err? {
        ScanAllStopsAtError(start, driver, existingKeys, scanned, i + 1);
        return step;
      }
      st := step.value;
      i := i + 1;
    }
    assert scanned[..i] == scanned;
    r := Ok(st);
  }

  /** The second loop of `merge_scan_results`: each stale record disabled and counted. */
  method DisableStale(rows: seq<ChannelRecord>, existing: seq<ChannelRecord>, scannedKeys: set<P.UniqueKey>)
    returns (table: seq<ChannelRecord>, disabled: nat)
    ensures (table, disabled) == DisableAll(rows, existing, scannedKeys)
  {
    table := rows;
    disabled := 0;
    var j := 0;
    while j < |existing|
      invariant 0 <= j <= |existing|
      invariant DisableAll(rows, existing[..j], scannedKeys) == (table, disabled)
    {
      assert existing[..j + 1][..j] == existing[..j];
      var e := existing[j];
      if KeyOf(e) !in scannedKeys && e.isEnabled {
        table := SetDisabled(table, e.id);
        disabled := disabled + 1;
      }
      j := j + 1;
    }
    assert existing[..j] == existing;
  }

  /**
   * The channel table of one database connection, with the ids of its
   * `bon_drivers` table (the other columns of that table are not part of
   * this model).
   */
  class ChannelDatabase {
    var rows: seq<ChannelRecord>
    var nextId: nat
    var drivers: set<int>

    ghost predicate Valid()
      reads this
    {
      ValidTable(rows, nextId)
    }

    /** An empty database; AUTOINCREMENT hands out 1 first. */
    constructor ()
      ensures Valid() && rows == [] && nextId == 1 && drivers == {}
    {
      rows := [];
      nextId := 1;
      drivers := {};
    }

    /** A row of `bon_drivers` with id `id` exists from now on; the channel table is untouched. */
    method AddDriver(id: int)
      requires Valid()
      modifies this
      ensures Valid() && drivers == old(drivers) + {id} && rows == old(rows) && nextId == old(nextId)
    {
      drivers := drivers + {id};
    }

    /**
     * `merge_scan_results`: on success the table and counters are those of
     * `Merge`; on failure the transaction is rolled back and the table is
     * as it was.
     */
    method MergeScanResults(driver: int, scanned: seq<P.ChannelInfo>) returns (r: Result<MergeResult, DbError>)
      requires Valid()
      modifies this
      ensures Valid()
      ensures Merge(old(rows), old(nextId), drivers, driver, scanned).Ok? ==>
        var st := Merge(old(rows), old(nextId), drivers, driver, scanned).value;
        r == Ok(st.counts) && rows == st.rows && nextId == st.nextId
      ensures Merge(old(rows), old(nextId), drivers, driver, scanned).Err? ==>
        r == Err(Merge(old(rows), old(nextId), drivers, driver, scanned).error) && rows == old(rows) && nextId == old(nextId)
      ensures drivers == old(drivers)
    {
      var existing := ExistingOf(rows, driver);
      var scan := ScanChannels(MergeState(rows, nextId, MergeResult(0, 0, 0), drivers), driver, KeysOf(existing), scanned);
      MergeUnfold(rows, nextId, drivers, driver, scanned);
      if scan.Err? {
        return Err(scan.error);
      }
      var table, disabled := DisableStale(scan.value.rows, existing, ScannedKeys(scanned));
      MergeCovers(rows, nextId, drivers, driver, scanned);
      rows := table;
      nextId := scan.value.nextId;
      r := Ok(scan.value.counts.(disabled := disabled));
    }

    /**
     * `update_channel_fields`: the given fields of the record with id
     * `channelId`; with no field given, nothing is written.
     */
    method UpdateChannelFields(channelId: nat, channelName: Option<string>, priority: Option<i32>, isEnabled: Option<bool>)
      requires Valid()
      modifies this
      ensures Valid()
      ensures rows == WithFields(old(rows), channelId, channelName, priority, isEnabled) && nextId == old(nextId)
    {
      if channelName.None? && priority.None? && isEnabled.None? {
        NoFieldsNoChange(rows, channelId);
        return;
      }
      rows := WithFields(rows, channelId, channelName, priority, isEnabled);
    }
  }

  /** The record with the given fields replaced. */
  function FieldsSet(r: ChannelRecord, channelName: Option<string>, priority: Option<i32>, isEnabled: Option<bool>): ChannelRecord
  {
    r.(info := if channelName.Some? then r.info.(channelName := channelName) else r.info,
       priority := if priority.Some? then priority.value else r.priority,
       isEnabled := if isEnabled.Some? then isEnabled.value else r.isEnabled)
  }

  /** `UPDATE channels SET … WHERE id = ?`: the records with that id, given fields replaced. */
  function WithFields(rows: seq<ChannelRecord>, id: nat, channelName: Option<string>, priority: Option<i32>, isEnabled: Option<bool>): seq<ChannelRecord>
  {
    seq(|rows|, i requires 0 <= i < |rows| =>
      if rows[i].id == id then FieldsSet(rows[i], channelName, priority, isEnabled) else rows[i])
  }

  /** With no field given, the update changes nothing. */
  lemma NoFieldsNoChange(rows: seq<ChannelRecord>, id: nat)
    ensures WithFields(rows, id, None, None, None) == rows
  {
    assert forall i :: 0 <= i < |rows| ==> WithFields(rows, id, None, None, None)[i] == rows[i];
  }

  /**
   * The update touches only the record with the id, and only the given
   * fields of it: key, driver, scan columns and counters are kept, so the
   * table stays valid.
   */
  lemma UpdateFieldsEffect(rows: seq<ChannelRecord>, nextId: nat, id: nat, channelName: Option<string>, priority: Option<i32>, isEnabled: Option<bool>)
    requires ValidTable(rows, nextId)
    ensures var r := WithFields(rows, id, channelName, priority, isEnabled);
      && |r| == |rows| && ValidTable(r, nextId)
      && forall i :: 0 <= i < |rows| ==>
           && (rows[i].id != id ==> r[i] == rows[i])
           && r[i].id == rows[i].id && r[i].bonDriverId == rows[i].bonDriverId && KeyOf(r[i]) == KeyOf(rows[i])
           && r[i].failureCount == rows[i].failureCount && r[i].regionId == rows[i].regionId
           && (rows[i].id == id ==>
                 && r[i].info.channelName == (if channelName.Some? then channelName else rows[i].info.channelName)
                 && r[i].priority == (if priority.Some? then priority.value else rows[i].priority)
                 && r[i].isEnabled == (if isEnabled.Some? then isEnabled.value else rows[i].isEnabled))
  {
  }

  // ---------------------------------------------------------------- tuning space names

  /** `generate_space_name`: a tuning space's name from its stored band type and region. */
  function SpaceName(bandType: Option<int>, terrestrialRegion: Option<string>, space: int): (name: string)
  {
    if bandType == Some(0) then (if terrestrialRegion.Some? then terrestrialRegion.value else "地上波")
    else if bandType == Some(1) then "BS"
    else if bandType == Some(2) then "CS"
    else if bandType == Some(3) then "4K"
    else if bandType == Some(4) then "その他"
    else if bandType == Some(5) then "CATV"
    else if bandType == Some(6) then "SKY"
    else "Space " + Text.IntToDecimal(space)
  }

  /**
   * The stored codes 1..5 are named as the band's display name, and code 0
   * without a region too; code 6 is "SKY" where the display name is
   * "スカパー!".
   */
  lemma SpaceNameOfBand(code: int, space: int)
    requires 0 <= code <= 6
    ensures code != 6 ==> SpaceName(Some(code), None, space) == P.DisplayName(P.BandOfCode(code).value)
    ensures code == 6 ==> SpaceName(Some(code), None, space) == "SKY" != P.DisplayName(P.BandOfCode(code).value)
  {
  }

  /** A terrestrial space with a region is named by the region. */
  lemma SpaceNameOfRegion(region: string, space: int)
    ensures SpaceName(Some(0), Some(region), space) == region
  {
  }

  /**
   * A space with no or an unknown band type is "Space n", from which the
   * number reads back; no band name has that form.
   */
  lemma SpaceNameFallback(bandType: Option<int>, region: Option<string>, space: nat)
    requires bandType.None? || !(0 <= bandType.value <= 6)
    requires space <= Text.I32_MAX
    ensures var name := SpaceName(bandType, region, space);
      && |name| > 6 && name[..6] == "Space "
      && Text.ParseInt(name[6..], Text.I32_MIN, Text.I32_MAX) == Some(space)
      && forall c :: 1 <= c <= 6 ==> SpaceName(Some(c), region, space) != name
  {
    var digits := Text.NatToDecimal(space);
    var name := SpaceName(bandType, region, space);
    assert name == "Space " + digits;
    assert name[6..] == digits;
    Text.ParseFormatted(space, Text.I32_MIN, Text.I32_MAX);
    BandNamesShort(region, space);
  }

  /** The names of band codes 1 to 6 are at most four characters long. */
  lemma BandNamesShort(region: Option<string>, space: nat)
    ensures forall c :: 1 <= c <= 6 ==> |SpaceName(Some(c), region, space)| <= 4
  {
    forall c | 1 <= c <= 6 ensures |SpaceName(Some(c), region, space)| <= 4 {
      assert c == 1 || c == 2 || c == 3 || c == 4 || c == 5 || c == 6;
    }
  }

  // ---------------------------------------------------------------- the module's merge test

  /** Three channels of the same driver with distinct keys and no manual sheet. */
  predicate FreshTriple(a: P.ChannelInfo, b: P.ChannelInfo, c: P.ChannelInfo)
  {
    && a.manualSheet.None? && b.manualSheet.None? && c.manualSheet.None?
    && P.UniqueKeyOf(a) != P.UniqueKeyOf(b) && P.UniqueKeyOf(a) != P.UniqueKeyOf(c) && P.UniqueKeyOf(b) != P.UniqueKeyOf(c)
  }

  /** The scan loop over one more channel. */
  lemma ScanAllSnoc(st: MergeState, driver: int, ek: set<P.UniqueKey>, xs: seq<P.ChannelInfo>, x: P.ChannelInfo, s: MergeState)
    requires ScanAll(st, driver, ek, xs) == Ok(s)
    ensures ScanAll(st, driver, ek, xs + [x]) == ScanStep(s, driver, ek, x)
  {
    assert (xs + [x])[..|xs|] == xs;
  }

  /** The disable loop over one more record. */
  lemma DisableAllSnoc(rows: seq<ChannelRecord>, existing: seq<ChannelRecord>, e: ChannelRecord, sk: set<P.UniqueKey>)
    ensures var (t, n) := DisableAll(rows, existing, sk);
      DisableAll(rows, existing + [e], sk) == if KeyOf(e) !in sk && e.isEnabled then (SetDisabled(t, e.id), n + 1) else (t, n)
  {
    assert (existing + [e])[..|existing|] == existing;
  }

  /** When every record is the driver's, they are all its existing records. */
  lemma {:induction false} ExistingOfAll(rows: seq<ChannelRecord>, driver: int)
    requires forall i :: 0 <= i < |rows| ==> rows[i].bonDriverId == driver
    ensures ExistingOf(rows, driver) == rows
  {
    if rows != [] {
      ExistingOfAll(rows[..|rows| - 1], driver);
      assert rows == rows[..|rows| - 1] + [rows[|rows| - 1]];
    }
  }

  /** The first scan of the test on an empty table: three records inserted, ids 1 to 3. */
  lemma FirstScanInserts(a: P.ChannelInfo, b: P.ChannelInfo, c: P.ChannelInfo, driver: int)
    requires FreshTriple(a, b, c)
    ensures Merge([], 1, {driver}, driver, [a, b, c])
         == Ok(MergeState([NewRecord(1, driver, a), NewRecord(2, driver, b), NewRecord(3, driver, c)], 4, MergeResult(3, 0, 0), {driver}))
  {
    var start := MergeState([], 1, MergeResult(0, 0, 0), {driver});
    assert ExistingOf([], driver) == [];
    assert KeysOf([]) == {};
    var s1 := MergeState([NewRecord(1, driver, a)], 2, MergeResult(1, 0, 0), {driver});
    var s2 := MergeState([NewRecord(1, driver, a), NewRecord(2, driver, b)], 3, MergeResult(2, 0, 0), {driver});
    ScanAllSnoc(start, driver, {}, [], a, start);
    assert [] + [a] == [a] && start.rows + [NewRecord(1, driver, a)] == s1.rows;
    assert ScanStep(start, driver, {}, a) == Ok(s1);
    ScanAllSnoc(start, driver, {}, [a], b, s1);
    assert [a] + [b] == [a, b] && s1.rows + [NewRecord(2, driver, b)] == s2.rows;
    assert ScanStep(s1, driver, {}, b) == Ok(s2);
    var s3 := MergeState([NewRecord(1, driver, a), NewRecord(2, driver, b), NewRecord(3, driver, c)], 4, MergeResult(3, 0, 0), {driver});
    ScanAllSnoc(start, driver, {}, [a, b], c, s2);
    assert [a, b] + [c] == [a, b, c] && s2.rows + [NewRecord(3, driver, c)] == s3.rows;
    assert ScanStep(s2, driver, {}, c) == Ok(s3);
    MergeUnfold([], 1, {driver}, driver, [a, b, c]);
  }

  /** The scan loop of the test's second scan: two updates that leave the records as they were, one insert. */
  lemma SecondScanLoop(a: P.ChannelInfo, b: P.ChannelInfo, c: P.ChannelInfo, e: P.ChannelInfo, driver: int)
    requires FreshTriple(a, b, c) && FreshTriple(a, b, e) && P.UniqueKeyOf(c) != P.UniqueKeyOf(e)
    ensures var rows := [NewRecord(1, driver, a), NewRecord(2, driver, b), NewRecord(3, driver, c)];
      ScanAll(MergeState(rows, 4, MergeResult(0, 0, 0), {driver}), driver, KeysOf(rows), [a, b, e])
        == Ok(MergeState(rows + [NewRecord(4, driver, e)], 5, MergeResult(1, 2, 0), {driver}))
  {
    var rows := [NewRecord(1, driver, a), NewRecord(2, driver, b), NewRecord(3, driver, c)];
    var ek := KeysOf(rows);
    assert P.UniqueKeyOf(a) == KeyOf(rows[0]) && P.UniqueKeyOf(b) == KeyOf(rows[1]);
    var start := MergeState(rows, 4, MergeResult(0, 0, 0), {driver});
    assert UpdateMatching(rows, driver, a) == rows;
    assert UpdateMatching(rows, driver, b) == rows;
    var s1, s2 := MergeState(rows, 4, MergeResult(0, 1, 0), {driver}), MergeState(rows, 4, MergeResult(0, 2, 0), {driver});
    assert ScanStep(start, driver, ek, a) == Ok(s1);
    ScanAllSnoc(start, driver, ek, [], a, start);
    assert [] + [a] == [a];
    assert ScanStep(s1, driver, ek, b) == Ok(s2);
    ScanAllSnoc(start, driver, ek, [a], b, s1);
    assert [a] + [b] == [a, b];
    assert P.UniqueKeyOf(e) !in ek;
    ScanAllSnoc(start, driver, ek, [a, b], e, s2);
    assert [a, b] + [e] == [a, b, e];
  }

  /** The disable loop of the test's second scan: only the third record is stale. */
  lemma SecondScanDisable(a: P.ChannelInfo, b: P.ChannelInfo, c: P.ChannelInfo, e: P.ChannelInfo, driver: int)
    requires FreshTriple(a, b, c) && FreshTriple(a, b, e) && P.UniqueKeyOf(c) != P.UniqueKeyOf(e)
    ensures var r1, r2, r3 := NewRecord(1, driver, a), NewRecord(2, driver, b), NewRecord(3, driver, c);
      DisableAll([r1, r2, r3, NewRecord(4, driver, e)], [r1, r2, r3], ScannedKeys([a, b, e]))
        == ([r1, r2, r3.(isEnabled := false), NewRecord(4, driver, e)], 1)
  {
    var r1, r2, r3 := NewRecord(1, driver, a), NewRecord(2, driver, b), NewRecord(3, driver, c);
    var table := [r1, r2, r3, NewRecord(4, driver, e)];
    var sk := ScannedKeys([a, b, e]);
    assert P.UniqueKeyOf(a) in sk && P.UniqueKeyOf(b) in sk && P.UniqueKeyOf(c) !in sk;
    DisableAllSnoc(table, [], r1, sk);
    assert [] + [r1] == [r1];
    DisableAllSnoc(table, [r1], r2, sk);
    assert [r1] + [r2] == [r1, r2];
    DisableAllSnoc(table, [r1, r2], r3, sk);
    assert [r1, r2] + [r3] == [r1, r2, r3];
    assert SetDisabled(table, 3) == [r1, r2, r3.(isEnabled := false), NewRecord(4, driver, e)];
  }

  /**
   * The second scan of the test: the first two channels again and a new
   * one. Two records are updated, one inserted with id 4, and the third
   * record, missing from the scan, is disabled.
   */
  lemma SecondScanUpdates(a: P.ChannelInfo, b: P.ChannelInfo, c: P.ChannelInfo, e: P.ChannelInfo, driver: int)
    requires FreshTriple(a, b, c) && FreshTriple(a, b, e) && P.UniqueKeyOf(c) != P.UniqueKeyOf(e)
    ensures var r1, r2, r3 := NewRecord(1, driver, a), NewRecord(2, driver, b), NewRecord(3, driver, c);
      Merge([r1, r2, r3], 4, {driver}, driver, [a, b, e])
        == Ok(MergeState([r1, r2, r3.(isEnabled := false), NewRecord(4, driver, e)], 5, MergeResult(1, 2, 1), {driver}))
  {
    var r1, r2, r3, r4 := NewRecord(1, driver, a), NewRecord(2, driver, b), NewRecord(3, driver, c), NewRecord(4, driver, e);
    var rows := [r1, r2, r3];
    ExistingOfAll(rows, driver);
    SecondScanLoop(a, b, c, e, driver);
    SecondScanDisable(a, b, c, e, driver);
    assert rows + [r4] == [r1, r2, r3, r4];
    var scan := MergeState([r1, r2, r3, r4], 5, MergeResult(1, 2, 0), {driver});
    assert ScanAll(MergeState(rows, 4, MergeResult(0, 0, 0), {driver}), driver, KeysOf(ExistingOf(rows, driver)), [a, b, e]) == Ok(scan);
    MergeUnfold(rows, 4, {driver}, driver, [a, b, e]);
  }

  /**
   * A channel scanned twice on an empty table: without a manual sheet the
   * UNIQUE constraint lets both inserts through (SQL's NULLs differ);
   * with one the second insert fails and the merge is rolled back.
   */
  lemma RepeatedChannel(a: P.ChannelInfo, driver: int)
    ensures a.manualSheet.None? ==>
      Merge([], 1, {driver}, driver, [a, a]) == Ok(MergeState([NewRecord(1, driver, a), NewRecord(2, driver, a)], 3, MergeResult(2, 0, 0), {driver}))
    ensures a.manualSheet.Some? ==> Merge([], 1, {driver}, driver, [a, a]) == Err(UniqueViolation(P.UniqueKeyOf(a)))
  {
    var start := MergeState([], 1, MergeResult(0, 0, 0), {driver});
    assert ExistingOf([], driver) == [];
    assert KeysOf([]) == {};
    var s1 := MergeState([NewRecord(1, driver, a)], 2, MergeResult(1, 0, 0), {driver});
    ScanAllSnoc(start, driver, {}, [], a, start);
    assert [] + [a] == [a] && start.rows + [NewRecord(1, driver, a)] == s1.rows;
    assert ScanStep(start, driver, {}, a) == Ok(s1);
    ScanAllSnoc(start, driver, {}, [a], a, s1);
    assert [a] + [a] == [a, a];
    if a.manualSheet.Some? {
      assert Matches(s1.rows[0], driver, P.UniqueKeyOf(a));
    } else {
      assert s1.rows + [NewRecord(2, driver, a)] == [NewRecord(1, driver, a), NewRecord(2, driver, a)];
    }
    MergeUnfold([], 1, {driver}, driver, [a, a]);
  }
}
