/**
 * The hub's cloud synchronisation (`CloudSyncManager`): each table's unsynced rows are sent as
 * one batch with a bounded number of attempts and exponential backoff, and are marked synced
 * only once an attempt succeeds; a full pass adds the per-table counts to its statistics.
 *
 * The database is seen only through the synced flag of each row, table by table; the result
 * of each `_get_unsynced_data` query and of each `_send_to_cloud` call is an oracle parameter.
 */
module CloudSync {
  import opened Wrappers

  /** The tables a full pass visits, in order. */
  const Tables: seq<string> := ["bom_readings", "ear_tag_data", "sprinkler_data", "system_alerts"]

  const DefaultApiUrl: string := "https://your-cloud-api.com/api/farm-data"
  const DefaultApiKey: string := "your-api-key-here"
  const DefaultSyncInterval: int := 300
  const DefaultBatchSize: int := 100
  const DefaultMaxRetries: int := 3

  /** How many characters of the API URL the statistics show before the ellipsis. */
  const UrlShown: nat := 50

  /** The manager's configuration dictionary; an absent key is None. */
  datatype Config = Config(
    apiUrl: Option<string>,
    apiKey: Option<string>,
    syncInterval: Option<int>,
    batchSize: Option<int>,
    maxRetries: Option<int>)

  /** The synced flag of every row of one table, by row id. */
  type Flags = map<int, bool>

  /** What `_get_unsynced_data` gives: the ids of the rows fetched, or the database error it raises. */
  datatype Fetch = Rows(ids: seq<int>) | Failed

  // ---------------------------------------------------------------------------
  // Marking rows synced
  // ---------------------------------------------------------------------------

  /** The flags after `UPDATE ... SET synced = 1 WHERE id IN ids`: no row is added or removed. */
  function MarkIds(t: Flags, ids: seq<int>): Flags
  {
    map id | id in t :: if id in ids then true else t[id]
  }

  /** The ids of the rows not yet synced, which `synced = 0` selects. */
  function Unsynced(t: Flags): set<int>
  {
    set id | id in t && !t[id]
  }

  /** The ids a list holds. */
  function Elements(ids: seq<int>): set<int>
  {
    set i | 0 <= i < |ids| :: ids[i]
  }

  predicate Distinct(ids: seq<int>)
  {
    forall i, j :: 0 <= i < j < |ids| ==> ids[i] != ids[j]
  }

  /** Marking keeps every row, sets the listed rows synced and leaves the flag of every other row. */
  lemma MarkIdsLookup(t: Flags, ids: seq<int>)
    ensures MarkIds(t, ids).Keys == t.Keys
    ensures forall id :: id in t && id in ids ==> MarkIds(t, ids)[id]
    ensures forall id :: id in t && id !in ids ==> MarkIds(t, ids)[id] == t[id]
  {
  }

  /** Marking an empty list changes nothing, so `_mark_synced`'s early return for it only saves the query. */
  lemma MarkNothing(t: Flags)
    ensures MarkIds(t, []) == t
  {
    assert forall id :: id in t ==> MarkIds(t, [])[id] == t[id];
  }

  /** Marking the same rows twice has the effect of marking them once, so a repeated batch is harmless. */
  lemma MarkTwice(t: Flags, ids: seq<int>)
    ensures MarkIds(MarkIds(t, ids), ids) == MarkIds(t, ids)
  {
    var once := MarkIds(t, ids);
    assert forall id :: id in once ==> MarkIds(once, ids)[id] == once[id];
  }

  /** After marking, the rows still pending are those pending before and not listed. */
  lemma UnsyncedAfterMark(t: Flags, ids: seq<int>)
    ensures Unsynced(MarkIds(t, ids)) == Unsynced(t) - Elements(ids)
  {
    var m := MarkIds(t, ids);
    forall id ensures id in Unsynced(m) <==> id in Unsynced(t) - Elements(ids) {
      if id in ids {
        var i :| 0 <= i < |ids| && ids[i] == id;
        assert id in Elements(ids);
      }
      if id in Elements(ids) {
        var i :| 0 <= i < |ids| && ids[i] == id;
        assert id in ids;
      }
    }
  }

  /** A list without repeats holds as many ids as it is long. */
  lemma {:induction false} DistinctElements(ids: seq<int>)
    requires Distinct(ids)
    ensures |Elements(ids)| == |ids|
    decreases |ids|
  {
    if |ids| > 0 {
      var n := |ids| - 1;
      var init := ids[..n];
      DistinctElements(init);
      assert Elements(ids) == Elements(init) + {ids[n]} by {
        forall x ensures x in Elements(ids) <==> x in Elements(init) + {ids[n]} {
          if x in Elements(ids) {
            var i :| 0 <= i < |ids| && ids[i] == x;
            if i < n {
              assert init[i] == x;
            }
          }
          if x in Elements(init) {
            var i :| 0 <= i < n && init[i] == x;
            assert ids[i] == x;
          }
        }
      }
      assert forall i :: 0 <= i < n ==> init[i] != ids[n];
    }
  }

  /**
   * A successful batch of distinct rows that were all pending lowers the number of pending rows
   * by exactly the batch size, which is the count the sync reports.
   */
  lemma PendingAfterMark(t: Flags, ids: seq<int>)
    requires Distinct(ids)
    requires forall i :: 0 <= i < |ids| ==> ids[i] in Unsynced(t)
    ensures |Unsynced(MarkIds(t, ids))| == |Unsynced(t)| - |ids|
  {
    UnsyncedAfterMark(t, ids);
    DistinctElements(ids);
    var a, b := Unsynced(t), Elements(ids);
    assert b <= a;
    assert a == (a - b) + b;
    assert (a - b) * b == {};
  }

  // ---------------------------------------------------------------------------
  // The retry loop's outcomes
  // ---------------------------------------------------------------------------

  /** `2 ** k`. */
  function Pow2(k: nat): nat
  {
    if k == 0 then 1 else 2 * Pow2(k - 1)
  }

  /** The sleeps that follow `n` failed attempts, in seconds: 1, 2, 4, ... */
  function Backoffs(n: nat): seq<nat>
  {
    seq(n, i requires 0 <= i < n => Pow2(i))
  }

  function Sum(s: seq<nat>): nat
    decreases |s|
  {
    if |s| == 0 then 0 else Sum(s[..|s| - 1]) + s[|s| - 1]
  }

  /** After `n` failed attempts the backoff has slept `2 ** n - 1` seconds in all (7 for the default 3 retries). */
  lemma {:induction false} BackoffTotal(n: nat)
    ensures Sum(Backoffs(n)) == Pow2(n) - 1
  {
    if n > 0 {
      BackoffTotal(n - 1);
      assert Backoffs(n)[..n - 1] == Backoffs(n - 1);
    }
  }

  /** Some attempt below `maxRetries` succeeds. */
  ghost predicate AnySuccess(ok: nat -> bool, maxRetries: int)
  {
    exists k: nat :: k < maxRetries && ok(k)
  }

  /** Attempt `k` is within the bound, succeeds, and every attempt before it failed. */
  ghost predicate FirstSuccessAt(ok: nat -> bool, maxRetries: int, k: nat)
  {
    k < maxRetries && ok(k) && forall j: nat :: j < k ==> !ok(j)
  }

  /** Below a successful attempt there is a first successful one. */
  lemma {:induction false} EarliestSuccess(ok: nat -> bool, maxRetries: int, k: nat)
    requires k < maxRetries && ok(k)
    ensures exists f: nat :: f <= k && FirstSuccessAt(ok, maxRetries, f)
    decreases k
  {
    if forall j: nat :: j < k ==> !ok(j) {
      assert FirstSuccessAt(ok, maxRetries, k);
    } else {
      var j: nat :| j < k && ok(j);
      EarliestSuccess(ok, maxRetries, j);
    }
  }

  /** Some attempt succeeds exactly when there is a first successful attempt, and that one is unique. */
  lemma FirstSuccessExists(ok: nat -> bool, maxRetries: int)
    ensures AnySuccess(ok, maxRetries) <==> exists k: nat :: FirstSuccessAt(ok, maxRetries, k)
    ensures forall k1: nat, k2: nat :: FirstSuccessAt(ok, maxRetries, k1) && FirstSuccessAt(ok, maxRetries, k2) ==> k1 == k2
  {
    if AnySuccess(ok, maxRetries) {
      var k: nat :| k < maxRetries && ok(k);
      EarliestSuccess(ok, maxRetries, k);
    }
  }

  /** The rows a table's sync reports as synced: the whole batch if some attempt succeeds, none otherwise. */
  ghost function TableCount(fetched: Fetch, ok: nat -> bool, maxRetries: int): nat
  {
    if fetched.Rows? && fetched.ids != [] && AnySuccess(ok, maxRetries) then |fetched.ids| else 0
  }

  /** A table's flags after its sync: the batch marked if some attempt succeeds, unchanged otherwise. */
  ghost function FlagsAfter(t: Flags, fetched: Fetch, ok: nat -> bool, maxRetries: int): Flags
  {
    if fetched.Rows? && fetched.ids != [] && AnySuccess(ok, maxRetries) then MarkIds(t, fetched.ids) else t
  }

  // ---------------------------------------------------------------------------
  // A full pass
  // ---------------------------------------------------------------------------

  /** The total a pass over `tables` reports: the sum of the per-table counts. */
  ghost function PassTotal(tables: seq<string>, fetch: string -> Fetch, sendOk: string -> nat -> bool, maxRetries: int): nat
    decreases |tables|
  {
    if |tables| == 0 then 0
    else
      var n := |tables| - 1;
      PassTotal(tables[..n], fetch, sendOk, maxRetries) + TableCount(fetch(tables[n]), sendOk(tables[n]), maxRetries)
  }

  /** How many of the tables raise when fetched. */
  function FailedCount(tables: seq<string>, fetch: string -> Fetch): nat
    decreases |tables|
  {
    if |tables| == 0 then 0
    else
      var n := |tables| - 1;
      FailedCount(tables[..n], fetch) + (if fetch(tables[n]).Failed? then 1 else 0)
  }

  /** A pass reports a positive total (status "Success") exactly when some table synced a non-empty batch. */
  lemma {:induction false} PassTotalPositive(tables: seq<string>, fetch: string -> Fetch, sendOk: string -> nat -> bool, maxRetries: int)
    ensures PassTotal(tables, fetch, sendOk, maxRetries) > 0 <==>
      exists i :: 0 <= i < |tables| && TableCount(fetch(tables[i]), sendOk(tables[i]), maxRetries) > 0
    decreases |tables|
  {
    if |tables| > 0 {
      var n := |tables| - 1;
      PassTotalPositive(tables[..n], fetch, sendOk, maxRetries);
      if exists i :: 0 <= i < |tables| && TableCount(fetch(tables[i]), sendOk(tables[i]), maxRetries) > 0 {
        var i :| 0 <= i < |tables| && TableCount(fetch(tables[i]), sendOk(tables[i]), maxRetries) > 0;
        if i < n {
          assert tables[..n][i] == tables[i];
        }
      }
      if exists i :: 0 <= i < n && TableCount(fetch(tables[..n][i]), sendOk(tables[..n][i]), maxRetries) > 0 {
        var i :| 0 <= i < n && TableCount(fetch(tables[..n][i]), sendOk(tables[..n][i]), maxRetries) > 0;
        assert tables[..n][i] == tables[i];
      }
    }
  }

  /** A pass never reports more rows than the tables' batches hold. */
  lemma {:induction false} PassTotalBounded(tables: seq<string>, fetch: string -> Fetch, sendOk: string -> nat -> bool, maxRetries: int)
    ensures PassTotal(tables, fetch, sendOk, maxRetries) <= FetchedTotal(tables, fetch)
    decreases |tables|
  {
    if |tables| > 0 {
      PassTotalBounded(tables[..|tables| - 1], fetch, sendOk, maxRetries);
    }
  }

  /** The number of rows the tables' queries return. */
  function FetchedTotal(tables: seq<string>, fetch: string -> Fetch): nat
    decreases |tables|
  {
    if |tables| == 0 then 0
    else
      var n := |tables| - 1;
      var f := fetch(tables[n]);
      FetchedTotal(tables[..n], fetch) + (if f.Rows? then |f.ids| else 0)
  }

  /** The database after a pass over `tables`: each table's flags as its sync leaves them, in turn. */
  ghost function PassFlags(db: map<string, Flags>, tables: seq<string>, fetch: string -> Fetch,
                           sendOk: string -> nat -> bool, maxRetries: int): map<string, Flags>
    decreases |tables|
  {
    if |tables| == 0 then db
    else
      var n := |tables| - 1;
      var d := PassFlags(db, tables[..n], fetch, sendOk, maxRetries);
      var t := tables[n];
      if t in d then d[t := FlagsAfter(d[t], fetch(t), sendOk(t), maxRetries)] else d
  }

  /** A pass adds no table and removes none. */
  lemma {:induction false} PassFlagsKeys(db: map<string, Flags>, tables: seq<string>, fetch: string -> Fetch,
                                         sendOk: string -> nat -> bool, maxRetries: int)
    ensures PassFlags(db, tables, fetch, sendOk, maxRetries).Keys == db.Keys
    decreases |tables|
  {
    if |tables| > 0 {
      PassFlagsKeys(db, tables[..|tables| - 1], fetch, sendOk, maxRetries);
    }
  }

  /** One more table: each of the three folds of a pass takes one step. */
  lemma PassStep(db: map<string, Flags>, tables: seq<string>, t: string, fetch: string -> Fetch,
                 sendOk: string -> nat -> bool, maxRetries: int)
    ensures var d := PassFlags(db, tables, fetch, sendOk, maxRetries);
      PassFlags(db, tables + [t], fetch, sendOk, maxRetries) ==
        if t in d then d[t := FlagsAfter(d[t], fetch(t), sendOk(t), maxRetries)] else d
    ensures PassTotal(tables + [t], fetch, sendOk, maxRetries) ==
      PassTotal(tables, fetch, sendOk, maxRetries) + TableCount(fetch(t), sendOk(t), maxRetries)
    ensures FailedCount(tables + [t], fetch) == FailedCount(tables, fetch) + (if fetch(t).Failed? then 1 else 0)
  {
    assert (tables + [t])[..|tables|] == tables;
  }

  /**
   * A pass over distinct tables leaves each of them as its own sync leaves it, starting from
   * its flags before the pass, and every other table as it was.
   */
  lemma {:induction false} PassFlagsLookup(db: map<string, Flags>, tables: seq<string>, fetch: string -> Fetch,
                                           sendOk: string -> nat -> bool, maxRetries: int)
    requires forall a, b :: 0 <= a < b < |tables| ==> tables[a] != tables[b]
    ensures PassFlags(db, tables, fetch, sendOk, maxRetries).Keys == db.Keys
    ensures forall t :: t in db && t in tables ==>
      PassFlags(db, tables, fetch, sendOk, maxRetries)[t] == FlagsAfter(db[t], fetch(t), sendOk(t), maxRetries)
    ensures forall t :: t in db && t !in tables ==> PassFlags(db, tables, fetch, sendOk, maxRetries)[t] == db[t]
    decreases |tables|
  {
    PassFlagsKeys(db, tables, fetch, sendOk, maxRetries);
    if |tables| > 0 {
      var n := |tables| - 1;
      var init := tables[..n];
      PassFlagsLookup(db, init, fetch, sendOk, maxRetries);
      PassFlagsKeys(db, init, fetch, sendOk, maxRetries);
      assert tables == init + [tables[n]];
      assert tables[n] !in init by {
        assert forall a :: 0 <= a < n ==> init[a] != tables[n];
      }
    }
  }

  /** The four tables have different names, so syncing one never touches another. */
  lemma TablesDistinct()
    ensures forall a, b :: 0 <= a < b < |Tables| ==> Tables[a] != Tables[b]
  {
    assert Tables[0][0] == 'b' && Tables[1][0] == 'e' && Tables[2][1] == 'p' && Tables[3][1] == 'y';
    assert Tables[2][0] == 's' && Tables[3][0] == 's';
  }

  /** A pass over the four tables leaves each as its own sync leaves it, and every other table as it was. */
  lemma PassOverTables(db: map<string, Flags>, fetch: string -> Fetch, sendOk: string -> nat -> bool, maxRetries: int)
    ensures PassFlags(db, Tables, fetch, sendOk, maxRetries).Keys == db.Keys
    ensures forall t {:trigger PassFlags(db, Tables, fetch, sendOk, maxRetries)[t]} :: t in db && t in Tables ==>
      PassFlags(db, Tables, fetch, sendOk, maxRetries)[t] == FlagsAfter(db[t], fetch(t), sendOk(t), maxRetries)
    ensures forall t {:trigger PassFlags(db, Tables, fetch, sendOk, maxRetries)[t]} :: t in db && t !in Tables ==>
      PassFlags(db, Tables, fetch, sendOk, maxRetries)[t] == db[t]
  {
    TablesDistinct();
    PassFlagsLookup(db, Tables, fetch, sendOk, maxRetries);
  }

  /** The status a pass leaves. */
  function Status(total: nat): string
  {
    if total > 0 then "Success" else "No data"
  }

  // ---------------------------------------------------------------------------
  // Statistics
  // ---------------------------------------------------------------------------

  /** The API URL as the statistics show it: cut to 50 characters plus "..." when longer. */
  function ShownUrl(url: string): (r: string)
    ensures |url| <= UrlShown ==> r == url
    ensures |url| > UrlShown ==> |r| == UrlShown + 3 && r[..UrlShown] == url[..UrlShown] && r[UrlShown..] == "..."
  {
    if |url| > UrlShown then url[..UrlShown] + "..." else url
  }

  /** The shown URL is never longer than 53 characters and always starts like the URL. */
  lemma ShownUrlBounded(url: string)
    ensures |ShownUrl(url)| <= UrlShown + 3
    ensures var k := if |url| < UrlShown then |url| else UrlShown; ShownUrl(url)[..k] == url[..k]
  {
  }

  /** What `get_sync_statistics` reports. */
  datatype Statistics = Statistics(
    totalSynced: int,
    failedSyncs: int,
    lastSyncTime: Option<int>,
    lastSyncStatus: string,
    pendingSync: map<string, nat>,
    syncInterval: int,
    apiUrl: string)

  // ---------------------------------------------------------------------------
  // The manager
  // ---------------------------------------------------------------------------

  /** `CloudSyncManager`: its settings, its statistics and the synced flags of the database it syncs. */
  class CloudSyncManager {
    const apiUrl: string
    const apiKey: string
    const syncInterval: int
    const batchSize: int
    const maxRetries: int
    var totalSynced: int
    var failedSyncs: int
    /** The time of the last pass, in seconds; None before the first. */
    var lastSyncTime: Option<int>
    var lastSyncStatus: string
    /** The synced flags of the database at `db_path`, table by table. */
    var db: map<string, Flags>

    /** Every table a pass visits exists in the database. */
    ghost predicate Valid()
      reads this
    {
      forall t :: t in Tables ==> t in db
    }

    constructor (config: Config, tables: map<string, Flags>)
      requires forall t :: t in Tables ==> t in tables
      ensures Valid() && db == tables
      ensures apiUrl == config.apiUrl.GetOr(DefaultApiUrl) && apiKey == config.apiKey.GetOr(DefaultApiKey)
      ensures syncInterval == config.syncInterval.GetOr(DefaultSyncInterval)
      ensures batchSize == config.batchSize.GetOr(DefaultBatchSize)
      ensures maxRetries == config.maxRetries.GetOr(DefaultMaxRetries)
      ensures totalSynced == 0 && failedSyncs == 0 && lastSyncTime == None && lastSyncStatus == "Never"
    {
      apiUrl := config.apiUrl.GetOr(DefaultApiUrl);
      apiKey := config.apiKey.GetOr(DefaultApiKey);
      syncInterval := config.syncInterval.GetOr(DefaultSyncInterval);
      batchSize := config.batchSize.GetOr(DefaultBatchSize);
      maxRetries := config.maxRetries.GetOr(DefaultMaxRetries);
      totalSynced := 0;
      failedSyncs := 0;
      lastSyncTime := None;
      lastSyncStatus := "Never";
      db := tables;
    }

    /** `_mark_synced`: an empty list returns at once; otherwise the listed rows of the table become synced. */
    method MarkSynced(table: string, ids: seq<int>)
      requires table in db
      modifies this`db
      ensures db == if ids == [] then old(db) else old(db)[table := MarkIds(old(db)[table], ids)]
    {
      if ids == [] {
        return;
      }
      db := db[table := MarkIds(db[table], ids)];
    }

    /**
     * `_sync_table_data`. `fetched` is what the unsynced-row query gives and `ok(k)` whether the
     * k-th send succeeds. Nothing fetched means no send; otherwise attempts go on until the first
     * success, which marks exactly the fetched rows and returns their number, or until
     * `maxRetries` attempts have failed. Every failed attempt, the last included, is followed
     * by a sleep of `2 ** attempt` seconds, returned in `sleeps`. A failed query raises.
     */
    method SyncTableData(table: string, fetched: Fetch, ok: nat -> bool)
      returns (raised: bool, count: nat, attempts: nat, sleeps: seq<nat>)
      requires table in db
      modifies this`db
      ensures raised <==> fetched.Failed?
      ensures count == TableCount(fetched, ok, maxRetries)
      ensures db == old(db)[table := FlagsAfter(old(db)[table], fetched, ok, maxRetries)]
      ensures fetched.Failed? || fetched.ids == [] ==> attempts == 0 && sleeps == []
      ensures fetched.Rows? && fetched.ids != [] && AnySuccess(ok, maxRetries) ==>
        attempts > 0 && FirstSuccessAt(ok, maxRetries, attempts - 1) && sleeps == Backoffs(attempts - 1)
      ensures fetched.Rows? && fetched.ids != [] && !AnySuccess(ok, maxRetries) ==>
        attempts == (if maxRetries > 0 then maxRetries else 0) && sleeps == Backoffs(attempts)
    {
      raised, count, attempts, sleeps := false, 0, 0, [];
      if fetched.Failed? {
        raised := true;
        return;
      }
      var unsynced := fetched.ids;
      if unsynced == [] {
        return;
      }
      var attempt: nat := 0;
      while attempt < maxRetries
        invariant attempt <= maxRetries || attempt == 0
        invariant attempts == attempt && sleeps == Backoffs(attempt)
        invariant forall j: nat :: j < attempt ==> !ok(j)
        invariant db == old(db) && count == 0
        decreases maxRetries - attempt
      {
        attempts := attempts + 1;
        if ok(attempt) {
          assert FirstSuccessAt(ok, maxRetries, attempt);
          MarkSynced(table, unsynced);
          count := |unsynced|;
          return;
        }
        sleeps := sleeps + [Pow2(attempt)];
        assert sleeps == Backoffs(attempt + 1);
        attempt := attempt + 1;
      }
      assert !AnySuccess(ok, maxRetries);
      assert old(db)[table := old(db)[table]] == old(db);
    }

    /**
     * The loop of `sync_all_data`: the given tables are synced in turn; a table whose query
     * raises adds one to `failedSyncs` and nothing to the total.
     */
    method SyncTables(tables: seq<string>, fetch: string -> Fetch, sendOk: string -> nat -> bool) returns (total: nat)
      requires forall t :: t in tables ==> t in db
      modifies this`db, this`failedSyncs
      ensures db == PassFlags(old(db), tables, fetch, sendOk, maxRetries)
      ensures total == PassTotal(tables, fetch, sendOk, maxRetries)
      ensures failedSyncs == old(failedSyncs) + FailedCount(tables, fetch)
    {
      total := 0;
      for i := 0 to |tables|
        invariant db == PassFlags(old(db), tables[..i], fetch, sendOk, maxRetries)
        invariant total == PassTotal(tables[..i], fetch, sendOk, maxRetries)
        invariant failedSyncs == old(failedSyncs) + FailedCount(tables[..i], fetch)
      {
        var table := tables[i];
        assert tables[..i + 1] == tables[..i] + [table];
        PassStep(old(db), tables[..i], table, fetch, sendOk, maxRetries);
        PassFlagsKeys(old(db), tables[..i], fetch, sendOk, maxRetries);
        var raised, count, _, _ := SyncTableData(table, fetch(table), sendOk(table));
        if raised {
          failedSyncs := failedSyncs + 1;
        } else {
          total := total + count;
        }
      }
      assert tables[..|tables|] == tables;
    }

    /**
     * `sync_all_data`: one pass over the four tables, then the counters, the time and the
     * status. `fetch` and `sendOk` give each table's query result and send outcomes, `now` the
     * clock reading.
     */
    method SyncAllData(fetch: string -> Fetch, sendOk: string -> nat -> bool, now: int) returns (total: nat)
      requires Valid()
      modifies this`db, this`totalSynced, this`failedSyncs, this`lastSyncTime, this`lastSyncStatus
      ensures Valid() && db.Keys == old(db).Keys
      ensures total == PassTotal(Tables, fetch, sendOk, maxRetries)
      ensures totalSynced == old(totalSynced) + total
      ensures failedSyncs == old(failedSyncs) + FailedCount(Tables, fetch)
      ensures lastSyncTime == Some(now) && lastSyncStatus == Status(total)
      ensures forall t :: t in Tables ==> db[t] == FlagsAfter(old(db)[t], fetch(t), sendOk(t), maxRetries)
      ensures forall t :: t in old(db) && t !in Tables ==> db[t] == old(db)[t]
    {
      total := SyncTables(Tables, fetch, sendOk);
      PassOverTables(old(db), fetch, sendOk, maxRetries);
      totalSynced := totalSynced + total;
      lastSyncTime := Some(now);
      lastSyncStatus := if total > 0 then "Success" else "No data";
    }

    /**
     * `get_sync_statistics`: the counters, each table's number of pending rows, the interval
     * and the API URL shortened to at most 53 characters.
     */
    function SyncStatistics(): (s: Statistics)
      requires Valid()
      reads this
      ensures s.pendingSync.Keys == set t | t in Tables
      ensures forall t :: t in Tables ==> s.pendingSync[t] == |Unsynced(db[t])|
      ensures s.apiUrl == ShownUrl(apiUrl) && |s.apiUrl| <= UrlShown + 3
    {
      Statistics(totalSynced, failedSyncs, lastSyncTime, lastSyncStatus,
                 map t | t in Tables :: |Unsynced(db[t])|, syncInterval, ShownUrl(apiUrl))
    }
  }
}
