/**
 * The settings service of src/config/index.ts: one process-wide cache slot in
 * front of the settings file, a best-effort mirror of every saved value into
 * row 1 of the `settings` table, and a restore path that pulls that row back
 * into the cache and the file.
 *
 * The file and the database are modelled as abstract stores held by the
 * service. Whether a particular read, write or query succeeds is outside the
 * program's control, so each operation takes that outcome as a parameter.
 */
module Settings {
  import opened Wrappers

  /** One MCP server definition: launch command, arguments and environment. */
  datatype ServerConfig = ServerConfig(command: string, args: seq<string>, env: map<string, string>)

  /** One user record. */
  datatype User = User(username: string, isAdmin: bool)

  /** The settings aggregate: the server registry and the user list. */
  datatype McpSettings = McpSettings(mcpServers: map<string, ServerConfig>, users: seq<User>)

  /** `{ mcpServers: {}, users: [] }`, used when the file cannot be read or parsed. */
  const DefaultSettings := McpSettings(map[], [])

  /** The settings table holds a single row, always with this id. */
  const SettingsRowId := 1

  /** The answer of `getSettingsCacheInfo`. */
  datatype CacheInfo = CacheInfo(hasCache: bool)

  /**
   * What became of the mirror write that a successful save starts and does
   * not wait for: the repository save completed, it failed (the error is
   * swallowed), or it was still in flight when the process went away.
   */
  datatype MirrorOutcome = Completed | Failed | Abandoned

  class SettingsService {
    /** `settingsCache`: empty until the first load, save or restore. */
    var cache: Option<McpSettings>
    /** The settings file: its parsed content, or None when it is missing or not valid JSON. */
    var file: Option<McpSettings>
    /** `isInitialized` of the database connection. */
    var dbInitialized: bool
    /** The settings table by id; a row whose `data` is empty maps to None. */
    var rows: map<int, Option<McpSettings>>
    /** How many times the file has been read. */
    ghost var fileReads: nat

    /** A fresh process: nothing cached yet, the stores as they are on disk and in the database. */
    constructor (file: Option<McpSettings>, dbInitialized: bool, rows: map<int, Option<McpSettings>>)
      ensures this.cache == None && this.fileReads == 0
      ensures this.file == file && this.dbInitialized == dbInitialized && this.rows == rows
    {
      this.cache := None;
      this.file := file;
      this.dbInitialized := dbInitialized;
      this.rows := rows;
      this.fileReads := 0;
    }

    /**
     * `findOneBy({ id: 1 })` followed by the test on `row.data`: the payload
     * of row 1, or None when there is no such row or its payload is empty.
     */
    function StoredRow(): (r: Option<McpSettings>)
      reads this
      ensures r.Some? <==> SettingsRowId in rows && rows[SettingsRowId].Some?
      ensures r.Some? ==> rows[SettingsRowId] == r
    {
      if SettingsRowId in rows then rows[SettingsRowId] else None
    }

    /**
     * `loadSettings`. A filled cache is returned as it is, without touching
     * the file. Otherwise the file is read once: its content when the read
     * succeeds and parses, the default otherwise; either way the result is
     * cached, so a failure is not retried on the next call.
     */
    method LoadSettings(readOk: bool) returns (s: McpSettings)
      modifies this`cache, this`fileReads
      ensures cache == Some(s)
      ensures old(cache).Some? ==> s == old(cache).value && fileReads == old(fileReads)
      ensures old(cache).None? ==> fileReads == old(fileReads) + 1
      ensures old(cache).None? && readOk && file.Some? ==> s == file.value
      ensures old(cache).None? && !(readOk && file.Some?) ==> s == DefaultSettings
    {
      if cache.Some? {
        return cache.value;
      }
      fileReads := fileReads + 1;
      if readOk && file.Some? {
        s := file.value;
        cache := Some(s);
      } else {
        s := DefaultSettings;
        cache := Some(s);
      }
    }

    /**
     * `saveSettings`. When the file write succeeds the cache takes the new
     * value, the mirror write is started, and the answer is true whatever the
     * mirror does. When the write fails nothing changes and the answer is false.
     */
    method SaveSettings(settings: McpSettings, writeOk: bool, mirror: MirrorOutcome) returns (ok: bool)
      modifies this`cache, this`file, this`rows
      ensures ok == writeOk
      ensures cache == if ok then Some(settings) else old(cache)
      ensures file == if ok then Some(settings) else old(file)
      ensures rows == if ok && dbInitialized && mirror == Completed
                      then old(rows)[SettingsRowId := Some(settings)] else old(rows)
    {
      if !writeOk {
        return false;
      }
      file := Some(settings);
      cache := Some(settings);
      SaveSettingsToDatabase(settings, mirror);
      ok := true;
    }

    /**
     * `saveSettingsToDatabase`: upsert row 1 with the settings. Nothing happens
     * while the database is not initialized, and a failed or abandoned write
     * leaves the table as it was.
     */
    method SaveSettingsToDatabase(settings: McpSettings, mirror: MirrorOutcome)
      modifies this`rows
      ensures rows == if dbInitialized && mirror == Completed
                      then old(rows)[SettingsRowId := Some(settings)] else old(rows)
      ensures StoredRow() == if dbInitialized && mirror == Completed then Some(settings) else old(StoredRow())
    {
      if !dbInitialized {
        return;
      }
      if mirror == Completed {
        rows := rows[SettingsRowId := Some(settings)];
      }
    }

    /** `clearSettingsCache`: empty the slot, so the next load reads the file. */
    method ClearSettingsCache()
      modifies this`cache
      ensures cache == None
    {
      cache := None;
    }

    /** `getSettingsCacheInfo`: whether the slot is filled; changes nothing. */
    method GetSettingsCacheInfo() returns (info: CacheInfo)
      ensures info.hasCache <==> cache.Some?
    {
      info := CacheInfo(cache != None);
    }

    /**
     * `restoreSettingsFromDatabase`. With the database initialized and the
     * query answered, a stored row with a payload becomes the cache, and is
     * then written to the file if that write succeeds. A missing row, an
     * uninitialized database or a failed query leaves everything as it was.
     */
    method RestoreSettingsFromDatabase(queryOk: bool, writeOk: bool)
      modifies this`cache, this`file
      ensures dbInitialized && queryOk && old(StoredRow()).Some? ==> cache == old(StoredRow())
      ensures !(dbInitialized && queryOk && old(StoredRow()).Some?) ==> cache == old(cache)
      ensures file == if dbInitialized && queryOk && old(StoredRow()).Some? && writeOk
                      then old(StoredRow()) else old(file)
    {
      if !dbInitialized || !queryOk {
        return;
      }
      var row := StoredRow();
      if row.Some? {
        cache := row;
        if writeOk {
          file := row;
        }
      }
    }
  }

  // ---------------------------------------------------------------------------
  // Properties of call sequences, as client methods over the contracts above.
  // ---------------------------------------------------------------------------

  /** Two loads with nothing in between return the same value and read the file at most once. */
  method LoadTwice(svc: SettingsService, readOk1: bool, readOk2: bool) returns (s1: McpSettings, s2: McpSettings)
    modifies svc
    ensures s1 == s2
    ensures svc.fileReads <= old(svc.fileReads) + 1
    ensures old(svc.cache).Some? ==> svc.fileReads == old(svc.fileReads)
  {
    s1 := svc.LoadSettings(readOk1);
    s2 := svc.LoadSettings(readOk2);
  }

  /** A missing file yields the default, which is cached: the next load returns it without a read. */
  method LoadDefaultWhenMissing(svc: SettingsService, readOk1: bool, readOk2: bool) returns (s1: McpSettings, s2: McpSettings)
    requires svc.cache == None && svc.file == None
    modifies svc
    ensures s1 == DefaultSettings && s2 == DefaultSettings
    ensures svc.fileReads == old(svc.fileReads) + 1
  {
    s1 := svc.LoadSettings(readOk1);
    s2 := svc.LoadSettings(readOk2);
  }

  /** After a successful save, a load returns exactly the saved value, whatever the mirror did. */
  method SaveThenLoad(svc: SettingsService, settings: McpSettings, writeOk: bool, mirror: MirrorOutcome, readOk: bool)
    returns (ok: bool, loaded: McpSettings)
    modifies svc
    ensures ok == writeOk
    ensures ok ==> loaded == settings && svc.file == Some(settings) && svc.fileReads == old(svc.fileReads)
    ensures !ok ==> svc.file == old(svc.file)
    ensures !ok && old(svc.cache).Some? ==> loaded == old(svc.cache).value
  {
    ok := svc.SaveSettings(settings, writeOk, mirror);
    loaded := svc.LoadSettings(readOk);
  }

  /**
   * Mirror non-interference: two services in the same state, saving the same
   * value, agree on the answer, the cache and the file whatever their mirror
   * writes do.
   */
  method MirrorDoesNotInterfere(a: SettingsService, b: SettingsService, settings: McpSettings,
                                writeOk: bool, mirrorA: MirrorOutcome, mirrorB: MirrorOutcome)
    returns (okA: bool, okB: bool)
    requires a != b
    requires a.cache == b.cache && a.file == b.file
    modifies a, b
    ensures okA == okB && a.cache == b.cache && a.file == b.file
  {
    okA := a.SaveSettings(settings, writeOk, mirrorA);
    okB := b.SaveSettings(settings, writeOk, mirrorB);
  }

  /** Clearing twice is the same as clearing once; afterwards the cache is reported empty. */
  method ClearIsIdempotent(svc: SettingsService) returns (info: CacheInfo)
    modifies svc
    ensures !info.hasCache
    ensures svc.file == old(svc.file) && svc.rows == old(svc.rows) && svc.fileReads == old(svc.fileReads)
  {
    svc.ClearSettingsCache();
    svc.ClearSettingsCache();
    info := svc.GetSettingsCacheInfo();
  }

  /** After a clear, the next load reads the file again, even when a value was cached before. */
  method ClearThenLoad(svc: SettingsService, readOk: bool) returns (s: McpSettings)
    modifies svc
    ensures svc.fileReads == old(svc.fileReads) + 1
    ensures readOk && svc.file.Some? ==> s == svc.file.value
  {
    svc.ClearSettingsCache();
    s := svc.LoadSettings(readOk);
  }

  /**
   * Restore precedence: with an empty file store and a stored row, restore
   * followed by load returns the stored value, and a successful file write
   * leaves that same value in the file.
   */
  method RestoreThenLoad(svc: SettingsService, stored: McpSettings, writeOk: bool, readOk: bool)
    returns (loaded: McpSettings)
    requires svc.dbInitialized && svc.file == None
    requires SettingsRowId in svc.rows && svc.rows[SettingsRowId] == Some(stored)
    modifies svc
    ensures loaded == stored
    ensures writeOk ==> svc.file == Some(stored)
    ensures svc.fileReads == old(svc.fileReads)
  {
    svc.RestoreSettingsFromDatabase(true, writeOk);
    loaded := svc.LoadSettings(readOk);
  }
}
