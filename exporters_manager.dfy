/** The exporters manager: one event-log exporter per infobase of a 1C
    server cluster.  It validates its configuration, starts an exporter for
    every infobase whose log is in the old format, keeps a registry of the
    running exporters by infobase id, reacts to the registry watcher's
    events, and cancels every exporter when the host stops.

    The file system is the set `existing` of the paths that exist; the time
    zone database is the predicate `knownZone` and the system zone the
    string `systemZone`.  A running exporter is its settings, its storage
    and the state of its cancellation token; the exporter task itself is
    not modelled here. */
module Manager {
  import opened Wrappers
  import opened Strings
  import opened ElasticHost
  import CH = ClickHouseCore
  import ES = ElasticStorage
  import Clst

  datatype StorageType = NoStorage | ClickHouse | ElasticSearch | OtherStorage(code: int)

  /** The configuration keys the manager reads; None is an absent key.
      ClstFolderExists stands for Directory.Exists of the folder. */
  datatype ManagerConfiguration = ManagerConfiguration(
    clstFolder: Option<string>,
    clstFolderExists: bool,
    infoBasePattern: Option<string>,
    storageType: Option<StorageType>,
    portion: Option<int>,
    writingMaxdop: Option<int>,
    collectedFactor: Option<int>,
    loadArchive: Option<bool>,
    readingTimeout: Option<int>,
    timeZone: Option<string>,
    connectionString: Option<string>,
    nodes: seq<ElasticSearchNode>,
    separation: Option<string>)

  /** The manager's settings after its constructor. */
  datatype ManagerSettings = ManagerSettings(
    storageType: StorageType,
    clstFolder: string,
    infoBasePattern: string,
    portion: int,
    timeZone: string,
    writingMaxdop: int,
    collectedFactor: int,
    loadArchive: bool,
    readingTimeout: int,
    connectionString: string,
    nodes: seq<ElasticSearchNode>,
    separation: string)

  // ---------------------------------------------------------------------
  // Settings

  /** CheckSettings: the first failed check throws, in the order written. */
  function CheckSettings(storageType: StorageType, clstFolder: string, clstFolderExists: bool,
                         writingMaxdop: int, collectedFactor: int): (o: Outcome)
    ensures o.Pass? <==> !storageType.NoStorage? && clstFolder != "" && clstFolderExists &&
                         writingMaxdop > 0 && collectedFactor > 0
    ensures storageType.NoStorage? ==> o == Fail(InvalidSettings("StorageType parameter is not specified"))
    ensures !storageType.NoStorage? && clstFolder == "" ==>
              o == Fail(InvalidSettings("\"ClstFolder\" property is not specified"))
    ensures !storageType.NoStorage? && clstFolder != "" && !clstFolderExists ==>
              o == Fail(InvalidSettings("Clst folder (" + clstFolder + ") doesn't exist"))
    ensures !storageType.NoStorage? && clstFolder != "" && clstFolderExists && writingMaxdop <= 0 ==>
              o == Fail(InvalidSettings("WritingMaxDegreeOfParallelism cannot be equal to or less than 0"))
    ensures !storageType.NoStorage? && clstFolder != "" && clstFolderExists && writingMaxdop > 0 && collectedFactor <= 0 ==>
              o == Fail(InvalidSettings("CollectedFactor cannot be equal to or less than 0"))
  {
    if storageType.NoStorage? then Fail(InvalidSettings("StorageType parameter is not specified"))
    else if clstFolder == "" then Fail(InvalidSettings("\"ClstFolder\" property is not specified"))
    else if !clstFolderExists then Fail(InvalidSettings("Clst folder (" + clstFolder + ") doesn't exist"))
    else if writingMaxdop <= 0 then Fail(InvalidSettings("WritingMaxDegreeOfParallelism cannot be equal to or less than 0"))
    else if collectedFactor <= 0 then Fail(InvalidSettings("CollectedFactor cannot be equal to or less than 0"))
    else Pass
  }

  /** The time zone: a blank name keeps the system zone, an unknown name
      throws. */
  function ResolveTimeZone(name: string, knownZone: string -> bool, systemZone: string): (r: Result<string>)
    ensures IsBlank(name) ==> r == Ok(systemZone)
    ensures !IsBlank(name) ==> (r.Ok? <==> knownZone(name))
    ensures !IsBlank(name) && r.Ok? ==> r.value == name
    ensures r.Err? ==> r.error == UnknownTimeZone(name)
  {
    if IsBlank(name) then Ok(systemZone)
    else if knownZone(name) then Ok(name)
    else Err(UnknownTimeZone(name))
  }

  /** The constructor: defaults, the time zone, CheckSettings, and the
      settings of the chosen storage. */
  function SettingsOf(c: ManagerConfiguration, knownZone: string -> bool, systemZone: string): (r: Result<ManagerSettings>)
    ensures var tz := ValueOr(c.timeZone, "");
            var storageType := ValueOr(c.storageType, NoStorage);
            var check := CheckSettings(storageType, ValueOr(c.clstFolder, ""), c.clstFolderExists,
                                       ValueOr(c.writingMaxdop, 1), ValueOr(c.collectedFactor, 2));
            && (r.Ok? <==> (IsBlank(tz) || knownZone(tz)) && check.Pass? &&
                           (storageType.ClickHouse? ==> ValueOr(c.connectionString, "") != ""))
            && (!IsBlank(tz) && !knownZone(tz) ==> r == Err(UnknownTimeZone(tz)))
            && ((IsBlank(tz) || knownZone(tz)) && check.Fail? ==> r == Err(check.error))
            && (r.Err? && check.Pass? && (IsBlank(tz) || knownZone(tz)) ==>
                  r == Err(InvalidSettings("Connection string is not specified")))
            && (r.Ok? ==> r.value.timeZone == (if IsBlank(tz) then systemZone else tz))
    ensures r.Ok? ==> r.value.portion == ValueOr(c.portion, 10000) && r.value.writingMaxdop == ValueOr(c.writingMaxdop, 1) &&
                      r.value.collectedFactor == ValueOr(c.collectedFactor, 2) && r.value.loadArchive == ValueOr(c.loadArchive, false) &&
                      r.value.readingTimeout == ValueOr(c.readingTimeout, 1)
    ensures r.Ok? && r.value.storageType.ElasticSearch? ==>
              r.value.nodes == c.nodes && r.value.separation == ValueOr(c.separation, "H")
    ensures r.Ok? && r.value.storageType.ClickHouse? ==> r.value.connectionString == ValueOr(c.connectionString, "")
  {
    var timeZone :- ResolveTimeZone(ValueOr(c.timeZone, ""), knownZone, systemZone);
    var storageType := ValueOr(c.storageType, NoStorage);
    var clstFolder := ValueOr(c.clstFolder, "");
    var writingMaxdop := ValueOr(c.writingMaxdop, 1);
    var collectedFactor := ValueOr(c.collectedFactor, 2);
    var check := CheckSettings(storageType, clstFolder, c.clstFolderExists, writingMaxdop, collectedFactor);
    if check.Fail? then Err(check.error)
    else
      var connectionString := if storageType.ClickHouse? then ValueOr(c.connectionString, "") else "";
      if storageType.ClickHouse? && connectionString == "" then Err(InvalidSettings("Connection string is not specified"))
      else
        var nodes := if storageType.ElasticSearch? then c.nodes else [];
        var separation := if storageType.ElasticSearch? then ValueOr(c.separation, "H") else "";
        Ok(ManagerSettings(storageType, clstFolder, ValueOr(c.infoBasePattern, ""), ValueOr(c.portion, 10000),
                           timeZone, writingMaxdop, collectedFactor, ValueOr(c.loadArchive, false),
                           ValueOr(c.readingTimeout, 1), connectionString, nodes, separation))
  }

  // ---------------------------------------------------------------------
  // Paths and storages

  /** Path.Combine with '/' as the separator. */
  function Combine(a: string, b: string): (r: string)
    ensures a == "" ==> r == b
    ensures a != "" ==> |r| >= |a| + |b| && r[..|a|] == a && r[|r| - |b|..] == b
  {
    if a == "" then b
    else if a[|a| - 1] == '/' then a + b
    else a + "/" + b
  }

  /** The log folder of an infobase and its old-format reference file. */
  function LogFolder(clstFolder: string, id: string): string
  {
    Combine(Combine(clstFolder, id), "1Cv8Log")
  }

  function LgfPath(clstFolder: string, id: string): string
  {
    Combine(LogFolder(clstFolder, id), "1Cv8.lgf")
  }

  /** What GetStorage constructs: a ClickHouse storage with its parsed
      connection settings, or a search-index storage. */
  datatype StorageTarget =
    | ClickHouseTarget(connection: CH.ConnectionSettings)
    | ElasticTarget(nodes: seq<ElasticSearchNode>, index: string, separation: string)

  const UnknownStorageMessage: string := "Try to get a storage for unknown StorageType value"

  /** The name every storage of an infobase gets: the infobase name and
      "-el". */
  function StorageName(ibName: string): string
  {
    ibName + "-el"
  }

  /** GetStorage: the storage's own constructor checks apply. */
  function GetStorage(s: ManagerSettings, ibName: string): (r: Result<StorageTarget>)
    ensures s.storageType.ClickHouse? ==>
              var cs := s.connectionString + CH.DatabaseKey + StorageName(ibName) + ";";
              (r.Ok? <==> CH.ParseConnectionString(cs).Ok?) &&
              (r.Ok? ==> r.value == ClickHouseTarget(CH.ParseConnectionString(cs).value)) &&
              (r.Err? ==> r.error == CH.ParseConnectionString(cs).error)
    ensures s.storageType.ElasticSearch? ==>
              (r.Ok? <==> |s.nodes| > 0) &&
              (r.Ok? ==> r.value == ElasticTarget(s.nodes, StorageName(ibName), s.separation)) &&
              (r.Err? ==> r.error == ES.CheckSettings(s.nodes, StorageName(ibName)).error)
    ensures !s.storageType.ClickHouse? && !s.storageType.ElasticSearch? ==> r == Err(InvalidSettings(UnknownStorageMessage))
  {
    match s.storageType
    case ClickHouse =>
      var connection :- CH.ParseConnectionString(s.connectionString + CH.DatabaseKey + StorageName(ibName) + ";");
      Ok(ClickHouseTarget(connection))
    case ElasticSearch =>
      var check := ES.CheckSettings(s.nodes, StorageName(ibName));
      if check.Fail? then Err(check.error) else Ok(ElasticTarget(s.nodes, StorageName(ibName), s.separation))
    case _ => Err(InvalidSettings(UnknownStorageMessage))
  }

  /** The ClickHouse storage of an infobase writes to the database
      "<name>-el" and connects with the configured string, as long as that
      string names no database itself. */
  lemma ClickHouseDatabaseIsInfoBaseName(s: ManagerSettings, ibName: string)
    requires s.storageType.ClickHouse?
    requires forall i :: 0 <= i < |s.connectionString| ==> !CH.KeyAtCI(s.connectionString, i)
    requires forall k :: 0 <= k < |ibName| ==> ibName[k] != ';' && ibName[k] != '\n'
    ensures GetStorage(s, ibName) == Ok(ClickHouseTarget(CH.ConnectionSettings(s.connectionString, StorageName(ibName))))
  {
    var name := StorageName(ibName);
    assert name[|ibName|] == '-';
    assert !IsBlank(name);
    forall k | 0 <= k < |name|
      ensures name[k] != ';' && name[k] != '\n'
    {
      if k < |ibName| {
        assert name[k] == ibName[k];
      }
    }
    CH.ConnectionStringRoundTrip(s.connectionString, name);
  }

  // ---------------------------------------------------------------------
  // The registry of running exporters

  /** The settings a started exporter gets. */
  datatype ExporterConfig = ExporterConfig(
    logFolder: string, collectedFactor: int, loadArchive: bool, portion: int,
    readingTimeout: int, timeZone: string, writingMaxdop: int)

  function ExporterConfigFor(s: ManagerSettings, id: string): ExporterConfig
  {
    ExporterConfig(LogFolder(s.clstFolder, id), s.collectedFactor, s.loadArchive, s.portion,
                   s.readingTimeout, s.timeZone, s.writingMaxdop)
  }

  /** The infobases of a snapshot whose event log file exists: those
      ExecuteAsync starts an exporter for. */
  function Wanted(s: ManagerSettings, infoBases: map<string, string>, existing: set<string>): (r: set<string>)
    ensures r <= infoBases.Keys
    ensures forall id :: id in infoBases && LgfPath(s.clstFolder, id) in existing <==> id in r
  {
    set id | id in infoBases && LgfPath(s.clstFolder, id) in existing
  }

  /** The exporter ExecuteAsync starts for infobase id of a snapshot: its
      configuration and storage, not cancelled. */
  predicate StartedAs(s: ManagerSettings, infoBases: map<string, string>, id: string, e: RunningExporter)
  {
    id in infoBases && GetStorage(s, infoBases[id]) == Ok(e.storage) &&
    e == RunningExporter(ExporterConfigFor(s, id), e.storage, false)
  }

  /** A registered exporter: what it was started with, and whether its
      cancellation token has been cancelled. */
  datatype RunningExporter = RunningExporter(config: ExporterConfig, storage: StorageTarget, cancelled: bool)

  type Registry = map<string, RunningExporter>

  /** StartExporter: an infobase whose log has the old-format reference file
      and that has no entry yet is registered with a fresh token; a storage
      that cannot be built throws. */
  function StartedRegistry(s: ManagerSettings, reg: Registry, id: string, name: string, existing: set<string>)
    : (r: Result<Registry>)
    ensures LgfPath(s.clstFolder, id) !in existing || id in reg ==> r == Ok(reg)
    ensures r.Err? ==>
              id !in reg && LgfPath(s.clstFolder, id) in existing && GetStorage(s, name).Err? && r.error == GetStorage(s, name).error
    ensures r.Ok? ==> reg.Keys <= r.value.Keys <= reg.Keys + {id}
    ensures r.Ok? ==> forall k :: k in reg ==> r.value[k] == reg[k]
    ensures r.Ok? && id !in reg && LgfPath(s.clstFolder, id) in existing ==>
              GetStorage(s, name).Ok? && id in r.value &&
              r.value[id] == RunningExporter(ExporterConfigFor(s, id), GetStorage(s, name).value, false)
  {
    if LgfPath(s.clstFolder, id) !in existing || id in reg then Ok(reg)
    else
      var storage :- GetStorage(s, name);
      Ok(reg[id := RunningExporter(ExporterConfigFor(s, id), storage, false)])
  }

  /** The start-up loop's state with the infobases in remaining still to
      visit: nothing registered before is touched, every visited infobase
      with an event log runs, and each exporter added was started as
      ExecuteAsync starts one. */
  ghost predicate StartingFrom(s: ManagerSettings, before: Registry, reg: Registry, infoBases: map<string, string>,
                               existing: set<string>, remaining: set<string>)
  {
    remaining <= infoBases.Keys &&
    (forall k :: k in before ==> k in reg && reg[k] == before[k]) &&
    reg.Keys <= before.Keys + (Wanted(s, infoBases, existing) - remaining) &&
    (forall id :: id in Wanted(s, infoBases, existing) && id !in remaining ==> id in reg) &&
    (forall id :: id in reg && id !in before ==> StartedAs(s, infoBases, id, reg[id]))
  }

  /** A successful start of one remaining infobase visits it. */
  lemma StartingStep(s: ManagerSettings, before: Registry, reg: Registry, reg': Registry, infoBases: map<string, string>,
                     existing: set<string>, remaining: set<string>, id: string)
    requires StartingFrom(s, before, reg, infoBases, existing, remaining) && id in remaining
    requires StartedRegistry(s, reg, id, infoBases[id], existing) == Ok(reg')
    ensures StartingFrom(s, before, reg', infoBases, existing, remaining - {id})
  {
    forall k | k in reg' && k !in before
      ensures StartedAs(s, infoBases, k, reg'[k])
    {
      if k != id {
        assert k in reg;
      }
    }
  }

  /** With every infobase visited, the started exporters are exactly those
      of the infobases with an event log. */
  lemma StartingDone(s: ManagerSettings, before: Registry, reg: Registry, infoBases: map<string, string>, existing: set<string>)
    requires StartingFrom(s, before, reg, infoBases, existing, {})
    ensures reg.Keys == before.Keys + Wanted(s, infoBases, existing)
    ensures forall id :: id in reg && id !in before ==> StartedAs(s, infoBases, id, reg[id])
  {
  }


  /** StopExporter: cancels the id's token; the entry stays. */
  function StoppedRegistry(reg: Registry, id: string): (r: Registry)
    ensures r.Keys == reg.Keys
    ensures id in reg ==> r[id] == reg[id].(cancelled := true)
    ensures forall k :: k in reg && k != id ==> r[k] == reg[k]
  {
    if id in reg then reg[id := reg[id].(cancelled := true)] else reg
  }

  /** Host cancellation: every registered token is cancelled. */
  function CancelledRegistry(reg: Registry): (r: Registry)
    ensures r.Keys == reg.Keys
    ensures forall k :: k in r ==> r[k] == reg[k].(cancelled := true)
  {
    map k | k in reg :: reg[k].(cancelled := true)
  }

  /** Because a stopped exporter keeps its entry, a later start for the same
      id does nothing: the infobase is not exported again. */
  lemma RestartAfterStopDoesNothing(s: ManagerSettings, reg: Registry, id: string, name: string, existing: set<string>)
    requires id in reg
    ensures StartedRegistry(s, StoppedRegistry(reg, id), id, name, existing) == Ok(StoppedRegistry(reg, id))
    ensures StoppedRegistry(reg, id)[id].cancelled
  {
  }

  /** Starting an infobase twice registers it once: the second start changes
      nothing. */
  lemma StartIsIdempotent(s: ManagerSettings, reg: Registry, id: string, name: string, name': string, existing: set<string>)
    requires StartedRegistry(s, reg, id, name, existing).Ok?
    ensures var reg1 := StartedRegistry(s, reg, id, name, existing).value;
            StartedRegistry(s, reg1, id, name', existing) == Ok(reg1)
  {
  }

  // ---------------------------------------------------------------------
  // Reacting to the registry watcher

  /** The handlers as wired: an added infobase goes to StopExporter and a
      deleted one to StartExporter. */
  function HandleAsWritten(s: ManagerSettings, reg: Registry, e: Clst.ClstEvent, existing: set<string>)
    : Result<Registry>
  {
    match e
    case InfoBaseAdded(id, info) => Ok(StoppedRegistry(reg, id))
    case InfoBaseDeleted(id, info) => StartedRegistry(s, reg, id, info.0, existing)
  }

  /** With the handlers as wired, an infobase added to the cluster never gets
      an exporter, and a deleted one does. */
  lemma AddedInfoBaseNotStartedAsWritten(s: ManagerSettings, reg: Registry, id: string, info: Clst.Info,
                                         existing: set<string>)
    requires id !in reg && LgfPath(s.clstFolder, id) in existing && GetStorage(s, info.0).Ok?
    ensures HandleAsWritten(s, reg, Clst.InfoBaseAdded(id, info), existing) == Ok(reg)
    ensures var r := HandleAsWritten(s, reg, Clst.InfoBaseDeleted(id, info), existing);
            r.Ok? && id in r.value && !r.value[id].cancelled
  {
  }

  /** The handlers as intended: an added infobase is started and a deleted
      one is stopped. */
  function Handle(s: ManagerSettings, reg: Registry, e: Clst.ClstEvent, existing: set<string>)
    : Result<Registry>
  {
    match e
    case InfoBaseAdded(id, info) => StartedRegistry(s, reg, id, info.0, existing)
    case InfoBaseDeleted(id, info) => Ok(StoppedRegistry(reg, id))
  }

  /** With the intended wiring, an added infobase with an old-format log gets
      a running exporter, and a deleted infobase's exporter is cancelled. */
  lemma AddedInfoBaseStarts(s: ManagerSettings, reg: Registry, id: string, info: Clst.Info, existing: set<string>)
    requires id !in reg && LgfPath(s.clstFolder, id) in existing && GetStorage(s, info.0).Ok?
    ensures var r := Handle(s, reg, Clst.InfoBaseAdded(id, info), existing);
            r.Ok? && id in r.value && !r.value[id].cancelled &&
            r.value[id].config.logFolder == LogFolder(s.clstFolder, id)
    ensures var r := Handle(s, reg, Clst.InfoBaseDeleted(id, info), existing);
            r == Ok(reg)
  {
  }

  lemma DeletedInfoBaseStops(s: ManagerSettings, reg: Registry, id: string, info: Clst.Info, existing: set<string>)
    requires id in reg
    ensures var r := Handle(s, reg, Clst.InfoBaseDeleted(id, info), existing);
            r.Ok? && id in r.value && r.value[id].cancelled
  {
  }

  // ---------------------------------------------------------------------
  // The manager

  class ExportersManager {
    const settings: ManagerSettings
    var runExporters: Registry

    constructor (settings: ManagerSettings)
      ensures this.settings == settings && runExporters == map[]
    {
      this.settings := settings;
      runExporters := map[];
    }

    /** The public constructor: a configuration that SettingsOf rejects
        throws. */
    static method Create(c: ManagerConfiguration, knownZone: string -> bool, systemZone: string)
      returns (r: Result<ExportersManager>)
      ensures r.Err? <==> SettingsOf(c, knownZone, systemZone).Err?
      ensures r.Err? ==> r.error == SettingsOf(c, knownZone, systemZone).error
      ensures r.Ok? ==> fresh(r.value) && r.value.settings == SettingsOf(c, knownZone, systemZone).value &&
                        r.value.runExporters == map[]
    {
      var s :- SettingsOf(c, knownZone, systemZone);
      var m := new ExportersManager(s);
      return Ok(m);
    }

    method StartExporter(id: string, name: string, existing: set<string>) returns (o: Outcome)
      modifies this`runExporters
      ensures StartedRegistry(settings, old(runExporters), id, name, existing).Ok? ==>
                o.Pass? && runExporters == StartedRegistry(settings, old(runExporters), id, name, existing).value
      ensures StartedRegistry(settings, old(runExporters), id, name, existing).Err? ==>
                o == Fail(StartedRegistry(settings, old(runExporters), id, name, existing).error) &&
                runExporters == old(runExporters)
    {
      var needStart := LgfPath(settings.clstFolder, id) in existing;
      if needStart {
        if id !in runExporters {
          var storage := GetStorage(settings, name);
          if storage.Err? {
            return Fail(storage.error);
          }
          var config := ExporterConfigFor(settings, id);
          runExporters := runExporters[id := RunningExporter(config, storage.value, false)];
        }
      }
      return Pass;
    }

    method StopExporter(id: string)
      modifies this`runExporters
      ensures runExporters == StoppedRegistry(old(runExporters), id)
    {
      if id in runExporters {
        runExporters := runExporters[id := runExporters[id].(cancelled := true)];
      }
    }

    /** The watcher's events, with the intended wiring. */
    method OnClstEvent(e: Clst.ClstEvent, existing: set<string>) returns (o: Outcome)
      modifies this`runExporters
      ensures Handle(settings, old(runExporters), e, existing).Ok? ==>
                o.Pass? && runExporters == Handle(settings, old(runExporters), e, existing).value
      ensures Handle(settings, old(runExporters), e, existing).Err? ==>
                o == Fail(Handle(settings, old(runExporters), e, existing).error) && runExporters == old(runExporters)
    {
      match e
      case InfoBaseAdded(id, info) =>
        o := StartExporter(id, info.0, existing);
      case InfoBaseDeleted(id, info) =>
        StopExporter(id);
        o := Pass;
    }

    /** ExecuteAsync's start-up: an exporter for each infobase of the first
        snapshot, in the dictionary's enumeration order (left to the choice
        of `:|`); a start that throws ends the start-up. */
    method StartAll(infoBases: map<string, string>, existing: set<string>) returns (o: Outcome)
      modifies this`runExporters
      ensures forall k :: k in old(runExporters) ==> k in runExporters && runExporters[k] == old(runExporters)[k]
      ensures runExporters.Keys <= old(runExporters).Keys + Wanted(settings, infoBases, existing)
      ensures o.Pass? ==> runExporters.Keys == old(runExporters).Keys + Wanted(settings, infoBases, existing)
      // each exporter started here runs its infobase's configuration and storage, not cancelled
      ensures forall id :: id in runExporters && id !in old(runExporters) ==> StartedAs(settings, infoBases, id, runExporters[id])
      // a failed start is the storage lookup of a wanted infobase not yet running
      ensures o.Fail? ==>
                exists id :: id in Wanted(settings, infoBases, existing) && id !in runExporters &&
                             GetStorage(settings, infoBases[id]).Err? && o == Fail(GetStorage(settings, infoBases[id]).error)
    {
      var remaining := infoBases.Keys;
      while remaining != {}
        invariant StartingFrom(settings, old(runExporters), runExporters, infoBases, existing, remaining)
        decreases |remaining|
      {
        var id :| id in remaining;
        ghost var before := runExporters;
        var started := StartExporter(id, infoBases[id], existing);
        if started.Fail? {
          assert id in Wanted(settings, infoBases, existing) && id !in runExporters;
          return started;
        }
        StartingStep(settings, old(runExporters), before, runExporters, infoBases, existing, remaining, id);
        remaining := remaining - {id};
      }
      StartingDone(settings, old(runExporters), runExporters, infoBases, existing);
      return Pass;
    }

    /** The stopping token's callback: every registered token is cancelled. */
    method CancelAll()
      modifies this`runExporters
      ensures runExporters == CancelledRegistry(old(runExporters))
    {
      var remaining := runExporters.Keys;
      ghost var before := runExporters;
      while remaining != {}
        invariant remaining <= before.Keys
        invariant runExporters.Keys == before.Keys
        invariant forall k :: k in remaining ==> runExporters[k] == before[k]
        invariant forall k :: k in before && k !in remaining ==> runExporters[k] == before[k].(cancelled := true)
        decreases |remaining|
      {
        var id :| id in remaining;
        runExporters := runExporters[id := runExporters[id].(cancelled := true)];
        remaining := remaining - {id};
      }
    }
  }
}
