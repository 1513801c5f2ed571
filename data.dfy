/**
  The time-entry engine of `src/data.rs`.

  The persisted document is a `LogFile`: the project registry and the entry
  ledger. The queries the source writes as iterator `any`/`find`/`map`/`retain`
  calls are recursive functions here. `list_projects` only reads the document
  and is `ListProjects`; each of the four operations that change it is a pure
  step function from the document before to a `Result` holding the document
  after.
  The class holding the persisted document is in module `Storage`.
*/
module Data {
  import opened Outcomes
  import opened Time
  import opened Sequences

  /** A named project (`ProjectDef`). */
  datatype ProjectDef = ProjectDef(name: string)

  /** One work session (`TimeEntry`); `end == None` marks it as still running. */
  datatype TimeEntry = TimeEntry(
    id: int,
    project: string,
    tag: Option<string>,
    start: Timestamp,
    end: Option<Timestamp>)

  /** The whole persisted document (`LogFile`). */
  datatype LogFile = LogFile(projects: seq<ProjectDef>, entries: seq<TimeEntry>)

  /** The error outcomes of the operations. */
  datatype Error =
    | AlreadyExists   // create_project: the name is registered
    | NotFound        // delete_project, start_entry: the name is not registered
    | AlreadyStarted  // start_entry: the project has an open entry
    | NoneStarted     // stop_entry: no entry is open

  /** The document `read_log_file` creates when the store does not exist yet. */
  const EmptyLog := LogFile([], [])

  const I32Modulus: int := 0x1_0000_0000
  const I32Max: int := 0x7FFF_FFFF

  /** Rust's `n as i32` for a `usize` `n`: keep the low 32 bits, read them in two's complement. */
  function AsI32(n: nat): (r: int)
    ensures -I32Max - 1 <= r <= I32Max
    ensures (n - r) % I32Modulus == 0
    ensures n <= I32Max ==> r == n
  {
    var low := n % I32Modulus;
    if low <= I32Max then low else low - I32Modulus
  }

  // ---------------------------------------------------------------- queries

  /** `check_project_exists`: some registered project has this name. */
  function ProjectExists(projects: seq<ProjectDef>, name: string): (b: bool)
    ensures b <==> exists i :: 0 <= i < |projects| && projects[i].name == name
  {
    if projects == [] then false
    else projects[0].name == name || ProjectExists(projects[1..], name)
  }

  /** `check_project_started`: some entry of this project is still open. */
  function ProjectStarted(entries: seq<TimeEntry>, project: string): (b: bool)
    ensures b <==> exists i :: 0 <= i < |entries| && entries[i].project == project && entries[i].end.None?
  {
    if entries == [] then false
    else (entries[0].project == project && entries[0].end.None?) || ProjectStarted(entries[1..], project)
  }

  /** `check_any_project_started`: the position of the first open entry, if any. */
  function FirstOpen(entries: seq<TimeEntry>): (r: Option<nat>)
    ensures r.Some? ==> r.value < |entries| && entries[r.value].end.None?
    ensures r.Some? ==> forall j :: 0 <= j < r.value ==> entries[j].end.Some?
    ensures r.None? <==> forall j :: 0 <= j < |entries| ==> entries[j].end.Some?
  {
    if entries == [] then None
    else if entries[0].end.None? then Some(0)
    else match FirstOpen(entries[1..])
      case None => None
      case Some(k) => Some(k + 1)
  }

  /** `list_projects`: the registered names, in registry order. */
  function ListProjects(projects: seq<ProjectDef>): (names: seq<string>)
    ensures |names| == |projects|
    ensures forall i :: 0 <= i < |projects| ==> names[i] == projects[i].name
  {
    if projects == [] then [] else [projects[0].name] + ListProjects(projects[1..])
  }

  /** `projects.retain(|e| e.name != name)`: drop every project with this name, keep the rest in order. */
  function RetainOthers(projects: seq<ProjectDef>, name: string): (r: seq<ProjectDef>)
    ensures forall p :: p in r <==> p in projects && p.name != name
    ensures IsSubsequence(r, projects)
  {
    if projects == [] then []
    else if projects[0].name != name then [projects[0]] + RetainOthers(projects[1..], name)
    else RetainOthers(projects[1..], name)
  }

  /** Retaining keeps every copy of each project not named `name`, and no copy of the others. */
  lemma {:induction false} RetainOthersCounts(projects: seq<ProjectDef>, name: string)
    ensures forall p :: multiset(RetainOthers(projects, name))[p] == if p.name != name then multiset(projects)[p] else 0
    decreases |projects|
  {
    if projects != [] {
      var rest := RetainOthers(projects[1..], name);
      RetainOthersCounts(projects[1..], name);
      assert projects == [projects[0]] + projects[1..];
      assert multiset(projects) == multiset{projects[0]} + multiset(projects[1..]);
      if projects[0].name != name {
        assert multiset([projects[0]] + rest) == multiset{projects[0]} + multiset(rest);
      }
    }
  }

  /** The number of open entries in the ledger. */
  function OpenCount(entries: seq<TimeEntry>): (c: nat)
    ensures c <= |entries|
    ensures c == 0 <==> forall i :: 0 <= i < |entries| ==> entries[i].end.Some?
  {
    if entries == [] then 0
    else (if entries[0].end.None? then 1 else 0) + OpenCount(entries[1..])
  }

  /** The ledger invariant: at most one entry is open. */
  predicate SingleOpen(entries: seq<TimeEntry>)
  {
    OpenCount(entries) <= 1
  }

  /** No two registered projects share a name. */
  predicate UniqueNames(projects: seq<ProjectDef>)
  {
    forall i, j :: 0 <= i < j < |projects| ==> projects[i].name != projects[j].name
  }

  /** Every entry carries the id `start_entry` gives it: its position, cast to `i32`. */
  predicate IdsByPosition(entries: seq<TimeEntry>)
  {
    forall i :: 0 <= i < |entries| ==> entries[i].id == AsI32(i)
  }

  /** `entry.end = Some(t)` through the reference `check_any_project_started` returns. */
  function CloseFirstOpen(entries: seq<TimeEntry>, t: Timestamp): (r: seq<TimeEntry>)
    ensures |r| == |entries|
    ensures FirstOpen(entries).None? ==> r == entries
    ensures FirstOpen(entries).Some? ==>
      var k := FirstOpen(entries).value;
      r[k] == entries[k].(end := Some(t)) &&
      forall i :: 0 <= i < |entries| && i != k ==> r[i] == entries[i]
  {
    match FirstOpen(entries)
    case None => entries
    case Some(k) => entries[k := entries[k].(end := Some(t))]
  }

  // ------------------------------------------------------------- operations

  /** `create_project`: register a name that is not registered yet. */
  function CreateProjectStep(f: LogFile, name: string): (r: Result<LogFile, Error>)
    ensures r.Err? <==> ProjectExists(f.projects, name)
    ensures r.Err? ==> r.error == AlreadyExists
    ensures r.Ok? ==> r.value.projects == f.projects + [ProjectDef(name)] && r.value.entries == f.entries
  {
    if !ProjectExists(f.projects, name) then Ok(f.(projects := f.projects + [ProjectDef(name)]))
    else Err(AlreadyExists)
  }

  /** `delete_project`: unregister every project with a name that is registered; entries are kept. */
  function DeleteProjectStep(f: LogFile, name: string): (r: Result<LogFile, Error>)
    ensures r.Err? <==> !ProjectExists(f.projects, name)
    ensures r.Err? ==> r.error == NotFound
    ensures r.Ok? ==> !ProjectExists(r.value.projects, name)
    ensures r.Ok? ==> forall p :: multiset(r.value.projects)[p] == if p.name != name then multiset(f.projects)[p] else 0
    ensures r.Ok? ==> r.value.projects == RetainOthers(f.projects, name)
    ensures r.Ok? ==> IsSubsequence(r.value.projects, f.projects)
    ensures r.Ok? ==> r.value.entries == f.entries
  {
    RetainOthersCounts(f.projects, name);
    if ProjectExists(f.projects, name) then Ok(f.(projects := RetainOthers(f.projects, name)))
    else Err(NotFound)
  }

  /** The entry `start_entry` appends. */
  function NewEntry(entries: seq<TimeEntry>, project: string, tag: Option<string>, start: Timestamp): TimeEntry
  {
    TimeEntry(AsI32(|entries|), project, tag, start, None)
  }

  /**
    `start_entry`: for a registered project without an open entry, close the
    first open entry at `start` and append a new open entry.
  */
  function StartEntryStep(f: LogFile, project: string, tag: Option<string>, start: Timestamp): (r: Result<LogFile, Error>)
    ensures !ProjectExists(f.projects, project) ==> r == Err(NotFound)
    ensures ProjectExists(f.projects, project) && ProjectStarted(f.entries, project) ==> r == Err(AlreadyStarted)
    ensures r.Ok? <==> ProjectExists(f.projects, project) && !ProjectStarted(f.entries, project)
    ensures r.Ok? ==>
      var e := r.value.entries;
      r.value.projects == f.projects &&
      |e| == |f.entries| + 1 &&
      e[|f.entries|] == TimeEntry(AsI32(|f.entries|), project, tag, start, None) &&
      e[..|f.entries|] == CloseFirstOpen(f.entries, start)
    ensures r.Ok? && FirstOpen(f.entries).Some? ==> f.entries[FirstOpen(f.entries).value].project != project
  {
    if !ProjectExists(f.projects, project) then Err(NotFound)
    else if ProjectStarted(f.entries, project) then Err(AlreadyStarted)
    else
      var closed := CloseFirstOpen(f.entries, start);
      Ok(f.(entries := closed + [NewEntry(f.entries, project, tag, start)]))
  }

  /** `stop_entry`: close the first open entry at `now`, or fail when none is open. */
  function StopEntryStep(f: LogFile, now: Timestamp): (r: Result<LogFile, Error>)
    ensures r.Err? <==> OpenCount(f.entries) == 0
    ensures r.Err? ==> r.error == NoneStarted
    ensures r.Ok? ==> r.value.projects == f.projects && r.value.entries == CloseFirstOpen(f.entries, now)
  {
    match FirstOpen(f.entries)
    case None => Err(NoneStarted)
    case Some(k) => Ok(f.(entries := f.entries[k := f.entries[k].(end := Some(now))]))
  }

  /** What the store holds after a step: the new document on success, the old one on error. */
  function Commit(before: LogFile, step: Result<LogFile, Error>): LogFile
  {
    match step
    case Ok(after) => after
    case Err(_) => before
  }

  /** What an operation reports to its caller. */
  function OutcomeOf(step: Result<LogFile, Error>): Outcome<Error>
  {
    match step
    case Ok(_) => Pass
    case Err(e) => Fail(e)
  }
}
