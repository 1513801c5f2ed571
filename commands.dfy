/**
  The command dispatch of `src/main.rs` restricted to the operations of
  `src/data.rs`, and what any run of such commands keeps true of the document.
*/
module Commands {
  import opened Outcomes
  import opened Time
  import opened Data
  import opened DataProperties

  /** A parsed command; the clock reading each one takes is part of it. */
  datatype Command =
    | NewProject(name: string)
    | DeleteProject(name: string)
    | Start(project: string, tag: Option<string>, at: Timestamp)
    | Stop(at: Timestamp)

  /** One command, as the step it performs on the document. */
  function Execute(f: LogFile, cmd: Command): (r: Result<LogFile, Error>)
    ensures r.Ok? && (cmd.NewProject? || cmd.DeleteProject?) ==> r.value.entries == f.entries
    ensures r.Ok? && (cmd.Start? || cmd.Stop?) ==> r.value.projects == f.projects
  {
    match cmd
    case NewProject(name) => CreateProjectStep(f, name)
    case DeleteProject(name) => DeleteProjectStep(f, name)
    case Start(project, tag, at) => StartEntryStep(f, project, tag, at)
    case Stop(at) => StopEntryStep(f, at)
  }

  /** The store after each command in turn, every one committed only on success. */
  function Run(f: LogFile, cmds: seq<Command>): LogFile
    decreases |cmds|
  {
    if cmds == [] then f else Run(Commit(f, Execute(f, cmds[0])), cmds[1..])
  }

  /** Every command keeps the document well formed, whether it succeeds or fails. */
  lemma ExecuteKeepsWellFormed(f: LogFile, cmd: Command)
    requires WellFormed(f)
    ensures WellFormed(Commit(f, Execute(f, cmd)))
  {
    match cmd
    case NewProject(name) => CreateKeepsWellFormed(f, name);
    case DeleteProject(name) => DeleteKeepsWellFormed(f, name);
    case Start(project, tag, at) => StartKeepsWellFormed(f, project, tag, at);
    case Stop(at) => StopKeepsWellFormed(f, at);
  }

  /**
    Any run of commands from a well-formed document (the empty one included)
    ends in a well-formed document: unique project names, at most one open
    entry, and every id its entry's position.
  */
  lemma {:induction false} RunKeepsWellFormed(f: LogFile, cmds: seq<Command>)
    requires WellFormed(f)
    ensures WellFormed(Run(f, cmds))
    decreases |cmds|
  {
    if cmds != [] {
      ExecuteKeepsWellFormed(f, cmds[0]);
      RunKeepsWellFormed(Commit(f, Execute(f, cmds[0])), cmds[1..]);
    }
  }

  /** Starting "b" while "a" runs closes "a" at the start of "b" and opens "b". */
  lemma SwitchProjects(t0: Timestamp, t1: Timestamp)
    ensures Run(EmptyLog, [NewProject("a"), NewProject("b"), Start("a", None, t0), Start("b", None, t1)]).entries
      == [TimeEntry(0, "a", None, t0, Some(t1)), TimeEntry(1, "b", None, t1, None)]
  {
    var cmds := [NewProject("a"), NewProject("b"), Start("a", None, t0), Start("b", None, t1)];
    var f1 := LogFile([ProjectDef("a")], []);
    var f2 := LogFile([ProjectDef("a"), ProjectDef("b")], []);
    var f3 := LogFile(f2.projects, [TimeEntry(0, "a", None, t0, None)]);
    var f4 := LogFile(f2.projects, [TimeEntry(0, "a", None, t0, Some(t1)), TimeEntry(1, "b", None, t1, None)]);
    assert EmptyLog.projects + [ProjectDef("a")] == f1.projects;
    assert Execute(EmptyLog, cmds[0]) == Ok(f1);
    assert "a" != "b" by { assert "a"[0] != "b"[0]; }
    assert !ProjectExists(f1.projects, "b");
    assert f1.projects + [ProjectDef("b")] == f2.projects;
    assert Execute(f1, cmds[1]) == Ok(f2);
    assert Execute(f2, cmds[2]) == Ok(f3);
    assert FirstOpen(f3.entries) == Some(0);
    assert !ProjectStarted(f3.entries, "b");
    assert CloseFirstOpen(f3.entries, t1) + [NewEntry(f3.entries, "b", None, t1)] == f4.entries;
    assert Execute(f3, cmds[3]) == Ok(f4);
    calc {
      Run(EmptyLog, cmds);
      Run(f1, cmds[1..]);
      Run(f2, cmds[2..]);
      Run(f3, cmds[3..]);
      Run(f4, []);
    }
  }
}
