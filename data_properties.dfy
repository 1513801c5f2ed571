/**
  What the operations of `src/data.rs` preserve: the single open entry,
  unique project names and ids taken from positions; and how creating and
  deleting a project undo each other.
*/
module DataProperties {
  import opened Outcomes
  import opened Time
  import opened Sequences
  import opened Data

  // ------------------------------------------------------ counting open entries

  /** Closing one open entry lowers the open count by one. */
  lemma {:induction false} OpenCountClose(entries: seq<TimeEntry>, k: nat, t: Timestamp)
    requires k < |entries| && entries[k].end.None?
    ensures OpenCount(entries[k := entries[k].(end := Some(t))]) == OpenCount(entries) - 1
    decreases |entries|
  {
    var closed := entries[k := entries[k].(end := Some(t))];
    if k > 0 {
      assert closed[1..] == entries[1..][k - 1 := entries[k].(end := Some(t))];
      OpenCountClose(entries[1..], k - 1, t);
    } else {
      assert closed[1..] == entries[1..];
    }
  }

  /** Appending an entry adds one to the open count exactly when the entry is open. */
  lemma {:induction false} OpenCountAppend(entries: seq<TimeEntry>, e: TimeEntry)
    ensures OpenCount(entries + [e]) == OpenCount(entries) + (if e.end.None? then 1 else 0)
    decreases |entries|
  {
    if entries != [] {
      assert (entries + [e])[1..] == entries[1..] + [e];
      OpenCountAppend(entries[1..], e);
    } else {
      assert [e][1..] == [];
    }
  }

  /** With at most one open entry, closing the first one leaves none open. */
  lemma CloseFirstOpenClosesAll(entries: seq<TimeEntry>, t: Timestamp)
    requires SingleOpen(entries)
    ensures OpenCount(CloseFirstOpen(entries, t)) == 0
  {
    match FirstOpen(entries)
    case None =>
    case Some(k) => OpenCountClose(entries, k, t);
  }

  // ------------------------------------------------------------ the entry ledger

  /**
    A successful start on a ledger with at most one open entry leaves exactly
    one open entry: the new last one.
  */
  lemma StartLeavesOnlyNewEntryOpen(f: LogFile, project: string, tag: Option<string>, start: Timestamp)
    requires SingleOpen(f.entries)
    requires StartEntryStep(f, project, tag, start).Ok?
    ensures var e := StartEntryStep(f, project, tag, start).value.entries;
      OpenCount(e) == 1 && e[|e| - 1].end.None? &&
      forall i :: 0 <= i < |e| - 1 ==> e[i].end.Some?
  {
    var e := StartEntryStep(f, project, tag, start).value.entries;
    var closed := CloseFirstOpen(f.entries, start);
    CloseFirstOpenClosesAll(f.entries, start);
    assert e == closed + [NewEntry(f.entries, project, tag, start)];
    OpenCountAppend(closed, NewEntry(f.entries, project, tag, start));
  }

  /** A successful stop on a ledger with at most one open entry leaves none open. */
  lemma StopLeavesNoneOpen(f: LogFile, now: Timestamp)
    requires SingleOpen(f.entries)
    requires StopEntryStep(f, now).Ok?
    ensures OpenCount(StopEntryStep(f, now).value.entries) == 0
  {
    CloseFirstOpenClosesAll(f.entries, now);
  }

  /** Start keeps every id equal to its entry's position cast to `i32`. */
  lemma StartKeepsIdsByPosition(f: LogFile, project: string, tag: Option<string>, start: Timestamp)
    requires IdsByPosition(f.entries)
    requires StartEntryStep(f, project, tag, start).Ok?
    ensures IdsByPosition(StartEntryStep(f, project, tag, start).value.entries)
  {
  }

  /** While the ledger is shorter than 2^32 entries, ids taken from positions are distinct. */
  lemma IdsDistinct(entries: seq<TimeEntry>)
    requires IdsByPosition(entries)
    requires |entries| <= I32Modulus
    ensures forall i, j :: 0 <= i < j < |entries| ==> entries[i].id != entries[j].id
  {
  }

  /** Past 2^32 entries the cast wraps around: the entry at position 2^32 gets the id of the first. */
  lemma IdsCollideAfterWrap()
    ensures AsI32(I32Modulus) == AsI32(0)
  {
  }

  /** Starting a project that was just started fails, because its new entry is open. */
  lemma RestartFails(f: LogFile, project: string, tag: Option<string>, start: Timestamp,
                     tag': Option<string>, start': Timestamp)
    requires StartEntryStep(f, project, tag, start).Ok?
    ensures StartEntryStep(StartEntryStep(f, project, tag, start).value, project, tag', start') == Err(AlreadyStarted)
  {
    var e := StartEntryStep(f, project, tag, start).value.entries;
    assert e[|e| - 1].project == project && e[|e| - 1].end.None?;
  }

  /**
    With at most one entry open, a stop right after a successful start
    succeeds and closes exactly the entry the start opened.
  */
  lemma StopAfterStartClosesNewEntry(f: LogFile, project: string, tag: Option<string>, start: Timestamp, now: Timestamp)
    requires SingleOpen(f.entries)
    requires StartEntryStep(f, project, tag, start).Ok?
    ensures var g := StartEntryStep(f, project, tag, start).value;
      StopEntryStep(g, now) == Ok(g.(entries := g.entries[|g.entries| - 1 := g.entries[|g.entries| - 1].(end := Some(now))]))
  {
    StartLeavesOnlyNewEntryOpen(f, project, tag, start);
  }

  // ---------------------------------------------------------- the project registry

  /** A subsequence of a registry with unique names has unique names. */
  lemma {:induction false} SubsequenceKeepsUniqueNames(r: seq<ProjectDef>, s: seq<ProjectDef>)
    requires IsSubsequence(r, s)
    requires UniqueNames(s)
    ensures UniqueNames(r)
    decreases |s|
  {
    if s != [] {
      assert UniqueNames(s[1..]) by {
        assert forall i :: 0 <= i < |s[1..]| ==> s[1..][i] == s[i + 1];
      }
      if r != [] && r[0] == s[0] && IsSubsequence(r[1..], s[1..]) {
        SubsequenceKeepsUniqueNames(r[1..], s[1..]);
        SubsequenceMembers(r[1..], s[1..]);
        forall j | 0 < j < |r|
          ensures r[0].name != r[j].name
        {
          assert r[j] == r[1..][j - 1];
          assert r[j] in r[1..];
          var m :| 0 <= m < |s[1..]| && s[1..][m] == r[j];
          assert s[m + 1] == r[j];
        }
      } else {
        SubsequenceKeepsUniqueNames(r, s[1..]);
      }
    }
  }

  /** Creating a project keeps the names unique. */
  lemma CreateKeepsUniqueNames(f: LogFile, name: string)
    requires UniqueNames(f.projects)
    requires CreateProjectStep(f, name).Ok?
    ensures UniqueNames(CreateProjectStep(f, name).value.projects)
  {
  }

  /** Deleting a project keeps the names unique. */
  lemma DeleteKeepsUniqueNames(f: LogFile, name: string)
    requires UniqueNames(f.projects)
    requires DeleteProjectStep(f, name).Ok?
    ensures UniqueNames(DeleteProjectStep(f, name).value.projects)
  {
    SubsequenceKeepsUniqueNames(DeleteProjectStep(f, name).value.projects, f.projects);
  }

  /** Retaining the projects not named `name` keeps everything when none has that name. */
  lemma {:induction false} RetainOthersAbsent(projects: seq<ProjectDef>, name: string)
    requires !ProjectExists(projects, name)
    ensures RetainOthers(projects, name) == projects
    decreases |projects|
  {
    if projects != [] {
      RetainOthersAbsent(projects[1..], name);
      assert projects == [projects[0]] + projects[1..];
    }
  }

  /** Retaining a sequence that starts with `x` decides `x` first. */
  lemma RetainOthersCons(x: ProjectDef, rest: seq<ProjectDef>, name: string)
    ensures RetainOthers([x] + rest, name) == (if x.name != name then [x] else []) + RetainOthers(rest, name)
  {
    assert ([x] + rest)[1..] == rest;
  }

  /** Retaining distributes over appending one project. */
  lemma {:induction false} RetainOthersAppend(projects: seq<ProjectDef>, p: ProjectDef, name: string)
    ensures RetainOthers(projects + [p], name) ==
      RetainOthers(projects, name) + (if p.name != name then [p] else [])
    decreases |projects|
  {
    var added := if p.name != name then [p] else [];
    if projects == [] {
      RetainOthersCons(p, [], name);
      assert [p] + [] == [p];
    } else {
      var x, rest := projects[0], projects[1..];
      var kept := if x.name != name then [x] else [];
      assert projects == [x] + rest;
      assert projects + [p] == [x] + (rest + [p]);
      RetainOthersCons(x, rest + [p], name);
      RetainOthersCons(x, rest, name);
      RetainOthersAppend(rest, p, name);
      assert kept + (RetainOthers(rest, name) + added) == (kept + RetainOthers(rest, name)) + added;
    }
  }

  /** Deleting a project just created restores the document it was created in. */
  lemma DeleteUndoesCreate(f: LogFile, name: string)
    requires CreateProjectStep(f, name).Ok?
    ensures DeleteProjectStep(CreateProjectStep(f, name).value, name) == Ok(f)
  {
    var g := CreateProjectStep(f, name).value;
    RetainOthersAppend(f.projects, ProjectDef(name), name);
    RetainOthersAbsent(f.projects, name);
    assert ProjectExists(g.projects, name) by {
      assert g.projects[|f.projects|].name == name;
    }
    assert RetainOthers(g.projects, name) == f.projects;
  }

  // ------------------------------------------------------------------ the whole document

  /** The document invariant the operations keep. */
  predicate WellFormed(f: LogFile)
  {
    UniqueNames(f.projects) && SingleOpen(f.entries) && IdsByPosition(f.entries)
  }

  /** The document `read_log_file` creates is well formed. */
  lemma EmptyLogWellFormed()
    ensures WellFormed(EmptyLog)
  {
  }

  /** Creating a project, committed or not, keeps the document well formed. */
  lemma CreateKeepsWellFormed(f: LogFile, name: string)
    requires WellFormed(f)
    ensures WellFormed(Commit(f, CreateProjectStep(f, name)))
  {
    if CreateProjectStep(f, name).Ok? { CreateKeepsUniqueNames(f, name); }
  }

  /** Deleting a project, committed or not, keeps the document well formed. */
  lemma DeleteKeepsWellFormed(f: LogFile, name: string)
    requires WellFormed(f)
    ensures WellFormed(Commit(f, DeleteProjectStep(f, name)))
  {
    if DeleteProjectStep(f, name).Ok? { DeleteKeepsUniqueNames(f, name); }
  }

  /** Starting an entry, committed or not, keeps the document well formed. */
  lemma StartKeepsWellFormed(f: LogFile, project: string, tag: Option<string>, start: Timestamp)
    requires WellFormed(f)
    ensures WellFormed(Commit(f, StartEntryStep(f, project, tag, start)))
  {
    if StartEntryStep(f, project, tag, start).Ok? {
      StartLeavesOnlyNewEntryOpen(f, project, tag, start);
      StartKeepsIdsByPosition(f, project, tag, start);
    }
  }

  /** Stopping the open entry, committed or not, keeps the document well formed. */
  lemma StopKeepsWellFormed(f: LogFile, now: Timestamp)
    requires WellFormed(f)
    ensures WellFormed(Commit(f, StopEntryStep(f, now)))
  {
    if StopEntryStep(f, now).Ok? {
      StopLeavesNoneOpen(f, now);
      assert IdsByPosition(StopEntryStep(f, now).value.entries);
    }
  }
}
