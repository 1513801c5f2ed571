/**
  The backing store of `src/data.rs`: the file `.timelog.yaml`, holding one
  `LogFile`. Each method reads the document into a local copy
  (`read_log_file`), checks and changes the copy in place, and writes it back
  (`write_log_file`) only on success. Every method keeps the document well
  formed.
*/
module Storage {
  import opened Outcomes
  import opened Time
  import opened Data
  import opened DataProperties

  /** The persisted document. */
  class Store {
    var file: LogFile

    /** A store that does not exist yet reads as the empty document. */
    constructor ()
      ensures file == EmptyLog && WellFormed(file)
    {
      file := EmptyLog;
    }

    method CreateProject(name: string) returns (res: Outcome<Error>)
      modifies this
      ensures res.Fail? ==> file == old(file)
      ensures old(WellFormed(file)) ==> WellFormed(file)
      ensures file == Commit(old(file), CreateProjectStep(old(file), name))
      ensures res == OutcomeOf(CreateProjectStep(old(file), name))
    {
      if WellFormed(file) { CreateKeepsWellFormed(file, name); }
      var logFile := file;
      if !ProjectExists(logFile.projects, name) {
        logFile := logFile.(projects := logFile.projects + [ProjectDef(name)]);
        file := logFile;
        res := Pass;
      } else {
        res := Fail(AlreadyExists);
      }
    }

    method DeleteProject(name: string) returns (res: Outcome<Error>)
      modifies this
      ensures res.Fail? ==> file == old(file)
      ensures old(WellFormed(file)) ==> WellFormed(file)
      ensures file == Commit(old(file), DeleteProjectStep(old(file), name))
      ensures res == OutcomeOf(DeleteProjectStep(old(file), name))
    {
      if WellFormed(file) { DeleteKeepsWellFormed(file, name); }
      var logFile := file;
      if ProjectExists(logFile.projects, name) {
        logFile := logFile.(projects := RetainOthers(logFile.projects, name));
        file := logFile;
        res := Pass;
      } else {
        res := Fail(NotFound);
      }
    }

    method StartEntry(project: string, tag: Option<string>, start: Timestamp) returns (res: Outcome<Error>)
      modifies this
      ensures res.Fail? ==> file == old(file)
      ensures old(WellFormed(file)) ==> WellFormed(file)
      ensures file == Commit(old(file), StartEntryStep(old(file), project, tag, start))
      ensures res == OutcomeOf(StartEntryStep(old(file), project, tag, start))
    {
      if WellFormed(file) { StartKeepsWellFormed(file, project, tag, start); }
      var logFile := file;
      if !ProjectExists(logFile.projects, project) {
        return Fail(NotFound);
      }
      if ProjectStarted(logFile.entries, project) {
        return Fail(AlreadyStarted);
      }
      var open := FirstOpen(logFile.entries);
      if open.Some? {
        var k := open.value;
        logFile := logFile.(entries := logFile.entries[k := logFile.entries[k].(end := Some(start))]);
      }
      var id := AsI32(|logFile.entries|);
      logFile := logFile.(entries := logFile.entries + [TimeEntry(id, project, tag, start, None)]);
      file := logFile;
      res := Pass;
    }

    /** `stop_entry`, with the clock reading `Local::now()` passed in as `now`. */
    method StopEntry(now: Timestamp) returns (res: Outcome<Error>)
      modifies this
      ensures res.Fail? ==> file == old(file)
      ensures old(WellFormed(file)) ==> WellFormed(file)
      ensures file == Commit(old(file), StopEntryStep(old(file), now))
      ensures res == OutcomeOf(StopEntryStep(old(file), now))
    {
      if WellFormed(file) { StopKeepsWellFormed(file, now); }
      var logFile := file;
      var open := FirstOpen(logFile.entries);
      if open.Some? {
        var k := open.value;
        logFile := logFile.(entries := logFile.entries[k := logFile.entries[k].(end := Some(now))]);
        file := logFile;
        res := Pass;
      } else {
        res := Fail(NoneStarted);
      }
    }
  }
}
