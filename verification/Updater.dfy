/**
 The crash-safe updater (internal/updater/supervisor.go, internal/updater/state.go). The machine runs until its
 power budget is spent: every file operation and every wait is one step, so power can fail between any two.
 Power failing kills every process and leaves the disk as it is.
 */
module Updater {
  import opened Wrappers

  /** Committed transactions, oldest first. A database is its file followed by its write-ahead log. */
  type Content = seq<string>

  datatype Phase =
    | Idle | Staged | Snapshotting | Preflighting | Migrating | Starting | Stabilizing
    | Promoted | RollingBack | RolledBack | ManualRecovery

  /** The journal's durable state. The backup of an operation lies under the operation's own name. */
  datatype State = State(operation: string, phase: Phase, current: string, previous: string, candidate: string,
                         failedPhase: Phase, quarantined: string)

  datatype Request = Request(operation: string, candidate: string)

  /** Phases that recovery treats as an interrupted update. */
  predicate Busy(p: Phase) { p.Snapshotting? || p.Preflighting? || Launched(p) || p.RollingBack? }

  /** Phases in which the candidate may be running on the live database. */
  predicate Launched(p: Phase) { p.Migrating? || p.Starting? || p.Stabilizing? }

  /** Phases in which only the backup is known to be good. */
  predicate Guarded(p: Phase) { Launched(p) || p.RollingBack? || p.ManualRecovery? }

  /** Everything the machine does not decide, by step number. */
  datatype World = World(
    fails: nat -> bool,                       // whether a file operation, check, start or wait fails
    candidate: nat -> (Content, Content),     // what a running candidate has made of file and log by then
    application: nat -> (Content, Content),   // what the serving application has made of them
    asks: nat -> Option<Request>)             // whether the application stages an update and exits for it

  datatype Result = PowerOff | Done | Failed

  datatype Exit = PowerLost | Exited | UpdateRequested

  datatype Ending = Off | Served | RolledBackNow | NeedsHelp

  class Machine {
    const world: World
    var power: nat
    var tick: nat
    var candidateRuns: bool
    var db: Content
    var wal: Content
    var scratch: Content
    var backups: map<string, Content>
    var journal: State
    var gates: set<string>
    var request: Option<Request>
    ghost var startDb: Content
    ghost var startWal: Content
    ghost var startPath: string
    ghost var clean: bool
    ghost var promoted: set<string>

    constructor (world: World, db: Content, wal: Content, backups: map<string, Content>, request: Option<Request>,
                 phase: Phase)
      requires phase.Idle? || phase.Staged?
      ensures this.world == world && this.db == db && this.wal == wal && this.backups == backups
              && this.request == request
      ensures Safe() && power == 0 && !candidateRuns && journal.phase == phase
    {
      this.world, this.db, this.wal, this.backups, this.request := world, db, wal, backups, request;
      power, tick, candidateRuns, scratch, gates := 0, 0, false, [], {};
      journal := State("", phase, "", "", "", Idle, "");
      startDb, startWal, startPath, clean, promoted := [], [], "", true, {};
    }

    /** What an application opening the database sees. */
    function Live(): Content
      reads this`db, this`wal
    {
      db + wal
    }

    /** A complete backup of the database file as it was when the update began. */
    ghost predicate BackupHolds()
      reads this`backups, this`journal, this`startDb
    {
      journal.operation in backups && backups[journal.operation] == startDb
    }

    /**
     What the disk guarantees at every step. A candidate that runs before its promotion is durable finds its gate
     closed, even if an earlier run of the same operation had opened it. `clean` says that the update began with no
     other backup under its name; only the time before its own snapshot is finished depends on that.
     */
    ghost predicate Safe()
      reads this`gates, this`promoted, this`journal, this`startPath, this`startDb, this`startWal, this`clean,
            this`db, this`wal, this`backups, this`candidateRuns
    {
      && gates <= promoted && (candidateRuns && !journal.phase.Promoted? ==> journal.operation !in gates)
      && (Busy(journal.phase) || journal.phase.ManualRecovery? ==> journal.previous == startPath)
      && (journal.phase.Snapshotting? && clean ==>
            && db == startDb && (wal == startWal || (wal == [] && BackupHolds()))
            && (journal.operation in backups ==> BackupHolds()))
      && (journal.phase.Preflighting? ==> BackupHolds() && db == startDb && (wal == startWal || wal == []))
      && (Guarded(journal.phase) ==> BackupHolds())
      && (candidateRuns ==> Launched(journal.phase) || journal.phase.Promoted?)
    }

    /**
     While an update is not promoted, its start is still there: in the live database or in a complete backup. Only
     until its own snapshot is finished does that take a clean start.
     */
    lemma NothingIsLost()
      requires Safe() && (Busy(journal.phase) || journal.phase.ManualRecovery?) && startWal == []
      requires journal.phase.Snapshotting? ==> clean
      ensures Live() == startDb + startWal
              || (journal.operation in backups && backups[journal.operation] == startDb + startWal)
    {}

    // -------------------------------------------------------------- steps

    /** One step of time while no candidate runs. */
    method Tick() returns (on: bool)
      modifies this`power, this`tick
      ensures on <==> old(power) > 0
      ensures power == if on then old(power) - 1 else 0
      ensures tick == if on then old(tick) + 1 else old(tick)
    {
      if power == 0 {
        return false;
      }
      power, tick := power - 1, tick + 1;
      return true;
    }

    ghost predicate FailedSince(start: nat)
      reads this`tick
    {
      exists t: nat :: start <= t < tick && world.fails(t)
    }

    lemma LaterFailed(start: nat)
      ensures forall s: nat :: s >= start && FailedSince(s) ==> FailedSince(start)
    {}

    /** A file operation, check or start that may fail. */
    method Fails() returns (on: bool, failed: bool)
      modifies this`power, this`tick
      ensures on <==> old(power) > 0
      ensures power == if on then old(power) - 1 else 0
      ensures tick >= old(tick) && (on && failed ==> FailedSince(old(tick)))
    {
      failed := world.fails(tick);
      on := Tick();
    }

    /** One step of time in which the running candidate may rewrite the database. */
    method CandidateStep() returns (on: bool)
      requires Safe() && candidateRuns
      modifies this`power, this`tick, this`db, this`wal
      ensures Safe() && power <= old(power) && (!on ==> power == 0)
    {
      hide Busy;
      on := Tick();
      if on { db, wal := world.candidate(tick).0, world.candidate(tick).1; }
    }

    // -------------------------------------------------------------- restoring

    method RenameIntoPlace()
      requires Safe() && !candidateRuns && Busy(journal.phase)
      requires journal.operation in backups && scratch == backups[journal.operation]
      modifies this`db
      ensures Safe() && db == backups[journal.operation]
      ensures clean || !journal.phase.Snapshotting? ==> BackupHolds() && db == startDb
    {
      db := scratch;
    }

    method RemoveLog()
      requires Safe() && !candidateRuns && Busy(journal.phase)
      requires clean || !journal.phase.Snapshotting? ==> BackupHolds() && db == startDb
      modifies this`wal
      ensures Safe() && wal == []
    {
      wal := [];
    }

    /** restoreDatabase: the backup copied aside, renamed over the database, and the stale log removed. */
    method Restore() returns (r: Result)
      requires Safe() && !candidateRuns && Busy(journal.phase)
      modifies this`power, this`tick, this`db, this`wal, this`scratch
      ensures Safe() && tick >= old(tick) && old(power) - 4 <= power <= old(power)
      ensures r.PowerOff? ==> old(power) < 4 && power == 0
      ensures r.Done? ==> journal.operation in backups && db == backups[journal.operation] && wal == []
      ensures r.Done? && (clean || !journal.phase.Snapshotting?) ==> db == startDb
      ensures r.Failed? ==> journal.operation !in backups || FailedSince(old(tick))
      ensures journal.operation !in backups ==> r.Failed? && db == old(db) && wal == old(wal)
    {
      hide Safe, Busy, BackupHolds, FailedSince;
      if journal.operation !in backups {
        return Failed;
      }
      var on, failed := Fails();
      if !on { return PowerOff; }
      if failed { return Failed; }
      scratch := backups[journal.operation];
      on, failed := Fails();
      if !on { return PowerOff; }
      LaterFailed(old(tick));
      if failed { return Failed; }
      RenameIntoPlace();
      on := Tick();
      if !on { return PowerOff; }
      RemoveLog();
      on, failed := Fails();
      if !on { return PowerOff; }
      LaterFailed(old(tick));
      return if failed then Failed else Done;
    }

    /**
     recoverInterrupted, at the start of every supervisor. It gives up only without a backup or on a failed file
     operation. What it brings back is the start of the update, less a write-ahead log that was pending then.
     */
    method Recover() returns (r: Result)
      requires Safe() && !candidateRuns
      modifies this`power, this`tick, this`db, this`wal, this`scratch, this`journal
      ensures Safe() && power <= old(power) && (r.PowerOff? ==> old(power) < 5 && power == 0)
      ensures !Busy(old(journal.phase)) ==> r.Done? && journal == old(journal) && db == old(db) && wal == old(wal)
      ensures Busy(old(journal.phase)) && r.Done? ==>
                journal.phase.RolledBack? && journal.current == startPath && journal.operation == old(journal.operation)
      ensures Busy(old(journal.phase)) && r.Done? ==>
                journal.operation in backups && Live() == backups[journal.operation]
      ensures Busy(old(journal.phase)) && r.Done? && (clean || !old(journal.phase).Snapshotting?) ==>
                Live() == startDb && (Live() == startDb + startWal <==> startWal == [])
      ensures r.Failed? ==>
                Busy(old(journal.phase)) && journal == old(journal)
                && (journal.operation !in backups || FailedSince(old(tick)))
      ensures Busy(old(journal.phase)) && old(journal.operation) !in backups ==>
                r.Failed? && db == old(db) && wal == old(wal)
    {
      if !Busy(journal.phase) {
        return Done;
      }
      r := Restore();
      if !r.Done? {
        return;
      }
      hide Busy;
      assert db + [] == db;
      var on := Tick();
      if !on { return PowerOff; }
      journal := journal.(phase := RolledBack, current := journal.previous, failedPhase := journal.phase);
    }
  
    // -------------------------------------------------------------- promoting

    /** The first durable step of an update. */
    method Begin(operation: string, candidate: string, path: string) returns (on: bool)
      requires Safe() && !candidateRuns && !Busy(journal.phase)
      modifies this`power, this`tick, this`journal, this`startDb, this`startWal, this`startPath, this`clean
      ensures power <= old(power)
      ensures Safe() && (on <==> old(power) > 0) && power == (if on then old(power) - 1 else 0)
      ensures on ==>
                startDb == db && startWal == wal && startPath == path
                && (clean <==> operation !in backups || backups[operation] == db)
      ensures on ==>
                journal.phase.Snapshotting? && journal.operation == operation && journal.candidate == candidate
                && journal.current == path
      ensures !on ==> journal == old(journal)
    {
      on := Tick();
      if on {
        startDb, startWal, startPath := db, wal, path;
        clean := operation !in backups || backups[operation] == db;
        journal := State(operation, Snapshotting, path, path, candidate, Snapshotting, "");
      }
    }

    /** copyDatabase and verifyDatabase: the snapshot, written aside and renamed into place. */
    method Snapshot() returns (r: Result)
      requires Safe() && journal.phase.Snapshotting? && !candidateRuns && db == startDb && wal == startWal
      modifies this`power, this`tick, this`scratch, this`backups
      ensures power <= old(power)
      ensures Safe() && (r.PowerOff? ==> power == 0 && old(power) < 3) && (r.Done? ==> BackupHolds())
      ensures r.Failed? ==> FailedSince(old(tick))
    {
      hide FailedSince;
      var on, failed := Fails();
      if !on { return PowerOff; }
      if failed { return Failed; }
      scratch := db;
      on, failed := Fails();
      if !on { return PowerOff; }
      LaterFailed(old(tick));
      if failed { return Failed; }
      backups := backups[journal.operation := scratch];
      on, failed := Fails();
      if !on { return PowerOff; }
      LaterFailed(old(tick));
      return if failed then Failed else Done;
    }

    /** rollbackFailure: nothing but the journal has changed yet. */
    method FailEarly() returns (e: Ending)
      requires Safe() && (journal.phase.Snapshotting? || journal.phase.Preflighting?) && !candidateRuns
      modifies this`power, this`tick, this`journal
      ensures power <= old(power)
      ensures Safe() && journal.operation == old(journal.operation) && journal.current == old(journal.current)
      ensures journal.candidate == old(journal.candidate)
      ensures e.Off? || e.RolledBackNow?
      ensures e.RolledBackNow? ==> journal.phase.RolledBack? && journal.quarantined == journal.candidate
      ensures e.Off? ==> power == 0 && journal == old(journal)
    {
      var on := Tick();
      if !on { return Off; }
      journal := journal.(phase := RolledBack, failedPhase := journal.phase, quarantined := journal.candidate);
      return RolledBackNow;
    }

    method BeginRollBack(failedPhase: Phase)
      requires Safe() && Launched(journal.phase) && !candidateRuns
      modifies this`journal
      ensures Safe() && journal.phase.RollingBack? && journal.operation == old(journal.operation)
              && journal.current == startPath
    {
      journal := journal.(phase := RollingBack, failedPhase := failedPhase, current := journal.previous);
    }

    method EndRollBack(failed: bool, failedPhase: Phase)
      requires Safe() && journal.phase.RollingBack? && !candidateRuns
      modifies this`journal
      ensures Safe() && journal.operation == old(journal.operation) && journal.current == old(journal.current)
      ensures journal.phase == if failed then ManualRecovery else RolledBack
    {
      journal := if failed then journal.(phase := ManualRecovery, failedPhase := RollingBack)
                 else journal.(phase := RolledBack, failedPhase := failedPhase, quarantined := journal.candidate);
    }

    /** rollbackFailureWithRestore, with the candidate already gone. */
    method RollBack() returns (e: Ending)
      requires Safe() && Launched(journal.phase) && !candidateRuns
      modifies this`power, this`tick, this`db, this`wal, this`scratch, this`journal, this`request
      ensures power <= old(power)
      ensures Safe() && journal.operation == old(journal.operation)
      ensures e.Off? || e.RolledBackNow? || e.NeedsHelp?
      ensures e.RolledBackNow? ==>
                journal.phase.RolledBack? && journal.current == startPath && db == startDb && wal == []
      ensures e.NeedsHelp? ==> journal.phase.ManualRecovery?
      ensures e.Off? ==> power == 0
    {
      hide Safe, Guarded;
      var failedPhase := journal.phase;
      var on := Tick();
      if !on { return Off; }
      BeginRollBack(failedPhase);
      var r := Restore();
      if r.PowerOff? { return Off; }
      on := Tick();
      if !on { return Off; }
      EndRollBack(r.Failed?, failedPhase);
      if r.Failed? {
        return NeedsHelp;
      }
      on := Tick();
      if !on { return Off; }
      request := None;
      return RolledBackNow;
    }
  
    /** Replaces the journal's phase while the candidate runs, or just before it does. */
    method Enter(phase: Phase)
      requires Safe() && Launched(phase) && (journal.phase.Preflighting? || Launched(journal.phase))
      modifies this`journal
      ensures Safe() && journal == old(journal).(phase := phase, failedPhase := phase)
    {
      journal := journal.(phase := phase, failedPhase := phase);
    }

    method Kill()
      requires Safe()
      modifies this`candidateRuns
      ensures Safe() && !candidateRuns
    {
      candidateRuns := false;
    }

    /** From the start of the candidate to the end of its stabilization. It runs on exactly if that went well. */
    method RunCandidate() returns (r: Result)
      requires Safe() && journal.phase.Migrating? && !candidateRuns
      modifies this`power, this`tick, this`db, this`wal, this`gates, this`candidateRuns, this`journal
      ensures power <= old(power)
      ensures Safe() && (r.PowerOff? ==> power == 0) && Launched(journal.phase)
      ensures journal.operation == old(journal.operation) && journal.candidate == old(journal.candidate)
      ensures r.Done? ==> candidateRuns && journal.phase.Stabilizing?
      ensures r.Failed? ==> !candidateRuns
    {
      hide Safe;
      var on := Tick();
      if !on { return PowerOff; }
      RemoveGate();
      var failed: bool;
      on, failed := Fails();
      if !on { return PowerOff; }
      if failed { return Failed; }
      Launch();
      on := CandidateStep();
      if !on { return PowerOff; }
      Enter(Starting);
      failed := world.fails(tick);
      on := CandidateStep();
      if !on { return PowerOff; }
      if failed {
        Kill();
        return Failed;
      }
      on := CandidateStep();
      if !on { return PowerOff; }
      Enter(Stabilizing);
      failed := world.fails(tick);
      on := CandidateStep();
      if !on { return PowerOff; }
      if failed {
        Kill();
        return Failed;
      }
      return Done;
    }

    method RemoveGate()
      requires Safe()
      modifies this`gates
      ensures Safe() && gates == old(gates) - {journal.operation}
    {
      gates := gates - {journal.operation};
    }

    method Launch()
      requires Safe() && Launched(journal.phase) && journal.operation !in gates
      modifies this`candidateRuns
      ensures Safe() && candidateRuns
    {
      candidateRuns := true;
    }

    /** The candidate becomes the current binary; only then may its gate open. */
    method Settle() returns (e: Ending)
      requires Safe() && journal.phase.Stabilizing? && candidateRuns
      modifies this`power, this`tick, this`db, this`wal, this`journal, this`promoted, this`gates, this`request,
               this`candidateRuns
      ensures power <= old(power)
      ensures Safe() && (e.Off? || e.Served?) && (e.Off? ==> power == 0)
      ensures e.Served? ==> !candidateRuns && journal.phase.Promoted? && journal.current == old(journal.candidate)
      ensures e.Served? ==> journal.operation == old(journal.operation) && journal.operation in promoted
      ensures gates <= old(gates) + {old(journal.operation)} && promoted <= old(promoted) + {old(journal.operation)}
      ensures !journal.phase.Promoted? ==> journal == old(journal) && gates == old(gates) && promoted == old(promoted)
    {
      hide Safe;
      var on := CandidateStep();
      if !on { return Off; }
      WritePromoted();
      on := CandidateStep();
      if !on { return Off; }
      OpenGate();
      on := CandidateStep();
      if !on { return Off; }
      request := None;
      on := CandidateStep();
      if !on { return Off; }
      Kill();
      return Served;
    }

    method WritePromoted()
      requires Safe() && journal.phase.Stabilizing?
      modifies this`journal, this`promoted
      ensures Safe() && promoted == old(promoted) + {journal.operation}
      ensures journal == old(journal).(phase := Promoted, current := journal.candidate)
    {
      journal := journal.(phase := Promoted, current := journal.candidate);
      promoted := promoted + {journal.operation};
    }

    /** MarkReady: the gate file appears only for an operation whose promotion is durable. */
    method OpenGate()
      requires Safe() && journal.phase.Promoted? && journal.operation in promoted
      modifies this`gates
      ensures Safe() && gates == old(gates) + {journal.operation}
    {
      gates := gates + {journal.operation};
    }

    /** Snapshot and preflight, journaled phase by phase. */
    method Check(operation: string, candidate: string, path: string) returns (r: Result)
      requires Safe() && !candidateRuns && !Busy(journal.phase)
      modifies this`power, this`tick, this`journal, this`startDb, this`startWal, this`startPath, this`clean,
               this`scratch, this`backups
      ensures power <= old(power)
      ensures Safe() && (r.PowerOff? ==> power == 0)
      ensures (r.PowerOff? && journal == old(journal)) || Started(operation, candidate, path)
      ensures r.Done? ==> journal.phase.Preflighting?
      ensures r.Failed? ==> journal.phase.Snapshotting? || journal.phase.Preflighting?
    {
      hide Safe, Guarded, Launched, Busy, BackupHolds;
      var on := Begin(operation, candidate, path);
      if !on { return PowerOff; }
      r := Snapshot();
      if !r.Done? { return; }
      on := Tick();
      if !on { return PowerOff; }
      EnterPreflight();
      var failed: bool;
      on, failed := Fails();
      return if !on then PowerOff else if failed then Failed else Done;
    }

    /** The part of an update that leaves the live database alone. */
    method Prepare(operation: string, candidate: string, path: string) returns (r: Result)
      requires Safe() && !candidateRuns && !Busy(journal.phase)
      modifies this`power, this`tick, this`journal, this`startDb, this`startWal, this`startPath, this`clean,
               this`scratch, this`backups
      ensures power <= old(power)
      ensures Safe() && (r.PowerOff? ==> power == 0)
      ensures r.Failed? ==> journal.phase.RolledBack? && Started(operation, candidate, path)
      ensures r.Done? ==> journal.phase.Migrating? && Started(operation, candidate, path)
    {
      hide Safe, Guarded, BackupHolds;
      r := Check(operation, candidate, path);
      if r.PowerOff? { return; }
      if r.Failed? {
        var early := FailEarly();
        return if early.Off? then PowerOff else Failed;
      }
      var on := Tick();
      if !on { return PowerOff; }
      Migrate();
    }

    /** The update under way is this one, and the live database is still as it began. */
    ghost predicate Started(operation: string, candidate: string, path: string)
      reads this`journal, this`startPath, this`startDb, this`startWal, this`db, this`wal
    {
      && journal.operation == operation && journal.candidate == candidate && journal.current == path
         && startPath == path
      && startDb == db && startWal == wal
    }

    method EnterPreflight()
      requires Safe() && journal.phase.Snapshotting? && BackupHolds() && db == startDb && wal == startWal
      requires !candidateRuns
      modifies this`journal
      ensures Safe() && journal == old(journal).(phase := Preflighting, failedPhase := Preflighting)
    {
      journal := journal.(phase := Preflighting, failedPhase := Preflighting);
    }

    method Migrate()
      requires Safe() && journal.phase.Preflighting?
      modifies this`journal
      ensures Safe() && journal == old(journal).(phase := Migrating, failedPhase := Migrating)
    {
      journal := journal.(phase := Migrating, failedPhase := Migrating);
    }

    lemma GuardedHasBackup()
      requires Safe() && journal.phase.ManualRecovery?
      ensures journal.operation in backups && backups[journal.operation] == startDb
    {}

    /** promoteCandidate. */
    method Promote(operation: string, candidate: string, path: string) returns (e: Ending)
      requires Safe() && !candidateRuns && !Busy(journal.phase)
      modifies this
      ensures power <= old(power)
      ensures Safe() && (e.Off? ==> power == 0)
      ensures e.Served? ==>
                journal.phase.Promoted? && journal.operation == operation && journal.current == candidate
                && operation in promoted
      ensures e.RolledBackNow? ==>
                && journal.phase.RolledBack? && journal.operation == operation && journal.current == path
                && db == old(db) && (wal == old(wal) || wal == [])
      ensures e.NeedsHelp? ==> journal.phase.ManualRecovery? && operation in backups && backups[operation] == old(db)
      ensures !e.Off? ==> !candidateRuns
    {
      hide Safe;
      var r := Prepare(operation, candidate, path);
      if r.PowerOff? { return Off; }
      if r.Failed? { return RolledBackNow; }
      r := RunCandidate();
      if r.PowerOff? { return Off; }
      if r.Failed? {
        e := RollBack();
        if e.NeedsHelp? { GuardedHasBackup(); }
        return;
      }
      e := Settle();
    }
  
    // -------------------------------------------------------------- the supervisor

    /**
     The application serves until it exits. It closes its database on the way out, which folds the log into the file;
     an update it asks for is journaled as staged before the request file appears.
     */
    method Serve() returns (x: Exit)
      requires Safe() && !candidateRuns && !Busy(journal.phase)
      modifies this`power, this`tick, this`db, this`wal, this`journal, this`request
      ensures Safe() && !Busy(journal.phase) && journal.current == old(journal.current)
      ensures if x.PowerLost? then power == 0 else power < old(power) && wal == []
      ensures x.UpdateRequested? ==> request.Some?
    {
      hide BackupHolds;
      var asks := world.asks(tick);
      db, wal := world.application(tick).0, world.application(tick).1;
      var on := Tick();
      if !on { return PowerLost; }
      if asks.Some? {
        journal := journal.(operation := asks.value.operation, phase := Staged, candidate := asks.value.candidate);
        on := Tick();
        if !on { return PowerLost; }
        request := asks;
        on := Tick();
        if !on { return PowerLost; }
      }
      db, wal := db + wal, [];
      return if asks.Some? then UpdateRequested else Exited;
    }

    /** A journal that names no binary yet starts over with the running one. */
    method NoteCurrent(path: string) returns (on: bool)
      requires Safe() && !candidateRuns && !Busy(journal.phase)
      modifies this`power, this`tick, this`journal
      ensures Safe() && !Busy(journal.phase) && power <= old(power)
      ensures on ==> journal.current == path
    {
      on := Tick();
      if on { journal := State("", Idle, path, "", "", Idle, ""); }
    }

    /** RunSupervisor: recovers, resumes a staged update, then serves and updates until something ends it. */
    method RunSupervisor(executable: string)
      requires Safe() && !candidateRuns
      modifies this
      ensures Safe()
    {
      hide Safe;
      var r := Recover();
      if !r.Done? {
        return;
      }
      var currentPath := if journal.current != "" then journal.current else executable;
      var on, missing := Fails();
      if !on || missing {
        return;
      }
      if journal.phase.Staged? && request.Some? {
        var e := Promote(request.value.operation, request.value.candidate, currentPath);
        if e.Off? || e.NeedsHelp? {
          return;
        }
        currentPath := journal.current;
      }
      while true
        invariant Safe() && !candidateRuns && !Busy(journal.phase)
        decreases power
      {
        if journal.current == "" {
          on := NoteCurrent(currentPath);
          if !on {
            return;
          }
        }
        var x := Serve();
        if !x.UpdateRequested? {
          return;
        }
        var e := Promote(request.value.operation, request.value.candidate, currentPath);
        if e.Off? || e.NeedsHelp? {
          return;
        }
        currentPath := if journal.current != "" then journal.current else currentPath;
      }
    }

    /** Any number of boots, each cut short by power failing after the given number of steps or ended by itself. */
    method Boots(boots: seq<nat>, executable: string)
      requires Safe()
      modifies this
      ensures Safe()
    {
      hide Safe;
      for i := 0 to |boots|
        invariant Safe()
      {
        Kill();
        power := boots[i];
        RunSupervisor(executable);
      }
    }
  }

  // ---------------------------------------------------------------- where the guarantee ends

  /** Nothing fails but the power. */
  function SoundWorld(): World { World(_ => false, _ => ([], []), _ => ([], []), _ => None) }

  /**
   A staged update that starts with transactions still in the write-ahead log, interrupted before it is promoted:
   recovery restores the file alone, and those transactions are gone.
   */
  method PendingLogIsLost(file: Content, log: Content) returns (after: Content)
    requires log != []
    ensures after == file != file + log
  {
    var m := new Machine(SoundWorld(), file, log, map[], None, Staged);
    m.power := 4;
    var on := m.Begin("update", "candidate", "previous");
    var snapshot := m.Snapshot();
    m.power := 9;
    var r := m.Recover();
    after := m.Live();
  }

  /**
   An update resumed from an older request whose backup is still there, interrupted before its own snapshot is
   finished: recovery restores the older backup over the current database.
   */
  method OlderBackupIsRestored(file: Content, older: Content) returns (after: Content)
    ensures after == older
  {
    var request := Request("update", "candidate");
    var m := new Machine(SoundWorld(), file, [], map["update" := older], Some(request), Staged);
    m.power := 1;
    var on := m.Begin(request.operation, request.candidate, "previous");
    m.power := 9;
    var r := m.Recover();
    after := m.Live();
  }

  /** Interrupted before any backup exists, an update leaves the database whole but no supervisor starts again. */
  method NoBackupNoStart(file: Content, power: nat) returns (r: Result, after: Content)
    ensures r.Failed? && after == file
  {
    var m := new Machine(SoundWorld(), file, [], map[], None, Staged);
    m.power := 1;
    var on := m.Begin("update", "candidate", "previous");
    m.power := power;
    r := m.Recover();
    after := m.Live();
    assert file + [] == file;
  }
}
