/** SteamCmdServiceImpl: the mod-provisioning service. It downloads workshop
    mods with SteamCMD, copies their signing keys and links them into the
    server directory, deletes them, and reconciles the mod database with what
    is on disk. Installs go through a single-thread executor whose unbounded
    FIFO queue is the `queue` field here; RunNextTask is the worker taking
    and running the task at its head. */
module SteamCmdService {
  import opened Lang
  import opened Entities
  import opened Files
  import opened SteamCmdSpec

  class SteamCmdServiceImpl {
    /** ${installDir}: SteamCMD's install directory */
    const downloadPath: string
    /** ${serverDir}: the game server's directory */
    const serverPath: string
    /** Constants.STEAM_ARMA3_ID */
    const arma3Id: Long
    const env: Environment

    var fs: FileSystem
    /** the records held by the mod database */
    var modDb: ModDb
    /** the tasks waiting in the executor's queue, oldest first */
    var queue: seq<Task>
    /** the tasks the worker has run, in the order it ran them */
    var completed: seq<Task>
    /** the argument list of every SteamCMD run, in order */
    var executions: seq<seq<SteamCmdArg>>
    /** every record handed to modDb.save, in order */
    ghost var saved: seq<WorkshopMod>

    ghost predicate Valid()
      reads this
    {
      KeyedById(modDb)
    }

    constructor (downloadPath: string, serverPath: string, arma3Id: Long, env: Environment,
                 fs: FileSystem, modDb: ModDb)
      requires KeyedById(modDb)
      ensures Valid()
      ensures this.downloadPath == downloadPath && this.serverPath == serverPath && this.arma3Id == arma3Id
      ensures this.env == env && this.fs == fs && this.modDb == modDb
      ensures queue == [] && completed == [] && executions == [] && saved == []
    {
      this.downloadPath := downloadPath;
      this.serverPath := serverPath;
      this.arma3Id := arma3Id;
      this.env := env;
      this.fs := fs;
      this.modDb := modDb;
      queue := [];
      completed := [];
      executions := [];
      saved := [];
    }

    /** modDb.save: store the record under its id. */
    method Save(mod: WorkshopMod)
      requires Valid()
      modifies this`modDb, this`saved
      ensures Valid()
      ensures modDb == old(modDb)[mod.id := mod] && saved == old(saved) + [mod]
    {
      modDb := modDb[mod.id := mod];
      saved := saved + [mod];
    }

    /** steamCmd.execute: one SteamCMD run. */
    method Execute(args: seq<SteamCmdArg>) returns (r: ExecResult)
      modifies this`executions
      ensures executions == old(executions) + [args] && r == env.execute(|old(executions)|)
    {
      r := env.execute(|executions|);
      executions := executions + [args];
    }

    /** installOrUpdateMod: queue the install task and report it accepted. */
    method InstallOrUpdateMod(auth: SteamAuth, mod: WorkshopMod) returns (accepted: bool)
      modifies this`queue
      ensures queue == old(queue) + [InstallTask(auth, mod)] && accepted
    {
      queue := queue + [InstallTask(auth, mod)];
      accepted := true;
    }

    /** The worker takes the oldest queued task and runs it. */
    method RunNextTask(now: string)
      requires Valid() && queue != []
      modifies this
      ensures Valid()
      ensures queue == old(queue)[1..] && completed == old(completed) + [old(queue)[0]]
      ensures var t := old(queue)[0];
              var n := Attempts(env.execute, |old(executions)|);
              executions == old(executions) + Runs(DownloadArgs(downloadPath, arma3Id, t.auth, t.mod.id), n)
      ensures var t := old(queue)[0];
              var n := Attempts(env.execute, |old(executions)|);
              var downloaded := AfterRuns(old(fs), ModDirectory(downloadPath, arma3Id, t.mod.id), env.download,
                                          |old(executions)|, n);
              fs == InstallFs(downloaded, downloadPath, serverPath, arma3Id, env.normalize(t.mod.name), t.mod.id, env.fault)
      ensures var t := old(queue)[0];
              var done := InstalledRecord(t.mod, now, env.fileSize(t.mod.id));
              && modDb == old(modDb)[t.mod.id := done]
              && saved == old(saved) + [t.mod.(installed := false), done]
    {
      var task := queue[0];
      queue := queue[1..];
      completed := completed + [task];
      RunTask(task, now);
    }

    /** The install task: the record is saved as not installed, SteamCMD
        downloads the mod, keys are copied and the link made, and the record is
        saved as installed with a new time stamp and size. The download's
        result is only logged, so the record ends up installed even when every
        SteamCMD run failed. */
    method RunTask(task: Task, now: string)
      requires Valid()
      modifies this`fs, this`modDb, this`saved, this`executions
      ensures Valid()
      ensures var n := Attempts(env.execute, |old(executions)|);
              executions == old(executions) + Runs(DownloadArgs(downloadPath, arma3Id, task.auth, task.mod.id), n)
      ensures var n := Attempts(env.execute, |old(executions)|);
              var downloaded := AfterRuns(old(fs), ModDirectory(downloadPath, arma3Id, task.mod.id), env.download,
                                          |old(executions)|, n);
              fs == InstallFs(downloaded, downloadPath, serverPath, arma3Id, env.normalize(task.mod.name), task.mod.id, env.fault)
      ensures var done := InstalledRecord(task.mod, now, env.fileSize(task.mod.id));
              && modDb == old(modDb)[task.mod.id := done]
              && saved == old(saved) + [task.mod.(installed := false), done]
    {
      var mod := task.mod;
      var done := InstalledRecord(mod, now, env.fileSize(mod.id));
      var started := mod.(installed := false);
      assert started.id == mod.id && done.id == mod.id;
      Save(started);
      InstallFiles(task.auth, mod);
      Save(done);
      SaveTwice(old(modDb), mod.id, started, done);
      LogTwice(old(saved), started, done);
    }

    /** The file work of the install task: SteamCMD downloads the mod, its keys
        are copied from what the download left, and the link is made. */
    method InstallFiles(auth: SteamAuth, mod: WorkshopMod)
      modifies this`fs, this`executions
      ensures var n := Attempts(env.execute, |old(executions)|);
              executions == old(executions) + Runs(DownloadArgs(downloadPath, arma3Id, auth, mod.id), n)
      ensures var n := Attempts(env.execute, |old(executions)|);
              var downloaded := AfterRuns(old(fs), ModDirectory(downloadPath, arma3Id, mod.id), env.download,
                                          |old(executions)|, n);
              fs == InstallFs(downloaded, downloadPath, serverPath, arma3Id, env.normalize(mod.name), mod.id, env.fault)
    {
      var downloaded := DownloadMod(auth, mod.id);
      CopyBiKeys(mod.id);
      CreateSymlink(mod);
    }

    /** The worker drains the queue: the tasks run one at a time, in the order
        they were submitted, the i-th of them at time stamp(i). */
    method RunQueuedTasks(stamp: nat -> string)
      requires Valid()
      modifies this
      ensures Valid() && queue == []
      ensures completed == old(completed) + old(queue)
      ensures modDb == DbAfterTasks(old(modDb), old(queue), stamp, env.fileSize)
      ensures saved == old(saved) + SavesAfterTasks(old(queue), stamp, env.fileSize)
      ensures Effects(fs, executions)
              == AfterTasks(Effects(old(fs), old(executions)), old(queue), downloadPath, serverPath, arma3Id, env)
    {
      ghost var tasks := queue;
      var i := 0;
      while queue != []
        invariant Valid() && 0 <= i <= |tasks|
        invariant queue == tasks[i..] && completed == old(completed) + tasks[..i]
        invariant modDb == DbAfterTasks(old(modDb), tasks[..i], stamp, env.fileSize)
        invariant saved == old(saved) + SavesAfterTasks(tasks[..i], stamp, env.fileSize)
        invariant Effects(fs, executions)
                  == AfterTasks(Effects(old(fs), old(executions)), tasks[..i], downloadPath, serverPath, arma3Id, env)
        decreases |queue|
      {
        ghost var before := completed;
        ghost var savedBefore := saved;
        ghost var prev := Effects(fs, executions);
        assert queue[0] == tasks[i];
        RunNextTask(stamp(i));
        DbAfterTasksStep(old(modDb), tasks, i, stamp, env.fileSize);
        SavesAfterTasksStep(old(saved), savedBefore, tasks, i, stamp, env.fileSize);
        AfterTasksStep(Effects(old(fs), old(executions)), tasks, i, downloadPath, serverPath, arma3Id, env);
        assert Effects(fs, executions) == AfterTask(prev, tasks[i], downloadPath, serverPath, arma3Id, env);
        PrefixStep(old(completed), before, tasks, i);
        i := i + 1;
      }
      assert tasks[..i] == tasks;
    }

    /** deleteMod: remove the mod directory, its link and its record. */
    method DeleteMod(mod: WorkshopMod) returns (ok: bool)
      requires Valid()
      modifies this`fs, this`modDb
      ensures Valid()
      ensures var r := ModDeletion(old(fs), old(modDb), ModDirectory(downloadPath, arma3Id, mod.id),
                                   LinkPath(serverPath, env.normalize(mod.name)), mod.id, env.fault);
              ok == r.ok && fs == r.fs && modDb == r.db
    {
      var dir := ModDirectory(downloadPath, arma3Id, mod.id);
      // FileUtils.deleteDirectory returns at once when the directory is missing
      if dir in fs {
        if env.fault(DeleteDirectory(dir)) {
          return false;
        }
        fs := TreeDeleted(fs, dir);
      }
      DeleteSymlink(mod);
      if env.fault(RemoveRecord(mod.id)) {
        return false;
      }
      modDb := modDb - {mod.id};
      ok := true;
    }

    /** refreshMods: list the download directory, reset every stored record to
        not installed, and queue one install for every id found on disk or in
        the database, creating the records that are missing. Returns false only
        when the directory cannot be listed. */
    method RefreshMods(auth: SteamAuth) returns (ok: bool)
      requires Valid()
      modifies this`modDb, this`saved, this`queue
      ensures Valid()
      ensures var root := DownloadPath(downloadPath, arma3Id);
              ok <==> root in fs && fs[root].Directory? && !env.fault(ListDirectory(root))
      ensures !ok ==> modDb == old(modDb) && queue == old(queue) && saved == old(saved)
      ensures ok ==>
                var scanned := ScannedIds(fs, DownloadPath(downloadPath, arma3Id));
                && modDb == Reconciled(old(modDb), scanned, env.modName)
                && |queue| >= |old(queue)| && queue[..|old(queue)|] == old(queue)
                && SubmittedOncePerId(queue[|old(queue)|..], auth, modDb, scanned + old(modDb).Keys)
      ensures old(saved) <= saved
    {
      var root := DownloadPath(downloadPath, arma3Id);
      // Files.list throws for a missing path, a path that is not a directory,
      // and any other I/O error
      if !(root in fs && fs[root].Directory?) || env.fault(ListDirectory(root)) {
        return false;
      }
      var scanned := ScannedIds(fs, root);
      ghost var db0 := modDb;
      var stored := ResetAll();
      ghost var reset := modDb;
      SubmitAll(auth, scanned + stored);
      ReconciledFromPasses(db0, reset, modDb, scanned, env.modName);
      ok := true;
    }

    /** The findAll pass of refreshMods: every stored record is saved again as
        not installed; the ids of the records are returned. */
    method ResetAll() returns (ids: set<Option<Long>>)
      requires Valid()
      modifies this`modDb, this`saved
      ensures Valid()
      ensures ids == old(modDb).Keys && modDb.Keys == old(modDb).Keys
      ensures forall k :: k in modDb ==> modDb[k] == old(modDb)[k].(installed := false)
      ensures old(saved) <= saved
    {
      var all := modDb;
      var unseen := all.Keys;
      ids := {};
      while unseen != {}
        invariant Valid() && unseen <= all.Keys && ids == all.Keys - unseen
        invariant modDb.Keys == all.Keys
        invariant forall k :: k in modDb ==> modDb[k] == if k in unseen then all[k] else all[k].(installed := false)
        invariant old(saved) <= saved
        decreases unseen
      {
        var k :| k in unseen;
        var mod := all[k].(installed := false);
        Save(mod);
        ids := ids + {mod.id};
        unseen := unseen - {k};
      }
    }

    /** The submitting pass of refreshMods: for every id, the stored record, or
        a new one named by the workshop service when there is none, is queued
        for install. */
    method SubmitAll(auth: SteamAuth, ids: set<Option<Long>>)
      requires Valid()
      modifies this`modDb, this`saved, this`queue
      ensures Valid()
      ensures modDb.Keys == old(modDb).Keys + ids
      ensures forall k :: k in modDb ==> modDb[k] == StoredOrNew(old(modDb), k, env.modName)
      ensures |queue| >= |old(queue)| && queue[..|old(queue)|] == old(queue)
      ensures SubmittedOncePerId(queue[|old(queue)|..], auth, modDb, ids)
      ensures old(saved) <= saved
    {
      var pending := ids;
      ghost var submitted: seq<Option<Long>> := [];
      ghost var added: seq<Task> := [];
      while pending != {}
        invariant Valid() && pending <= ids
        invariant forall k :: k in ids ==> (k in pending <==> k !in submitted)
        invariant SubmitProgress(old(modDb), ids, submitted, modDb, added, auth, env.modName)
        invariant queue == old(queue) + added
        invariant old(saved) <= saved
        decreases pending
      {
        var id :| id in pending;
        ghost var db := modDb;
        SubmitOne(auth, id);
        SubmitProgressStep(old(modDb), ids, submitted, db, added, auth, env.modName, id);
        AppendOne(old(queue), added, InstallTask(auth, modDb[id]));
        added := added + [InstallTask(auth, modDb[id])];
        pending := pending - {id};
        submitted := submitted + [id];
      }
      SubmitProgressDone(old(modDb), ids, submitted, modDb, added, auth, env.modName);
      assert queue[|old(queue)|..] == added;
    }

    /** One turn of the submitting loop: modDb.find, the new record when find
        gives null, and installOrUpdateMod. */
    method SubmitOne(auth: SteamAuth, id: Option<Long>)
      requires Valid()
      modifies this`modDb, this`saved, this`queue
      ensures Valid()
      ensures modDb == if id in old(modDb) then old(modDb) else old(modDb)[id := NewWorkshopMod(id, env.modName(id))]
      ensures saved == old(saved) + if id in old(modDb) then [] else [NewWorkshopMod(id, env.modName(id))]
      ensures queue == old(queue) + [InstallTask(auth, modDb[id])]
    {
      var mod: WorkshopMod;
      if id in modDb {
        mod := modDb[id];
      } else {
        mod := NewWorkshopMod(id, env.modName(id));
        Save(mod);
      }
      var accepted := InstallOrUpdateMod(auth, mod);
    }

    /** downloadMod: build the SteamCMD arguments and run SteamCMD with them
        until a run succeeds. Each run leaves its files in the mod directory;
        nothing reads the file system between two runs, so their output is
        applied, in run order, once the loop has ended. */
    method DownloadMod(auth: SteamAuth, modId: Option<Long>) returns (success: bool)
      modifies this`executions, this`fs
      ensures var base := |old(executions)|;
              var n := Attempts(env.execute, base);
              && executions == old(executions) + Runs(DownloadArgs(downloadPath, arma3Id, auth, modId), n)
              && success == AttemptSucceeded(env.execute, base, n - 1)
              && fs == AfterRuns(old(fs), ModDirectory(downloadPath, arma3Id, modId), env.download, base, n)
    {
      var args := DownloadArgs(downloadPath, arma3Id, auth, modId);
      var base := |executions|;
      success := RunRetrying(args);
      fs := AfterRuns(fs, ModDirectory(downloadPath, arma3Id, modId), env.download, base, |executions| - base);
    }

    /** The retry loop of downloadMod: at most RETRY_BOUND + 1 runs, stopping at
        the first that succeeds; an exception from a run counts as a failed run. */
    method RunRetrying(args: seq<SteamCmdArg>) returns (success: bool)
      modifies this`executions
      ensures var base := |old(executions)|;
              var n := Attempts(env.execute, base);
              && executions == old(executions) + Runs(args, n)
              && success == AttemptSucceeded(env.execute, base, n - 1)
    {
      ghost var base := |executions|;
      ghost var n := Attempts(env.execute, base);
      AttemptsStopAtFirstSuccess(env.execute, base);
      success := false;
      var attempts := 0;
      // `attempts++ <= 10`: the increment after the guard's last, failing
      // comparison is not observable and is left out
      while !success && attempts <= RETRY_BOUND
        invariant attempts <= n && (success ==> attempts == n)
        invariant success <==> attempts >= 1 && AttemptSucceeded(env.execute, base, attempts - 1)
        invariant |executions| == base + attempts && executions[..base] == old(executions)
        invariant forall i :: base <= i < |executions| ==> executions[i] == args
        decreases RETRY_BOUND + 1 - attempts
      {
        var r := Execute(args);
        success := r == Returned(true);
        attempts := attempts + 1;
      }
      RunsAreArgs(args, attempts);
      assert executions == old(executions) + Runs(args, attempts);
    }

    /** createSymlink: link serverPath/<normalized name> to the mod directory
        unless a symbolic link is already there; errors are only logged. */
    method CreateSymlink(mod: WorkshopMod)
      modifies this`fs
      ensures var link := LinkPath(serverPath, env.normalize(mod.name));
              fs == LinkCreated(old(fs), link, ModDirectory(downloadPath, arma3Id, mod.id),
                                env.fault(CreateSymbolicLink(link)))
    {
      var link := LinkPath(serverPath, env.normalize(mod.name));
      var target := ModDirectory(downloadPath, arma3Id, mod.id);
      if !(link in fs && fs[link].SymbolicLink?) {
        // Files.createSymbolicLink throws when anything else is at the link path
        if link !in fs && !env.fault(CreateSymbolicLink(link)) {
          fs := fs[link := SymbolicLink(target)];
        }
      }
    }

    /** deleteSymlink: delete serverPath/<normalized name>; errors are only
        logged. */
    method DeleteSymlink(mod: WorkshopMod)
      modifies this`fs
      ensures var link := LinkPath(serverPath, env.normalize(mod.name));
              fs == LinkDeleted(old(fs), link, env.fault(DeletePath(link)))
    {
      var link := LinkPath(serverPath, env.normalize(mod.name));
      // Files.delete throws for a missing path and for a non-empty directory
      if link in fs && !env.fault(DeletePath(link)) && !(fs[link].Directory? && HasEntries(fs, link)) {
        fs := fs - {link};
      }
    }

    /** copyBiKeys: when the mod directory is a directory, copy every .bikey
        file found below it into serverPath/keys; a failed copy is logged and
        the remaining keys are still copied. */
    method CopyBiKeys(modId: Option<Long>)
      modifies this`fs
      ensures fs == KeysCopied(old(fs), ModDirectory(downloadPath, arma3Id, modId), serverPath, env.fault)
    {
      var dir := ModDirectory(downloadPath, arma3Id, modId);
      if !(dir in fs && fs[dir].Directory?) {
        assert KeysCopied(fs, dir, serverPath, env.fault) == fs;
        return;
      }
      var keys := BiKeyFiles(fs, dir);
      fs := CopyKeys(fs, keys, serverPath, env.fault);
    }

    /** The copy loop of copyBiKeys: each key is copied on its own, so a copy
        that throws does not stop the others. */
    static method CopyKeys(fs: FileSystem, keys: set<string>, serverPath: string, fault: IoOp -> bool)
      returns (copied: FileSystem)
      ensures copied == WithFiles(fs, CopiedTargets(fs, keys, serverPath, fault))
    {
      var pending := keys;
      copied := fs;
      ghost var done: set<string> := {};
      while pending != {}
        invariant pending <= keys && done == keys - pending
        invariant copied == WithFiles(fs, CopiedTargets(fs, done, serverPath, fault))
        decreases pending
      {
        var key :| key in pending;
        var target := KeyTarget(serverPath, key);
        ghost var before := CopiedTargets(fs, done, serverPath, fault);
        CopiedTargetsStep(fs, done, key, serverPath, fault);
        WithFilesDirectory(fs, before, target);
        // copyFile throws when the target is a directory
        if !(target in copied && copied[target].Directory?) && !fault(CopyFile(key, target)) {
          WithFilesStep(fs, before, target);
          copied := copied[target := RegularFile];
          assert CopiedTargets(fs, done + {key}, serverPath, fault) == before + {target};
        } else {
          assert CopiedTargets(fs, done + {key}, serverPath, fault) == before;
        }
        pending := pending - {key};
        done := done + {key};
      }
      assert done == keys;
    }
  }
}
