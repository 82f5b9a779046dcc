/** Runs of the click hook on a disk where the directories that directives delete may contain the hook folders. */
module HookRuns {
  import opened Collections
  import opened Hooks

  // ---- Where things are ----

  /** A directory, as the names on the way to it. */
  type Path = seq<string>

  /** The two locations in which directives delete, the two hook folders, and the time reported for a missing file. */
  datatype Setup = Setup(cache: Path, data: Path, processed: Path, installed: Path, missingTime: int)

  const APP: string := "webapp-container"

  /** The layout without environment variables: each hook folder lies in one of the locations. */
  function DefaultSetup(cache: Path, data: Path, missingTime: int): Setup {
    Setup(cache, data, cache + [APP], data + [APP], missingTime)
  }

  /** location + "/" + target */
  function Directory(location: Path, target: string): Path {
    if target == "" then location else location + [target]
  }

  /** Deleting recursively what a directive names deletes the folder, too. */
  predicate Deletes(s: Setup, run: Run, folder: Path) {
    || (run.data.deleteCache && Directory(s.cache, run.target) <= folder)
    || (run.data.deleteCookies && Directory(s.data, run.target) <= folder)
  }

  /** The folders, and whether the folder of processed hooks exists. */
  datatype Disk = Disk(folders: Folders, ready: bool)

  // ---- What a run does ----

  function Executed(d: Disk, s: Setup, run: Run): Disk {
    var f := d.folders;
    Disk(Folders(if Deletes(s, run, s.installed) then [] else f.installed,
                 if Deletes(s, run, s.processed) then map[] else f.processed,
                 f.log + [run]),
         d.ready && !Deletes(s, run, s.processed))
  }

  /** A copy needs its source, the folder, and no file of that name. */
  function Copied(d: Disk, e: Entry, stamp: int): Disk {
    var id := IdOf(e.name);
    if !d.ready || e !in d.folders.installed || id in d.folders.processed then d
    else d.(folders := d.folders.(processed := d.folders.processed[id := Copy(e.file, stamp)]))
  }

  function FileRemoved(d: Disk, id: string): Disk {
    d.(folders := d.folders.(processed := d.folders.processed - {id}))
  }

  /** Directives of a file that is gone are not executed. */
  function RanInstall(d: Disk, s: Setup, e: Entry, stamp: int): Disk {
    if e !in d.folders.installed then d else Copied(Executed(d, s, RunOf(Install, e)), e, stamp)
  }

  predicate FoundUpToDate(d: Disk, s: Setup, e: Entry) {
    var id := IdOf(e.name);
    && id in d.folders.processed
    && d.folders.processed[id].modified >= if e in d.folders.installed then e.file.modified else s.missingTime
  }

  function RanUpdate(d: Disk, s: Setup, e: Entry, stamp: int): Disk {
    if FoundUpToDate(d, s, e) then d
    else
      var executed := if e in d.folders.installed then Executed(d, s, RunOf(Update, e)) else d;
      Copied(FileRemoved(executed, IdOf(e.name)), e, stamp)
  }

  function RanUninstall(d: Disk, s: Setup, id: string): Disk {
    if id !in d.folders.processed then d
    else FileRemoved(Executed(d, s, FarewellRun(id, d.folders.processed[id])), id)
  }

  function RanInstalls(d: Disk, s: Setup, files: map<string, Entry>, order: seq<string>, stamps: map<string, int>): Disk
    requires forall id :: id in order ==> id in files
    decreases |order|
  {
    if order == [] then d
    else
      assert order[0] in order;
      RanInstalls(RanInstall(d, s, files[order[0]], StampOf(stamps, order[0])), s, files, order[1..], stamps)
  }

  function RanUpdates(d: Disk, s: Setup, files: map<string, Entry>, order: seq<string>, stamps: map<string, int>): Disk
    requires forall id :: id in order ==> id in files
    decreases |order|
  {
    if order == [] then d
    else
      assert order[0] in order;
      RanUpdates(RanUpdate(d, s, files[order[0]], StampOf(stamps, order[0])), s, files, order[1..], stamps)
  }

  function RanUninstalls(d: Disk, s: Setup, order: seq<string>): Disk
    decreases |order|
  {
    if order == [] then d else RanUninstalls(RanUninstall(d, s, order[0]), s, order[1..])
  }

  /** One run: the folder is made if need be, both folders are listed, then the three phases follow. */
  function Ran(d: Disk, s: Setup, choice: Choice): Disk
    requires Possible(d.folders, choice)
  {
    var files := HookFiles(d.folders.installed);
    var installed := RanInstalls(d.(ready := true), s, files, choice.installs, choice.stamps);
    RanUninstalls(RanUpdates(installed, s, files, choice.updates, choice.stamps), s, choice.removals)
  }

  // ---- A run is quiet if no hook folder is lost ----

  ghost predicate Quiet(d: Disk, d': Disk) {
    d'.ready && d'.folders.installed == d.folders.installed
  }

  /** What never comes back in a run: a lost folder, and a log without the directive that lost it. */
  ghost predicate Follows(d: Disk, d': Disk) {
    && (d'.ready ==> d.ready)
    && (d'.folders.installed == d.folders.installed || d'.folders.installed == [])
    && |d.folders.log| <= |d'.folders.log|
    && ((d'.ready == d.ready && d'.folders.installed == d.folders.installed) || |d.folders.log| < |d'.folders.log|)
    && (!d.ready && d.folders.processed == map[] ==> d'.folders.processed == map[])
    && (d.ready && !d'.ready ==> d'.folders.processed == map[])
  }

  /** The directives delete a hook folder with something to lose. */
  predicate Harmful(s: Setup, installed: seq<Entry>, run: Run) {
    Deletes(s, run, s.processed) || (Deletes(s, run, s.installed) && installed != [])
  }

  lemma InstallQuiet(d: Disk, s: Setup, e: Entry, stamp: int)
    ensures Follows(d, RanInstall(d, s, e, stamp))
    ensures d.ready && e in d.folders.installed ==>
      var d' := RanInstall(d, s, e, stamp);
      && (Quiet(d, d') <==> !Harmful(s, d.folders.installed, RunOf(Install, e)))
      && (Quiet(d, d') ==> d' == Disk(InstalledOne(d.folders, e, stamp), true))
  {
  }

  lemma UpdateQuiet(d: Disk, s: Setup, e: Entry, stamp: int)
    ensures Follows(d, RanUpdate(d, s, e, stamp))
    ensures d.ready && e in d.folders.installed ==>
      var d' := RanUpdate(d, s, e, stamp);
      && (Quiet(d, d') <==> UpToDate(d.folders.processed, e) || !Harmful(s, d.folders.installed, RunOf(Update, e)))
      && (Quiet(d, d') ==> d' == Disk(UpdatedOne(d.folders, e, stamp), true))
  {
    var id, p := IdOf(e.name), d.folders.processed;
    assert (p - {id})[id := Copy(e.file, stamp)] == p[id := Copy(e.file, stamp)];
  }

  lemma UninstallQuiet(d: Disk, s: Setup, id: string)
    ensures Follows(d, RanUninstall(d, s, id))
    ensures d.ready ==>
      var d' := RanUninstall(d, s, id);
      && (Quiet(d, d') <==> id in d.folders.processed ==>
            !Harmful(s, d.folders.installed, FarewellRun(id, d.folders.processed[id])))
      && (Quiet(d, d') ==> d' == Disk(UninstalledOne(d.folders, id), true))
  {
  }

  lemma FollowsThrough(a: Disk, b: Disk, c: Disk)
    requires Follows(a, b) && Follows(b, c)
    ensures Follows(a, c)
    ensures a.ready ==> (Quiet(a, c) <==> Quiet(a, b) && Quiet(b, c))
  {
  }

  lemma {:induction false} InstallsFollow(d: Disk, s: Setup, files: map<string, Entry>, order: seq<string>,
                                          stamps: map<string, int>)
    requires forall k :: k in order ==> k in files
    ensures Follows(d, RanInstalls(d, s, files, order, stamps))
    decreases |order|
  {
    if order != [] {
      assert order[0] in order;
      var next := RanInstall(d, s, files[order[0]], StampOf(stamps, order[0]));
      InstallQuiet(d, s, files[order[0]], StampOf(stamps, order[0]));
      InstallsFollow(next, s, files, order[1..], stamps);
      FollowsThrough(d, next, RanInstalls(next, s, files, order[1..], stamps));
    }
  }

  lemma {:induction false} UpdatesFollow(d: Disk, s: Setup, files: map<string, Entry>, order: seq<string>,
                                         stamps: map<string, int>)
    requires forall k :: k in order ==> k in files
    ensures Follows(d, RanUpdates(d, s, files, order, stamps))
    decreases |order|
  {
    if order != [] {
      assert order[0] in order;
      var next := RanUpdate(d, s, files[order[0]], StampOf(stamps, order[0]));
      UpdateQuiet(d, s, files[order[0]], StampOf(stamps, order[0]));
      UpdatesFollow(next, s, files, order[1..], stamps);
      FollowsThrough(d, next, RanUpdates(next, s, files, order[1..], stamps));
    }
  }

  lemma {:induction false} UninstallsFollow(d: Disk, s: Setup, order: seq<string>)
    ensures Follows(d, RanUninstalls(d, s, order))
    decreases |order|
  {
    if order != [] {
      var next := RanUninstall(d, s, order[0]);
      UninstallQuiet(d, s, order[0]);
      UninstallsFollow(next, s, order[1..]);
      FollowsThrough(d, next, RanUninstalls(next, s, order[1..]));
    }
  }

  // ---- A phase is quiet exactly when no directive it executes is harmful, and then does what it is meant to ----

  ghost predicate InstallsHarmless(d: Disk, s: Setup, files: map<string, Entry>, order: seq<string>)
    requires forall k :: k in order ==> k in files
  {
    forall k :: k in order ==> !Harmful(s, d.folders.installed, RunOf(Install, files[k]))
  }

  lemma {:induction false} InstallsQuiet(d: Disk, s: Setup, files: map<string, Entry>, order: seq<string>,
                                         stamps: map<string, int>)
    requires d.ready && Distinct(order)
    requires forall k :: k in order ==> k in files && files[k] in d.folders.installed
    ensures
      var d' := RanInstalls(d, s, files, order, stamps);
      && (Quiet(d, d') <==> InstallsHarmless(d, s, files, order))
      && (Quiet(d, d') ==> d' == Disk(InstalledAll(d.folders, files, order, stamps), true))
    decreases |order|
  {
    if order != [] {
      var first, rest := order[0], order[1..];
      DistinctTail(order);
      assert first in order;
      var next := RanInstall(d, s, files[first], StampOf(stamps, first));
      InstallQuiet(d, s, files[first], StampOf(stamps, first));
      InstallsFollow(next, s, files, rest, stamps);
      FollowsThrough(d, next, RanInstalls(next, s, files, rest, stamps));
      if Quiet(d, next) {
        InstallsQuiet(next, s, files, rest, stamps);
      }
    }
  }

  ghost predicate UpdatesHarmless(d: Disk, s: Setup, files: map<string, Entry>, order: seq<string>)
    requires forall k :: k in order ==> k in files
  {
    forall k :: k in order ==>
      UpToDate(d.folders.processed, files[k]) || !Harmful(s, d.folders.installed, RunOf(Update, files[k]))
  }

  lemma UpdatesHarmlessNext(d: Disk, s: Setup, files: map<string, Entry>, order: seq<string>, stamp: int)
    requires order != [] && Distinct(order) && ById(files) && forall k :: k in order ==> k in files
    ensures forall k :: k in order[1..] ==> k in files
    ensures
      var next := Disk(UpdatedOne(d.folders, files[order[0]], stamp), true);
      UpdatesHarmless(d, s, files, order) <==>
        (UpToDate(d.folders.processed, files[order[0]]) || !Harmful(s, d.folders.installed, RunOf(Update, files[order[0]])))
        && UpdatesHarmless(next, s, files, order[1..])
  {
    var first, rest := order[0], order[1..];
    DistinctTail(order);
    assert first in order;
    var next := UpdatedOne(d.folders, files[first], stamp);
    forall k | k in rest ensures UpToDate(next.processed, files[k]) <==> UpToDate(d.folders.processed, files[k]) {
      assert IdOf(files[k].name) == k && IdOf(files[first].name) == first;
    }
  }

  lemma {:induction false} UpdatesQuiet(d: Disk, s: Setup, files: map<string, Entry>, order: seq<string>,
                                        stamps: map<string, int>)
    requires d.ready && Distinct(order) && ById(files)
    requires forall k :: k in order ==> k in files && files[k] in d.folders.installed
    ensures
      var d' := RanUpdates(d, s, files, order, stamps);
      && (Quiet(d, d') <==> UpdatesHarmless(d, s, files, order))
      && (Quiet(d, d') ==> d' == Disk(UpdatedAll(d.folders, files, order, stamps), true))
    decreases |order|
  {
    if order != [] {
      var first, rest := order[0], order[1..];
      DistinctTail(order);
      assert first in order;
      var stamp := StampOf(stamps, first);
      var next := RanUpdate(d, s, files[first], stamp);
      UpdateQuiet(d, s, files[first], stamp);
      UpdatesFollow(next, s, files, rest, stamps);
      FollowsThrough(d, next, RanUpdates(next, s, files, rest, stamps));
      UpdatesHarmlessNext(d, s, files, order, stamp);
      if Quiet(d, next) {
        UpdatesQuiet(next, s, files, rest, stamps);
      }
    }
  }

  ghost predicate UninstallsHarmless(d: Disk, s: Setup, order: seq<string>) {
    forall k :: k in order && k in d.folders.processed ==>
      !Harmful(s, d.folders.installed, FarewellRun(k, d.folders.processed[k]))
  }

  lemma {:induction false} UninstallsQuiet(d: Disk, s: Setup, order: seq<string>)
    requires d.ready && Distinct(order)
    ensures
      var d' := RanUninstalls(d, s, order);
      && (Quiet(d, d') <==> UninstallsHarmless(d, s, order))
      && (Quiet(d, d') ==> d' == Disk(UninstalledAll(d.folders, order), true))
    decreases |order|
  {
    if order != [] {
      var first, rest := order[0], order[1..];
      DistinctTail(order);
      assert first in order;
      var next := RanUninstall(d, s, first);
      UninstallQuiet(d, s, first);
      UninstallsFollow(next, s, rest);
      FollowsThrough(d, next, RanUninstalls(next, s, rest));
      if Quiet(d, next) {
        UninstallsQuiet(next, s, rest);
        assert UninstallsHarmless(next, s, rest) <==> forall k :: k in rest && k in d.folders.processed ==>
          !Harmful(s, d.folders.installed, FarewellRun(k, d.folders.processed[k]));
      }
    }
  }

  // ---- A whole run ----

  /** No directive that is due deletes a hook folder with something to lose. */
  ghost predicate Harmless(f: Folders, s: Setup) {
    forall id, run :: run in Due(f, id) ==> !Harmful(s, f.installed, run)
  }

  lemma ChosenInstalls(f: Folders, choice: Choice)
    requires AllVisible(f.installed) && Possible(f, choice)
    ensures
      var files := HookFiles(f.installed);
      && ById(files)
      && (forall k :: k in choice.installs ==> k in files && files[k] in f.installed && k !in f.processed)
      && (forall k :: k in choice.updates ==>
            k in files && files[k] in f.installed && k in f.processed && k !in choice.installs)
      && (forall k :: k in choice.removals ==>
            k !in files && k in f.processed && k !in choice.installs && k !in choice.updates)
  {
    HookFilesById(f.installed);
    HookFilesHold(f.installed);
    forall k ensures
        var files := HookFiles(f.installed);
        && (k in choice.installs <==> k in files && !(k in f.processed && Visible(k)))
        && (k in choice.updates <==> k in files && k in f.processed && Visible(k))
        && (k in choice.removals <==> k !in files && k in f.processed && Visible(k))
    {
      ChosenFor(f, choice, k);
    }
  }

  /** What is due to a package is what one of the three phases has to do. */
  lemma HarmlessPackage(f: Folders, s: Setup, choice: Choice, id: string)
    requires AllVisible(f.installed) && Possible(f, choice)
    ensures id in choice.installs || id in choice.updates ==> id in HookFiles(f.installed)
    ensures id in choice.removals ==> id in f.processed
    ensures
      var files := HookFiles(f.installed);
      (forall run :: run in Due(f, id) ==> !Harmful(s, f.installed, run)) <==>
        && (id in choice.installs ==> !Harmful(s, f.installed, RunOf(Install, files[id])))
        && (id in choice.updates ==>
              UpToDate(f.processed, files[id]) || !Harmful(s, f.installed, RunOf(Update, files[id])))
        && (id in choice.removals ==> !Harmful(s, f.installed, FarewellRun(id, f.processed[id])))
  {
    ChosenInstalls(f, choice);
    ChosenFor(f, choice, id);
    assert Due(f, id) != [] ==> Due(f, id) == [Due(f, id)[0]];
  }

  /** Each part is taken at the start of the run. */
  lemma HarmlessParts(f: Folders, s: Setup, choice: Choice)
    requires AllVisible(f.installed) && Possible(f, choice)
    ensures forall k :: k in choice.installs || k in choice.updates ==> k in HookFiles(f.installed)
    ensures
      var d, files := Disk(f, true), HookFiles(f.installed);
      Harmless(f, s) <==>
        && InstallsHarmless(d, s, files, choice.installs)
        && UpdatesHarmless(d, s, files, choice.updates)
        && UninstallsHarmless(d, s, choice.removals)
  {
    forall id
      ensures id in choice.installs || id in choice.updates ==> id in HookFiles(f.installed)
      ensures id in choice.removals ==> id in f.processed
      ensures
        var files := HookFiles(f.installed);
        (forall run :: run in Due(f, id) ==> !Harmful(s, f.installed, run)) <==>
          && (id in choice.installs ==> !Harmful(s, f.installed, RunOf(Install, files[id])))
          && (id in choice.updates ==>
                UpToDate(f.processed, files[id]) || !Harmful(s, f.installed, RunOf(Update, files[id])))
          && (id in choice.removals ==> !Harmful(s, f.installed, FarewellRun(id, f.processed[id])))
    {
      HarmlessPackage(f, s, choice, id);
    }
  }

  /** The phases before leave a package of a later phase as it was. */
  lemma PhasesApart(f: Folders, s: Setup, choice: Choice)
    requires AllVisible(f.installed) && Possible(f, choice)
    ensures forall k :: k in choice.installs || k in choice.updates ==> k in HookFiles(f.installed)
    ensures
      var files := HookFiles(f.installed);
      var f1 := InstalledAll(f, files, choice.installs, choice.stamps);
      var f2 := UpdatedAll(f1, files, choice.updates, choice.stamps);
      && f1.installed == f.installed && f2.installed == f.installed
      && UpdatesHarmless(Disk(f1, true), s, files, choice.updates)
         == UpdatesHarmless(Disk(f, true), s, files, choice.updates)
      && UninstallsHarmless(Disk(f2, true), s, choice.removals)
         == UninstallsHarmless(Disk(f, true), s, choice.removals)
  {
    var files := HookFiles(f.installed);
    ChosenInstalls(f, choice);
    var f1 := InstalledAll(f, files, choice.installs, choice.stamps);
    var f2 := UpdatedAll(f1, files, choice.updates, choice.stamps);
    InstallEffect(f, files, choice.installs, choice.stamps, "");
    UpdateEffect(f1, files, choice.updates, choice.stamps, "");
    forall k | k in choice.updates ensures UpToDate(f1.processed, files[k]) <==> UpToDate(f.processed, files[k]) {
      InstallEffect(f, files, choice.installs, choice.stamps, k);
      SameFreshness(f, f1, files[k]);
    }
    forall k | k in choice.removals ensures k in f2.processed && f2.processed[k] == f.processed[k] {
      InstallEffect(f, files, choice.installs, choice.stamps, k);
      UpdateEffect(f1, files, choice.updates, choice.stamps, k);
      assert FileAt(f2, k) == FileAt(f, k);
    }
  }

  lemma RunFollows(d: Disk, s: Setup, choice: Choice)
    requires Possible(d.folders, choice)
    ensures Follows(d.(ready := true), Ran(d, s, choice))
  {
    var files := HookFiles(d.folders.installed);
    var d0 := d.(ready := true);
    var d1 := RanInstalls(d0, s, files, choice.installs, choice.stamps);
    var d2 := RanUpdates(d1, s, files, choice.updates, choice.stamps);
    InstallsFollow(d0, s, files, choice.installs, choice.stamps);
    UpdatesFollow(d1, s, files, choice.updates, choice.stamps);
    UninstallsFollow(d2, s, choice.removals);
    FollowsThrough(d0, d1, d2);
    FollowsThrough(d0, d2, Ran(d, s, choice));
  }

  /** A run loses no hook folder exactly when no due directive is harmful, and then it does what it is meant to. */
  lemma RunQuiet(d: Disk, s: Setup, choice: Choice)
    requires AllVisible(d.folders.installed) && Possible(d.folders, choice)
    ensures Quiet(d, Ran(d, s, choice)) <==> Harmless(d.folders, s)
    ensures Harmless(d.folders, s) ==> Ran(d, s, choice) == Disk(Synced(d.folders, choice), true)
  {
    var f, files := d.folders, HookFiles(d.folders.installed);
    var d0 := d.(ready := true);
    var d1 := RanInstalls(d0, s, files, choice.installs, choice.stamps);
    var d2 := RanUpdates(d1, s, files, choice.updates, choice.stamps);
    var d3 := RanUninstalls(d2, s, choice.removals);
    ChosenInstalls(f, choice);
    HarmlessParts(f, s, choice);
    PhasesApart(f, s, choice);
    InstallsQuiet(d0, s, files, choice.installs, choice.stamps);
    InstallsFollow(d0, s, files, choice.installs, choice.stamps);
    UpdatesFollow(d1, s, files, choice.updates, choice.stamps);
    UninstallsFollow(d2, s, choice.removals);
    FollowsThrough(d0, d1, d2);
    FollowsThrough(d0, d2, d3);
    if Quiet(d0, d1) {
      UpdatesQuiet(d1, s, files, choice.updates, choice.stamps);
      if Quiet(d1, d2) {
        UninstallsQuiet(d2, s, choice.removals);
      }
    }
  }

  /** The folder exists, the installed hooks are all there, every name has the processed file it should have, and
      every package had exactly the directives due to it. */
  ghost predicate AsMeant(f: Folders, d': Disk, stamps: map<string, int>) {
    && d'.ready && d'.folders.installed == f.installed
    && forall id :: PackageAsMeant(f, d'.folders, stamps, id)
  }

  ghost predicate PackageAsMeant(f: Folders, f': Folders, stamps: map<string, int>, id: string) {
    && FileAt(f', id) == Expected(f, stamps, id)
    && (id in f'.processed <==> if Visible(id) then id in HookFiles(f.installed) else id in f.processed)
    && RunsFor(f'.log, id) == RunsFor(f.log, id) + Due(f, id)
  }

  /** Wherever the folders are: a run leaves the processed folder with exactly the installed ids, each a fresh copy
      where it was missing or older and the old file otherwise, and executes exactly the directives due, if and only
      if none of those directives deletes a hook folder with something to lose. */
  lemma RunEffect(d: Disk, s: Setup, choice: Choice)
    requires AllVisible(d.folders.installed) && Possible(d.folders, choice)
    ensures AsMeant(d.folders, Ran(d, s, choice), choice.stamps) <==> Harmless(d.folders, s)
  {
    RunQuiet(d, s, choice);
    if Harmless(d.folders, s) {
      forall id ensures PackageAsMeant(d.folders, Ran(d, s, choice).folders, choice.stamps, id) {
        SyncedEffect(d.folders, choice, id);
      }
      SyncedEffect(d.folders, choice, "");
    }
  }

  /** What a package should get: the directives for installing when it is new, those for updating when its processed
      file is older, those its processed file holds for uninstalling when it vanished, and none otherwise; and a copy
      of its file, or nothing, or the processed file it has. */
  ghost predicate Served(f: Folders, stamps: map<string, int>, id: string, runs: seq<Run>, file: Option<File>) {
    var files := HookFiles(f.installed);
    && (id in files && id !in f.processed ==>
          && runs == [Run(Install, id, Target(files[id].name), files[id].file.hook.install)]
          && file == Some(File(StampOf(stamps, id), files[id].file.hook)))
    && (id in files && id in f.processed && f.processed[id].modified < files[id].file.modified ==>
          && runs == [Run(Update, id, Target(files[id].name), files[id].file.hook.update)]
          && file == Some(File(StampOf(stamps, id), files[id].file.hook)))
    && (id in files && id in f.processed && f.processed[id].modified >= files[id].file.modified ==>
          runs == [] && file == Some(f.processed[id]))
    && (id !in files && id in f.processed && id != "" && id[0] != '.' ==>
          runs == [Run(Uninstall, id, Target(id), f.processed[id].hook.uninstall)] && file == None)
    && (id !in files && id in f.processed && (id == "" || id[0] == '.') ==>
          runs == [] && file == Some(f.processed[id]))
    && (id !in files && id !in f.processed ==> runs == [] && file == None)
  }

  lemma DueServes(f: Folders, stamps: map<string, int>, id: string)
    requires AllVisible(f.installed)
    ensures Served(f, stamps, id, Due(f, id), Expected(f, stamps, id))
  {
    HookFilesById(f.installed);
  }

  /** A run without harmful directives serves every package: these are its directives and its processed file. */
  lemma RunServes(d: Disk, s: Setup, choice: Choice, id: string)
    requires AllVisible(d.folders.installed) && Possible(d.folders, choice) && Harmless(d.folders, s)
    ensures
      var f' := Ran(d, s, choice).folders;
      exists runs ::
        && RunsFor(f'.log, id) == RunsFor(d.folders.log, id) + runs
        && Served(d.folders, choice.stamps, id, runs, if id in f'.processed then Some(f'.processed[id]) else None)
  {
    RunQuiet(d, s, choice);
    SyncedEffect(d.folders, choice, id);
    DueServes(d.folders, choice.stamps, id);
    assert RunsFor(Ran(d, s, choice).folders.log, id) == RunsFor(d.folders.log, id) + Due(d.folders, id);
  }

  ghost predicate NothingStale(f: Folders) {
    forall id :: !Stale(f, id)
  }

  lemma SyncedStale(f: Folders, choice: Choice)
    requires AllVisible(f.installed) && Possible(f, choice)
    ensures NothingStale(Synced(f, choice)) <==> FreshCopies(f, choice.stamps)
  {
    var f' := Synced(f, choice);
    HookFilesById(f.installed);
    forall id
      ensures Stale(f', id) <==>
        Stale(f, id) && StampOf(choice.stamps, id) < HookFiles(f.installed)[id].file.modified
    {
      SyncedEffect(f, choice, id);
    }
  }

  /** Every processed file is at least as new as its installed file exactly when the copies got a time no older
      than their source; after a run that lost a hook folder, exactly when no installed hook is left. */
  lemma NothingStaleAfterRun(d: Disk, s: Setup, choice: Choice)
    requires AllVisible(d.folders.installed) && Possible(d.folders, choice)
    ensures
      NothingStale(Ran(d, s, choice).folders) <==>
        if Harmless(d.folders, s) then FreshCopies(d.folders, choice.stamps)
        else HookFiles(Ran(d, s, choice).folders.installed) == map[]
  {
    var f' := Ran(d, s, choice).folders;
    RunQuiet(d, s, choice);
    RunFollows(d, s, choice);
    if Harmless(d.folders, s) {
      SyncedStale(d.folders, choice);
    } else if HookFiles(f'.installed) != map[] {
      var id :| id in HookFiles(f'.installed);
      assert f'.installed != [];
      assert f'.processed == map[];
      assert Stale(f', id);
    }
  }

  // ---- What a lost folder leaves behind ----

  /** A hook whose file was deleted during the run: nothing is executed and nothing is copied, and its processed file
      goes when it is older than the time reported for a missing file. */
  lemma LostHookEffect(d: Disk, s: Setup, e: Entry, stamp: int)
    requires e !in d.folders.installed
    ensures RanInstall(d, s, e, stamp) == d
    ensures
      var d', id := RanUpdate(d, s, e, stamp), IdOf(e.name);
      && d'.folders.log == d.folders.log && d'.folders.installed == d.folders.installed && d'.ready == d.ready
      && (forall k :: k in d'.folders.processed <==>
            k in d.folders.processed && (k == id ==> d.folders.processed[k].modified >= s.missingTime))
      && (forall k :: k in d'.folders.processed ==> d'.folders.processed[k] == d.folders.processed[k])
  {
  }

  /** No directive of an installed or processed package deletes the folder of installed hooks. */
  ghost predicate KeepsInstalled(f: Folders, s: Setup) {
    && (forall e :: e in f.installed ==>
          !Deletes(s, RunOf(Install, e), s.installed) && !Deletes(s, RunOf(Update, e), s.installed))
    && (forall id :: id in f.processed ==> !Deletes(s, FarewellRun(id, f.processed[id]), s.installed))
  }

  /** Processed files of other ids than the given ones can only have been lost. */
  ghost predicate OthersKept(d: Disk, d': Disk, ids: seq<string>) {
    forall id :: id !in ids && id in d'.folders.processed ==>
      id in d.folders.processed && d'.folders.processed[id] == d.folders.processed[id]
  }

  lemma InstallKeeps(d: Disk, s: Setup, e: Entry, stamp: int)
    ensures OthersKept(d, RanInstall(d, s, e, stamp), [IdOf(e.name)])
    ensures !Deletes(s, RunOf(Install, e), s.installed) ==>
      RanInstall(d, s, e, stamp).folders.installed == d.folders.installed
  {
  }

  lemma UpdateKeeps(d: Disk, s: Setup, e: Entry, stamp: int)
    ensures OthersKept(d, RanUpdate(d, s, e, stamp), [IdOf(e.name)])
    ensures !Deletes(s, RunOf(Update, e), s.installed) ==>
      RanUpdate(d, s, e, stamp).folders.installed == d.folders.installed
  {
  }

  lemma OthersKeptThrough(a: Disk, b: Disk, c: Disk, order: seq<string>)
    requires order != [] && OthersKept(a, b, [order[0]]) && OthersKept(b, c, order[1..])
    ensures OthersKept(a, c, order)
  {
    assert order == [order[0]] + order[1..];
  }

  lemma {:induction false} InstallsKeep(d: Disk, s: Setup, files: map<string, Entry>, order: seq<string>,
                                        stamps: map<string, int>)
    requires ById(files) && forall k :: k in order ==> k in files
    ensures OthersKept(d, RanInstalls(d, s, files, order, stamps), order)
    ensures (forall k :: k in order ==> !Deletes(s, RunOf(Install, files[k]), s.installed)) ==>
      RanInstalls(d, s, files, order, stamps).folders.installed == d.folders.installed
    decreases |order|
  {
    if order != [] {
      assert order[0] in order;
      var next := RanInstall(d, s, files[order[0]], StampOf(stamps, order[0]));
      InstallKeeps(d, s, files[order[0]], StampOf(stamps, order[0]));
      InstallsKeep(next, s, files, order[1..], stamps);
      OthersKeptThrough(d, next, RanInstalls(next, s, files, order[1..], stamps), order);
    }
  }

  lemma {:induction false} UpdatesKeep(d: Disk, s: Setup, files: map<string, Entry>, order: seq<string>,
                                       stamps: map<string, int>)
    requires ById(files) && forall k :: k in order ==> k in files
    ensures OthersKept(d, RanUpdates(d, s, files, order, stamps), order)
    ensures (forall k :: k in order ==> !Deletes(s, RunOf(Update, files[k]), s.installed)) ==>
      RanUpdates(d, s, files, order, stamps).folders.installed == d.folders.installed
    decreases |order|
  {
    if order != [] {
      assert order[0] in order;
      var next := RanUpdate(d, s, files[order[0]], StampOf(stamps, order[0]));
      UpdateKeeps(d, s, files[order[0]], StampOf(stamps, order[0]));
      UpdatesKeep(next, s, files, order[1..], stamps);
      OthersKeptThrough(d, next, RanUpdates(next, s, files, order[1..], stamps), order);
    }
  }

  lemma {:induction false} UninstallsKeep(d: Disk, s: Setup, order: seq<string>)
    requires forall k :: k in order && k in d.folders.processed ==>
      !Deletes(s, FarewellRun(k, d.folders.processed[k]), s.installed)
    ensures RanUninstalls(d, s, order).folders.installed == d.folders.installed
    decreases |order|
  {
    if order != [] {
      assert order == [order[0]] + order[1..];
      UninstallsKeep(RanUninstall(d, s, order[0]), s, order[1..]);
    }
  }

  lemma RunKeepsInstalled(d: Disk, s: Setup, choice: Choice)
    requires AllVisible(d.folders.installed) && Possible(d.folders, choice) && KeepsInstalled(d.folders, s)
    ensures Ran(d, s, choice).folders.installed == d.folders.installed
  {
    var files := HookFiles(d.folders.installed);
    var d0 := d.(ready := true);
    var d1 := RanInstalls(d0, s, files, choice.installs, choice.stamps);
    ChosenInstalls(d.folders, choice);
    InstallsKeep(d0, s, files, choice.installs, choice.stamps);
    UpdatesKeep(d1, s, files, choice.updates, choice.stamps);
    UninstallsKeep(RanUpdates(d1, s, files, choice.updates, choice.stamps), s, choice.removals);
  }

  /** When a harmful directive is due and none deletes the folder of installed hooks, every installed hook is stale
      after the run: the processed folder is gone. */
  lemma StaleAfterLoss(d: Disk, s: Setup, choice: Choice, id: string)
    requires AllVisible(d.folders.installed) && Possible(d.folders, choice)
    requires !Harmless(d.folders, s) && KeepsInstalled(d.folders, s)
    ensures
      var d' := Ran(d, s, choice);
      && !d'.ready && d'.folders.processed == map[] && d'.folders.installed == d.folders.installed
      && (Stale(d'.folders, id) <==> id in HookFiles(d.folders.installed))
  {
    RunQuiet(d, s, choice);
    RunFollows(d, s, choice);
    RunKeepsInstalled(d, s, choice);
  }

  /** When a package that is new asks for the folder of installed hooks to be deleted, that folder is empty after the
      run, so that nothing is stale. */
  lemma NothingInstalledAfterLoss(d: Disk, s: Setup, choice: Choice, id: string)
    requires AllVisible(d.folders.installed) && Possible(d.folders, choice)
    requires id in HookFiles(d.folders.installed) && id !in d.folders.processed
    requires Deletes(s, RunOf(Install, HookFiles(d.folders.installed)[id]), s.installed)
    ensures Ran(d, s, choice).folders.installed == [] && NothingStale(Ran(d, s, choice).folders)
  {
    var files := HookFiles(d.folders.installed);
    var d0 := d.(ready := true);
    var d1 := RanInstalls(d0, s, files, choice.installs, choice.stamps);
    var d2 := RanUpdates(d1, s, files, choice.updates, choice.stamps);
    ChosenFor(d.folders, choice, id);
    ChosenInstalls(d.folders, choice);
    InstallsLose(d0, s, files, choice.installs, choice.stamps, id);
    UpdatesFollow(d1, s, files, choice.updates, choice.stamps);
    UninstallsFollow(d2, s, choice.removals);
    assert HookFiles([]) == map[];
  }

  lemma {:induction false} InstallsLose(d: Disk, s: Setup, files: map<string, Entry>, order: seq<string>,
                                        stamps: map<string, int>, id: string)
    requires id in order && forall k :: k in order ==> k in files
    requires files[id] in d.folders.installed && Deletes(s, RunOf(Install, files[id]), s.installed)
    ensures RanInstalls(d, s, files, order, stamps).folders.installed == []
    decreases |order|
  {
    var next := RanInstall(d, s, files[order[0]], StampOf(stamps, order[0]));
    assert order == [order[0]] + order[1..];
    if next.folders.installed == [] {
      InstallsFollow(next, s, files, order[1..], stamps);
    } else {
      InstallsLose(next, s, files, order[1..], stamps, id);
    }
  }

  // ---- Every directive executed, whatever was deleted ----

  /** The directive is one that an installed hook, or a processed one, holds for the phase. */
  ghost predicate Directed(f: Folders, run: Run) {
    match run.phase
    case Install =>
      exists e :: e in f.installed && run.id == IdOf(e.name) && run.target == Target(e.name) &&
        run.data == e.file.hook.install
    case Update =>
      exists e :: e in f.installed && run.id == IdOf(e.name) && run.target == Target(e.name) &&
        run.data == e.file.hook.update
    case Uninstall =>
      run.id in f.processed && run.target == Target(run.id) && run.data == f.processed[run.id].hook.uninstall
  }

  /** The log goes on with such directives only. */
  ghost predicate LogDirected(f: Folders, before: seq<Run>, after: seq<Run>) {
    before <= after && forall i :: |before| <= i < |after| ==> Directed(f, after[i])
  }

  lemma LogDirectedThrough(f: Folders, a: seq<Run>, b: seq<Run>, c: seq<Run>)
    requires LogDirected(f, a, b) && LogDirected(f, b, c)
    ensures LogDirected(f, a, c)
  {
  }

  lemma HeldDirected(f: Folders, log: seq<Run>, phase: Phase, e: Entry)
    requires e in f.installed && phase != Uninstall
    ensures LogDirected(f, log, log + [RunOf(phase, e)]) && LogDirected(f, log, log)
  {
    assert Directed(f, RunOf(phase, e));
  }

  lemma {:induction false} InstallsDirected(f: Folders, d: Disk, s: Setup, files: map<string, Entry>, order: seq<string>,
                                            stamps: map<string, int>)
    requires forall k :: k in order ==> k in files && files[k] in f.installed
    ensures LogDirected(f, d.folders.log, RanInstalls(d, s, files, order, stamps).folders.log)
    decreases |order|
  {
    if order != [] {
      assert order[0] in order;
      var next := RanInstall(d, s, files[order[0]], StampOf(stamps, order[0]));
      HeldDirected(f, d.folders.log, Install, files[order[0]]);
      InstallsDirected(f, next, s, files, order[1..], stamps);
      LogDirectedThrough(f, d.folders.log, next.folders.log, RanInstalls(d, s, files, order, stamps).folders.log);
    }
  }

  lemma {:induction false} UpdatesDirected(f: Folders, d: Disk, s: Setup, files: map<string, Entry>, order: seq<string>,
                                           stamps: map<string, int>)
    requires forall k :: k in order ==> k in files && files[k] in f.installed
    ensures LogDirected(f, d.folders.log, RanUpdates(d, s, files, order, stamps).folders.log)
    decreases |order|
  {
    if order != [] {
      assert order[0] in order;
      var next := RanUpdate(d, s, files[order[0]], StampOf(stamps, order[0]));
      HeldDirected(f, d.folders.log, Update, files[order[0]]);
      UpdatesDirected(f, next, s, files, order[1..], stamps);
      LogDirectedThrough(f, d.folders.log, next.folders.log, RanUpdates(d, s, files, order, stamps).folders.log);
    }
  }

  lemma {:induction false} UninstallsDirected(f: Folders, d: Disk, s: Setup, order: seq<string>)
    requires forall k :: k in order && k in d.folders.processed ==>
      k in f.processed && d.folders.processed[k] == f.processed[k]
    ensures LogDirected(f, d.folders.log, RanUninstalls(d, s, order).folders.log)
    decreases |order|
  {
    if order != [] {
      assert order[0] in order;
      var next := RanUninstall(d, s, order[0]);
      assert LogDirected(f, d.folders.log, next.folders.log);
      UninstallsDirected(f, next, s, order[1..]);
      LogDirectedThrough(f, d.folders.log, next.folders.log, RanUninstalls(d, s, order).folders.log);
    }
  }

  /** In every run, harmful or not, whatever the orders and the layout, each directive executed is the one that the
      installed hook holds for installing or for updating, or the processed hook for uninstalling. */
  lemma EveryDirectiveIsHeld(d: Disk, s: Setup, choice: Choice)
    requires AllVisible(d.folders.installed) && Possible(d.folders, choice)
    ensures LogDirected(d.folders, d.folders.log, Ran(d, s, choice).folders.log)
  {
    var f, files := d.folders, HookFiles(d.folders.installed);
    var d0 := d.(ready := true);
    var d1 := RanInstalls(d0, s, files, choice.installs, choice.stamps);
    var d2 := RanUpdates(d1, s, files, choice.updates, choice.stamps);
    ChosenInstalls(f, choice);
    InstallsKeep(d0, s, files, choice.installs, choice.stamps);
    UpdatesKeep(d1, s, files, choice.updates, choice.stamps);
    InstallsDirected(f, d0, s, files, choice.installs, choice.stamps);
    UpdatesDirected(f, d1, s, files, choice.updates, choice.stamps);
    UninstallsDirected(f, d2, s, choice.removals);
    LogDirectedThrough(f, d0.folders.log, d1.folders.log, d2.folders.log);
    LogDirectedThrough(f, d0.folders.log, d2.folders.log, Ran(d, s, choice).folders.log);
  }

  // ---- A second run ----

  lemma NothingDueIdle(f: Folders, choice: Choice)
    requires AllVisible(f.installed) && Possible(f, choice) && forall id :: Due(f, id) == []
    ensures Synced(f, choice) == f
  {
    var files := HookFiles(f.installed);
    ChosenInstalls(f, choice);
    forall k ensures k !in choice.installs && k !in choice.removals {
      ChosenFor(f, choice, k);
      assert Due(f, k) == [];
    }
    HasMember(choice.installs);
    HasMember(choice.removals);
    forall k | k in choice.updates ensures k in files && UpToDate(f.processed, files[k]) {
      assert Due(f, k) == [];
    }
    NoUpdates(f, files, choice.updates, choice.stamps);
  }

  /** A run changes nothing exactly when the folder exists and no directive is due. */
  lemma IdleExactly(d: Disk, s: Setup, choice: Choice)
    requires AllVisible(d.folders.installed) && Possible(d.folders, choice)
    ensures Ran(d, s, choice) == d <==> d.ready && forall id :: Due(d.folders, id) == []
  {
    RunFollows(d, s, choice);
    RunQuiet(d, s, choice);
    if Ran(d, s, choice) == d {
      forall id ensures Due(d.folders, id) == [] {
        SyncedEffect(d.folders, choice, id);
        assert RunsFor(d.folders.log, id) == RunsFor(d.folders.log, id) + Due(d.folders, id);
      }
    }
    if d.ready && forall id :: Due(d.folders, id) == [] {
      NothingDueIdle(d.folders, choice);
    }
  }

  /** A second run changes nothing and executes no directive, exactly when the copies of the first run got a time
      no older than their source; after a first run that lost a hook folder, exactly when the processed folder is
      still there and shows no file. */
  lemma SecondRunIdle(d: Disk, s: Setup, first: Choice, second: Choice)
    requires AllVisible(d.folders.installed) && Possible(d.folders, first)
    requires Possible(Ran(d, s, first).folders, second)
    ensures
      var d1 := Ran(d, s, first);
      Ran(d1, s, second) == d1 <==>
        if Harmless(d.folders, s) then FreshCopies(d.folders, first.stamps)
        else d1.ready && Listed(d1.folders.processed) == {}
  {
    var d1 := Ran(d, s, first);
    RunFollows(d, s, first);
    RunQuiet(d, s, first);
    IdleExactly(d1, s, second);
    if Harmless(d.folders, s) {
      SyncedStale(d.folders, first);
      forall id ensures Due(d1.folders, id) == [] <==> !Stale(d1.folders, id) {
        SyncedEffect(d.folders, first, id);
        HookFilesById(d.folders.installed);
      }
      assert NothingStale(d1.folders) <==> forall id :: Due(d1.folders, id) == [];
    } else if d1.ready {
      assert d1.folders.installed == [];
      forall id ensures Due(d1.folders, id) == [] <==> id !in Listed(d1.folders.processed) {
      }
    }
  }

  // ---- The layout without environment variables ----

  /** By default a directive deletes a hook folder exactly when it names the whole location or the folder itself.
      Neither location lies on the way to the folder in the other one. */
  lemma DefaultDeletes(cache: Path, data: Path, missingTime: int, run: Run)
    requires !(data <= cache + [APP]) && !(cache <= data + [APP])
    ensures
      var s := DefaultSetup(cache, data, missingTime);
      && (Deletes(s, run, s.processed) <==> run.data.deleteCache && run.target in {"", APP})
      && (Deletes(s, run, s.installed) <==> run.data.deleteCookies && run.target in {"", APP})
  {
    DirectoryInside(cache, run.target);
    DirectoryInside(data, run.target);
    DirectoryOutside(data, cache + [APP], run.target);
    DirectoryOutside(cache, data + [APP], run.target);
  }

  lemma DirectoryInside(location: Path, target: string)
    ensures Directory(location, target) <= location + [APP] <==> target in {"", APP}
  {
    var there, folder := location + [target], location + [APP];
    assert there[|location|] == target && folder[|location|] == APP;
  }

  lemma DirectoryOutside(location: Path, folder: Path, target: string)
    requires !(location <= folder)
    ensures !(Directory(location, target) <= folder)
  {
    assert location <= Directory(location, target);
  }

  // ---- A concrete case: a package named without underscores asks for its cache to be deleted ----

  const HOME: Setup := DefaultSetup(["home", ".cache"], ["home", ".local", "share"], 0)
  const NOTHING: Data := Data(false, false)
  const DELETE_CACHE: Data := Data(true, false)
  const FOO: Entry := Entry("foo.webapp", File(1, Hook(DELETE_CACHE, NOTHING, NOTHING)))
  const BEFORE: Disk := Disk(Folders([FOO], map["bar" := File(1, FOO.file.hook)], []), true)
  const VISITS: Choice := Choice(["foo"], [], ["bar"], map["foo" := 2])
  const FOO_RUN: Run := Run(Install, "foo", "", DELETE_CACHE)

  lemma FooFiles()
    ensures HookFiles([FOO]) == map["foo" := FOO]
  {
    FooNames();
    assert [FOO][..0] == [];
  }

  lemma FooPossible()
    ensures Possible(BEFORE.folders, VISITS) && AllVisible([FOO])
  {
    FooFiles();
    FooListed();
    FooSets();
    FooOrders();
  }

  lemma FooListed()
    ensures Listed(BEFORE.folders.processed) == {"bar"}
  {
    assert Visible("bar");
  }

  /** The package is new, and the processed file belongs to none. */
  lemma FooSets()
    ensures {"foo"} - {"bar"} == {"foo"} && {"foo"} * {"bar"} == {} && {"bar"} - {"foo"} == {"bar"}
  {
    assert "foo"[0] != "bar"[0];
  }

  lemma FooOrders()
    ensures Enumerates(["foo"], {"foo"}) && Enumerates<string>([], {}) && Enumerates(["bar"], {"bar"})
  {
  }

  lemma FooDeletes()
    ensures Deletes(HOME, FOO_RUN, HOME.processed) && !Deletes(HOME, FOO_RUN, HOME.installed)
  {
    assert HOME.cache <= HOME.processed;
    assert HOME.cache[1] == ".cache" && HOME.installed[1] == ".local";
    assert ".cache"[1] != ".local"[1];
  }

  lemma FooInstall()
    ensures RanInstall(BEFORE, HOME, FOO, 2) == Disk(Folders([FOO], map[], [FOO_RUN]), false)
  {
    FooNames();
    FooDeletes();
    assert RunOf(Install, FOO) == FOO_RUN;
    assert [] + [FOO_RUN] == [FOO_RUN];
  }

  /** The whole cache location is deleted, the folder of processed hooks goes with it, and nothing is copied. */
  lemma WholeCacheDeleted()
    ensures Possible(BEFORE.folders, VISITS) && AllVisible(BEFORE.folders.installed)
    ensures Ran(BEFORE, HOME, VISITS) == Disk(Folders([FOO], map[], [FOO_RUN]), false)
    ensures !Harmless(BEFORE.folders, HOME)
  {
    FooPossible();
    FooFiles();
    FooInstall();
    var files, d1 := map["foo" := FOO], RanInstall(BEFORE, HOME, FOO, 2);
    assert ["foo"][1..] == [] && ["bar"][1..] == [];
    assert RanInstalls(BEFORE, HOME, files, ["foo"], VISITS.stamps) == RanInstalls(d1, HOME, files, [], VISITS.stamps);
    assert RanUninstalls(d1, HOME, ["bar"]) == RanUninstalls(d1, HOME, []);
    assert BEFORE.(ready := true) == BEFORE;
    RunQuiet(BEFORE, HOME, VISITS);
  }

  lemma FooNames()
    ensures Suffix("foo.webapp") == "webapp" && IdOf("foo.webapp") == "foo" && Target("foo.webapp") == ""
  {
    assert "foo" + ".webapp" == "foo.webapp";
    assert "foo" == ['f', 'o', 'o'];
    SplitPlain("foo");
    WebappName("foo");
    TargetOfFile("foo");
    assert Split("foo")[..0] == [];
  }

  // ---- One more package in each phase ----

  lemma {:induction false} RanInstallsMore(d: Disk, s: Setup, files: map<string, Entry>, order: seq<string>, id: string,
                                           stamps: map<string, int>)
    requires id in files && forall k :: k in order ==> k in files
    ensures forall k :: k in order + [id] ==> k in files
    ensures RanInstalls(d, s, files, order + [id], stamps)
         == RanInstall(RanInstalls(d, s, files, order, stamps), s, files[id], StampOf(stamps, id))
    decreases |order|
  {
    if order == [] {
      assert [] + [id] == [id] && [id][1..] == [];
    } else {
      assert order[0] in order;
      assert (order + [id])[1..] == order[1..] + [id];
      RanInstallsMore(RanInstall(d, s, files[order[0]], StampOf(stamps, order[0])), s, files, order[1..], id, stamps);
    }
  }

  lemma {:induction false} RanUpdatesMore(d: Disk, s: Setup, files: map<string, Entry>, order: seq<string>, id: string,
                                          stamps: map<string, int>)
    requires id in files && forall k :: k in order ==> k in files
    ensures forall k :: k in order + [id] ==> k in files
    ensures RanUpdates(d, s, files, order + [id], stamps)
         == RanUpdate(RanUpdates(d, s, files, order, stamps), s, files[id], StampOf(stamps, id))
    decreases |order|
  {
    if order == [] {
      assert [] + [id] == [id] && [id][1..] == [];
    } else {
      assert order[0] in order;
      assert (order + [id])[1..] == order[1..] + [id];
      RanUpdatesMore(RanUpdate(d, s, files[order[0]], StampOf(stamps, order[0])), s, files, order[1..], id, stamps);
    }
  }

  lemma {:induction false} RanUninstallsMore(d: Disk, s: Setup, order: seq<string>, id: string)
    ensures RanUninstalls(d, s, order + [id]) == RanUninstall(RanUninstalls(d, s, order), s, id)
    decreases |order|
  {
    if order == [] {
      assert [] + [id] == [id] && [id][1..] == [];
    } else {
      assert (order + [id])[1..] == order[1..] + [id];
      RanUninstallsMore(RanUninstall(d, s, order[0]), s, order[1..], id);
    }
  }

  // ---- The folders on disk ----

  class HookFolders {
    const setup: Setup
    var installed: seq<Entry>
    var processed: map<string, File>
    var ready: bool
    ghost var log: seq<Run>

    ghost function State(): Disk
      reads this
    {
      Disk(Folders(installed, processed, log), ready)
    }

    constructor (setup: Setup, installed: seq<Entry>, processed: map<string, File>, ready: bool)
      ensures this.setup == setup && State() == Disk(Folders(installed, processed, []), ready)
    {
      this.setup, this.installed, this.processed, this.ready, log := setup, installed, processed, ready, [];
    }

    method ListInstalled() returns (hookFiles: map<string, Entry>)
      ensures hookFiles == HookFiles(installed)
    {
      hookFiles := map[];
      var i := 0;
      while i < |installed|
        invariant 0 <= i <= |installed|
        invariant hookFiles == HookFiles(installed[..i])
      {
        assert installed[..i + 1][..i] == installed[..i];
        if Suffix(installed[i].name) == "webapp" {
          hookFiles := hookFiles[IdOf(installed[i].name) := installed[i]];
        }
        i := i + 1;
      }
      assert installed[..i] == installed;
    }

    method ListProcessed() returns (hookFiles: set<string>)
      ensures hookFiles == Listed(processed)
    {
      hookFiles := {};
      var left := processed.Keys;
      while left != {}
        invariant left <= processed.Keys
        invariant forall id :: id in hookFiles <==> id in processed && id !in left && Visible(id)
        decreases left
      {
        var id :| id in left;
        if Visible(id) {
          hookFiles := hookFiles + {id};
        }
        left := left - {id};
      }
    }

    /** Deletes what the directives name, and every hook folder inside. */
    method ExecuteHookDirectives(run: Run)
      modifies this
      ensures State() == Executed(old(State()), setup, run)
    {
      if Deletes(setup, run, setup.installed) {
        installed := [];
      }
      if Deletes(setup, run, setup.processed) {
        processed := map[];
        ready := false;
      }
      log := log + [run];
    }

    method CopyFile(entry: Entry, stamp: int)
      modifies this
      ensures State() == Copied(old(State()), entry, stamp)
    {
      var destination := IdOf(entry.name);
      if ready && entry in installed && destination !in processed {
        processed := processed[destination := Copy(entry.file, stamp)];
      }
    }

    method InstallHook(entry: Entry, stamp: int)
      modifies this
      ensures State() == RanInstall(old(State()), setup, entry, stamp)
    {
      if entry in installed {
        ExecuteHookDirectives(RunOf(Install, entry));
      }
      CopyFile(entry, stamp);
    }

    method HandleInstalls(already: set<string>, hookFiles: map<string, Entry>, stamps: map<string, int>)
      returns (ghost order: seq<string>)
      modifies this
      ensures Enumerates(order, hookFiles.Keys - already)
      ensures State() == RanInstalls(old(State()), setup, hookFiles, order, stamps)
    {
      order := [];
      ghost var all := hookFiles.Keys - already;
      var left := hookFiles.Keys - already;
      while left != {}
        invariant left <= all && Enumerates(order, all - left)
        invariant State() == RanInstalls(old(State()), setup, hookFiles, order, stamps)
        decreases left
      {
        var webappClickHook :| webappClickHook in left;
        RanInstallsMore(old(State()), setup, hookFiles, order, webappClickHook, stamps);
        EnumeratesMore(order, all, left, webappClickHook);
        InstallHook(hookFiles[webappClickHook], StampOf(stamps, webappClickHook));
        left := left - {webappClickHook};
        order := order + [webappClickHook];
      }
    }

    /** A file that is as new as its source is left alone; an older one is removed before the copy. */
    method UpdateHook(entry: Entry, stamp: int)
      modifies this
      ensures State() == RanUpdate(old(State()), setup, entry, stamp)
    {
      var destination := IdOf(entry.name);
      var lastModified := if entry in installed then entry.file.modified else setup.missingTime;
      if destination in processed && processed[destination].modified >= lastModified {
        return;
      }
      if entry in installed {
        ExecuteHookDirectives(RunOf(Update, entry));
      }
      if destination in processed {
        processed := processed - {destination};
      }
      assert destination !in processed ==> processed - {destination} == processed;
      CopyFile(entry, stamp);
    }

    method HandleUpdates(already: set<string>, hookFiles: map<string, Entry>, stamps: map<string, int>)
      returns (ghost order: seq<string>)
      modifies this
      ensures Enumerates(order, hookFiles.Keys * already)
      ensures State() == RanUpdates(old(State()), setup, hookFiles, order, stamps)
    {
      order := [];
      ghost var all := hookFiles.Keys * already;
      var left := hookFiles.Keys * already;
      while left != {}
        invariant left <= all && Enumerates(order, all - left)
        invariant State() == RanUpdates(old(State()), setup, hookFiles, order, stamps)
        decreases left
      {
        var webappClickHook :| webappClickHook in left;
        RanUpdatesMore(old(State()), setup, hookFiles, order, webappClickHook, stamps);
        EnumeratesMore(order, all, left, webappClickHook);
        UpdateHook(hookFiles[webappClickHook], StampOf(stamps, webappClickHook));
        left := left - {webappClickHook};
        order := order + [webappClickHook];
      }
    }

    method UninstallHook(id: string)
      modifies this
      ensures State() == RanUninstall(old(State()), setup, id)
    {
      if id in processed {
        ExecuteHookDirectives(FarewellRun(id, processed[id]));
        processed := processed - {id};
      }
    }

    method HandleUninstall(already: set<string>, hookFiles: map<string, Entry>) returns (ghost order: seq<string>)
      modifies this
      ensures Enumerates(order, already - hookFiles.Keys)
      ensures State() == RanUninstalls(old(State()), setup, order)
    {
      order := [];
      ghost var all := already - hookFiles.Keys;
      var left := already - hookFiles.Keys;
      while left != {}
        invariant left <= all && Enumerates(order, all - left)
        invariant State() == RanUninstalls(old(State()), setup, order)
        decreases left
      {
        var webappClickHook :| webappClickHook in left;
        RanUninstallsMore(old(State()), setup, order, webappClickHook);
        EnumeratesMore(order, all, left, webappClickHook);
        UninstallHook(webappClickHook);
        left := left - {webappClickHook};
        order := order + [webappClickHook];
      }
    }

    /** The whole hook: the folder is made, both folders are listed, then the three phases follow. */
    method RunHook(stamps: map<string, int>) returns (ghost choice: Choice)
      modifies this
      ensures Possible(old(State()).folders, choice) && choice.stamps == stamps
      ensures State() == Ran(old(State()), setup, choice)
    {
      ready := true;
      var already := ListProcessed();
      var hookFiles := ListInstalled();
      ghost var installs := HandleInstalls(already, hookFiles, stamps);
      ghost var updates := HandleUpdates(already, hookFiles, stamps);
      ghost var removals := HandleUninstall(already, hookFiles);
      choice := Choice(installs, updates, removals, stamps);
    }
  }
}
