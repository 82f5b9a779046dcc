/** The click hook: file names, and what bringing the processed hooks in line with the installed ones means. */
module Hooks {
  import opened Collections

  // ---- Names ----

  /** The parts with a character before the first one. */
  function Grown(c: char, parts: seq<string>): (grown: seq<string>)
    requires parts != []
    ensures grown != [] && |grown| == |parts|
  {
    [[c] + parts[0]] + parts[1..]
  }

  /** QString::split('_'). */
  function Split(s: string): (parts: seq<string>)
    ensures parts != []
  {
    if s == "" then [""]
    else if s[0] == '_' then [""] + Split(s[1..])
    else Grown(s[0], Split(s[1..]))
  }

  /** QStringList::join('_'). */
  function Join(parts: seq<string>): string {
    if parts == [] then ""
    else if |parts| == 1 then parts[0]
    else parts[0] + "_" + Join(parts[1..])
  }

  lemma JoinGrown(c: char, parts: seq<string>)
    requires parts != []
    ensures Join(Grown(c, parts)) == [c] + Join(parts)
  {
    assert Grown(c, parts)[1..] == parts[1..];
  }

  lemma {:induction false} JoinSplit(s: string)
    ensures Join(Split(s)) == s
  {
    if s != "" {
      var rest := Split(s[1..]);
      JoinSplit(s[1..]);
      assert s == [s[0]] + s[1..];
      if s[0] == '_' {
        assert Split(s)[1..] == rest;
      } else {
        JoinGrown(s[0], rest);
      }
    }
  }

  ghost predicate NoUnderscores(parts: seq<string>) {
    forall i :: 0 <= i < |parts| ==> '_' !in parts[i]
  }

  lemma {:induction false} SplitPlain(s: string)
    requires '_' !in s
    ensures Split(s) == [s]
  {
    if s != "" {
      assert s == [s[0]] + s[1..];
      SplitPlain(s[1..]);
    }
  }

  lemma {:induction false} SplitAtFirst(a: string, b: string)
    requires '_' !in a
    ensures Split(a + "_" + b) == [a] + Split(b)
  {
    if a == "" {
      assert (a + "_" + b)[1..] == b;
    } else {
      assert a == [a[0]] + a[1..];
      assert (a + "_" + b)[1..] == a[1..] + "_" + b;
      SplitAtFirst(a[1..], b);
    }
  }

  lemma {:induction false} SplitJoin(parts: seq<string>)
    requires parts != [] && NoUnderscores(parts)
    ensures Split(Join(parts)) == parts
  {
    assert '_' !in parts[0];
    if |parts| == 1 {
      SplitPlain(parts[0]);
    } else {
      forall i | 0 <= i < |parts[1..]| ensures '_' !in parts[1..][i] {
        assert '_' !in parts[i + 1];
      }
      SplitJoin(parts[1..]);
      SplitAtFirst(parts[0], Join(parts[1..]));
    }
  }

  lemma {:induction false} PartsArePlain(s: string)
    ensures NoUnderscores(Split(s))
  {
    if s != "" {
      PartsArePlain(s[1..]);
      var rest := Split(s[1..]);
      assert '_' !in rest[0];
    }
  }

  /** An app id without its version: the first two of exactly three parts. */
  function RemoveVersion(appId: string): string {
    var components := Split(appId);
    if |components| != 3 then appId else Join(components[..2])
  }

  /** Removing the version changes package_app_version to package_app, and nothing when there is none. */
  lemma RemoveVersionOnce(appId: string)
    ensures RemoveVersion(RemoveVersion(appId)) == RemoveVersion(appId)
    ensures RemoveVersion(appId) != appId <==> |Split(appId)| == 3
    ensures |Split(appId)| == 3 ==> Split(RemoveVersion(appId)) == Split(appId)[..2]
  {
    PartsArePlain(appId);
    JoinSplit(appId);
    if |Split(appId)| == 3 {
      SplitJoin(Split(appId)[..2]);
    }
  }

  /** The last '.', or -1. */
  function LastDot(s: string): (at: int)
    ensures -1 <= at < |s|
    ensures at >= 0 ==> s[at] == '.'
    ensures forall i :: at < i < |s| ==> s[i] != '.'
  {
    if s == "" then -1
    else if s[|s| - 1] == '.' then |s| - 1
    else LastDot(s[..|s| - 1])
  }

  function Suffix(name: string): string {
    if LastDot(name) == -1 then "" else name[LastDot(name) + 1..]
  }

  function CompleteBaseName(name: string): string {
    if LastDot(name) == -1 then name else name[..LastDot(name)]
  }

  /** A name is what stands before its last dot, the dot, and a suffix without one; or it has neither. */
  lemma LastDotSplits(name: string)
    ensures '.' !in Suffix(name)
    ensures name == if '.' in name then CompleteBaseName(name) + "." + Suffix(name) else CompleteBaseName(name)
    ensures '.' !in name ==> Suffix(name) == ""
  {
    var at := LastDot(name);
    if at != -1 {
      assert name == name[..at] + [name[at]] + name[at + 1..];
    } else {
      assert '.' !in name;
    }
  }

  /** The name under which an installed hook is processed. */
  function IdOf(name: string): string {
    RemoveVersion(CompleteBaseName(name))
  }

  /** Names that a directory listing shows by default. */
  predicate Visible(name: string) {
    name != "" && name[0] != '.'
  }

  lemma IdIsVisible(name: string)
    requires Visible(name)
    ensures Visible(IdOf(name))
  {
    var base := CompleteBaseName(name);
    assert Visible(base);
    var parts := Split(base);
    if |parts| == 3 {
      JoinSplit(base);
      assert parts[..2][1..] == [parts[1]];
      assert Join(parts[..2]) == parts[0] + "_" + parts[1];
      assert base == parts[0] + "_" + Join(parts[1..]);
    }
  }

  /** The directory that a directive deletes, inside the cache or the data location. */
  function Target(fileName: string): string {
    var components := Split(fileName);
    Join(components[..|components| - 1])
  }

  lemma {:induction false} JoinLast(parts: seq<string>)
    requires |parts| >= 2
    ensures Join(parts) == Join(parts[..|parts| - 1]) + "_" + parts[|parts| - 1]
  {
    var front, last := parts[..|parts| - 1], parts[|parts| - 1];
    if |parts| == 2 {
      assert parts[1..] == [last] && front == [parts[0]];
    } else {
      JoinLast(parts[1..]);
      assert parts[1..][..|parts| - 2] == front[1..];
      assert parts[0] + "_" + (Join(front[1..]) + "_" + last) == parts[0] + "_" + Join(front[1..]) + "_" + last;
    }
  }

  /** The directory is what stands before the last underscore of the name, and empty without one. */
  lemma TargetBeforeUnderscore(name: string)
    ensures '_' !in name ==> Target(name) == ""
    ensures '_' in name ==>
      |Target(name)| < |name| && name[..|Target(name)|] == Target(name) && name[|Target(name)|] == '_' &&
      '_' !in name[|Target(name)| + 1..]
  {
    var parts := Split(name);
    JoinSplit(name);
    PartsArePlain(name);
    if '_' in name {
      assert |parts| >= 2;
      JoinLast(parts);
      assert name == Target(name) + "_" + parts[|parts| - 1];
    } else {
      SplitPlain(name);
      assert parts[..0] == [];
    }
  }

  /** The parts with something added to the last one. */
  function LastPlus(parts: seq<string>, t: string): seq<string>
    requires parts != []
  {
    parts[..|parts| - 1] + [parts[|parts| - 1] + t]
  }

  lemma LastPlusTail(first: string, rest: seq<string>, t: string)
    requires rest != []
    ensures LastPlus([first] + rest, t) == [first] + LastPlus(rest, t)
  {
    assert ([first] + rest)[..|rest|] == [first] + rest[..|rest| - 1];
  }

  lemma LastPlusGrown(c: char, parts: seq<string>, t: string)
    requires parts != []
    ensures LastPlus(Grown(c, parts), t) == Grown(c, LastPlus(parts, t))
  {
    if |parts| == 1 {
      assert [c] + (parts[0] + t) == ([c] + parts[0]) + t;
    } else {
      assert parts == [parts[0]] + parts[1..];
      LastPlusTail(parts[0], parts[1..], t);
      LastPlusTail([c] + parts[0], parts[1..], t);
    }
  }

  lemma {:induction false} SplitAppend(s: string, t: string)
    requires '_' !in t
    ensures Split(s + t) == LastPlus(Split(s), t)
  {
    if s == "" {
      assert s + t == t;
      SplitPlain(t);
    } else {
      var rest := Split(s[1..]);
      assert (s + t)[1..] == s[1..] + t;
      SplitAppend(s[1..], t);
      if s[0] == '_' {
        LastPlusTail("", rest, t);
      } else {
        LastPlusGrown(s[0], rest, t);
      }
    }
  }

  lemma WebappName(base: string)
    ensures CompleteBaseName(base + ".webapp") == base && Suffix(base + ".webapp") == "webapp"
  {
    var name := base + ".webapp";
    assert ".webapp" == ['.', 'w', 'e', 'b', 'a', 'p', 'p'];
    assert forall i :: |base| < i < |name| ==> name[i] == ".webapp"[i - |base|];
    assert name[|base|] == '.';
    assert name[|base| + 1..] == "webapp";
  }

  lemma TargetOfFile(base: string)
    ensures var parts := Split(base); Target(base + ".webapp") == Join(parts[..|parts| - 1])
  {
    var parts := Split(base);
    assert ".webapp" == ['.', 'w', 'e', 'b', 'a', 'p', 'p'];
    SplitAppend(base, ".webapp");
    assert LastPlus(parts, ".webapp")[..|parts| - 1] == parts[..|parts| - 1];
  }

  /** Installing and updating work on the file name, uninstalling on the processed name: both delete the same
      directory exactly when the file name carries no version. With a version, installing and updating delete the
      directory of package_app and uninstalling that of package. */
  lemma TargetsAgree(base: string)
    ensures Target(base + ".webapp") == Target(IdOf(base + ".webapp")) <==> |Split(base)| != 3
    ensures |Split(base)| == 3 ==>
      Target(base + ".webapp") == IdOf(base + ".webapp") && Target(IdOf(base + ".webapp")) == Split(base)[0]
  {
    var parts := Split(base);
    WebappName(base);
    TargetOfFile(base);
    RemoveVersionOnce(base);
    if |parts| == 3 {
      assert parts[..2][1..] == [parts[1]];
      assert parts[..2][..1] == [parts[0]];
      assert |Join(parts[..2])| > |parts[0]|;
    }
  }

  /** A name whose only underscore is at most its first character denotes the whole location. */
  lemma WholeLocation(name: string)
    ensures Target(name) == "" <==> name == "" || '_' !in name[1..]
  {
    var parts := Split(name);
    JoinSplit(name);
    PartsArePlain(name);
    if |parts| == 1 {
      assert '_' !in parts[0];
      assert name == parts[0];
    } else {
      assert name == parts[0] + "_" + Join(parts[1..]);
      if |parts| == 2 {
        assert parts[..1] == [parts[0]];
        assert '_' !in parts[0] && '_' !in parts[1];
        assert name == parts[0] + "_" + parts[1];
        if parts[0] == "" {
          assert name[1..] == parts[1];
        } else {
          assert name[1..][|parts[0]| - 1] == '_';
        }
      } else {
        assert Join(parts[1..]) == parts[1] + "_" + Join(parts[2..]) by {
          assert parts[1..][1..] == parts[2..];
        }
        assert name[|parts[0]| + 1 + |parts[1]|] == '_';
        assert name[1..][|parts[0]| + |parts[1]|] == '_';
        assert |Join(parts[..|parts| - 1])| > 0 by {
          assert parts[..|parts| - 1][0] == parts[0];
        }
      }
    }
  }

  // ---- Files ----

  datatype Phase = Install | Update | Uninstall

  datatype Data = Data(deleteCache: bool, deleteCookies: bool)

  /** What a hook file directs for each phase. */
  datatype Hook = Hook(install: Data, update: Data, uninstall: Data)

  datatype File = File(modified: int, hook: Hook)

  datatype Entry = Entry(name: string, file: File)

  /** Directives that were executed for a package: the phase, the directory, and what is deleted there. */
  datatype Run = Run(phase: Phase, id: string, target: string, data: Data)

  /** The listing of the installed folder, the files of the processed folder, and the directives executed. */
  datatype Folders = Folders(installed: seq<Entry>, processed: map<string, File>, log: seq<Run>)

  function DataFor(hook: Hook, phase: Phase): Data {
    match phase
    case Install => hook.install
    case Update => hook.update
    case Uninstall => hook.uninstall
  }

  function RunOf(phase: Phase, e: Entry): Run {
    Run(phase, IdOf(e.name), Target(e.name), DataFor(e.file.hook, phase))
  }

  function FarewellRun(id: string, file: File): Run {
    Run(Uninstall, id, Target(id), DataFor(file.hook, Uninstall))
  }

  /** The installed hooks by unversioned id; a later file of the listing replaces an earlier one. */
  function HookFiles(installed: seq<Entry>): map<string, Entry> {
    if installed == [] then map[]
    else
      var files, e := HookFiles(installed[..|installed| - 1]), installed[|installed| - 1];
      if Suffix(e.name) == "webapp" then files[IdOf(e.name) := e] else files
  }

  /** The processed hooks a listing shows. */
  function Listed(processed: map<string, File>): set<string> {
    set id | id in processed && Visible(id)
  }

  /** The time given to the copy made for an id. */
  function StampOf(stamps: map<string, int>, id: string): int {
    if id in stamps then stamps[id] else 0
  }

  function Copy(file: File, stamp: int): File {
    File(stamp, file.hook)
  }

  // ---- The three phases as they are meant, one package at a time: directives leave the folders alone ----

  /** Copying onto an existing file does nothing. */
  function InstalledOne(f: Folders, e: Entry, stamp: int): Folders {
    var id := IdOf(e.name);
    f.(processed := if id in f.processed then f.processed else f.processed[id := Copy(e.file, stamp)],
       log := f.log + [RunOf(Install, e)])
  }

  predicate UpToDate(processed: map<string, File>, e: Entry) {
    var id := IdOf(e.name);
    id in processed && processed[id].modified >= e.file.modified
  }

  function UpdatedOne(f: Folders, e: Entry, stamp: int): Folders {
    if UpToDate(f.processed, e) then f
    else f.(processed := f.processed[IdOf(e.name) := Copy(e.file, stamp)], log := f.log + [RunOf(Update, e)])
  }

  function UninstalledOne(f: Folders, id: string): Folders {
    if id !in f.processed then f
    else f.(processed := f.processed - {id}, log := f.log + [FarewellRun(id, f.processed[id])])
  }

  function InstalledAll(f: Folders, files: map<string, Entry>, order: seq<string>, stamps: map<string, int>): Folders
    requires forall id :: id in order ==> id in files
    decreases |order|
  {
    if order == [] then f
    else
      assert order[0] in order;
      InstalledAll(InstalledOne(f, files[order[0]], StampOf(stamps, order[0])), files, order[1..], stamps)
  }

  function UpdatedAll(f: Folders, files: map<string, Entry>, order: seq<string>, stamps: map<string, int>): Folders
    requires forall id :: id in order ==> id in files
    decreases |order|
  {
    if order == [] then f
    else
      assert order[0] in order;
      UpdatedAll(UpdatedOne(f, files[order[0]], StampOf(stamps, order[0])), files, order[1..], stamps)
  }

  function UninstalledAll(f: Folders, order: seq<string>): Folders
    decreases |order|
  {
    if order == [] then f else UninstalledAll(UninstalledOne(f, order[0]), order[1..])
  }

  /** What the file system and the hash tables decide: the orders in which the three sets of ids are visited, and
      the times of the copies. */
  datatype Choice = Choice(installs: seq<string>, updates: seq<string>, removals: seq<string>, stamps: map<string, int>)

  ghost predicate Possible(f: Folders, choice: Choice) {
    var files, already := HookFiles(f.installed).Keys, Listed(f.processed);
    && Enumerates(choice.installs, files - already)
    && Enumerates(choice.updates, files * already)
    && Enumerates(choice.removals, already - files)
  }

  /** One run as it is meant: both folders are listed once, then installs, updates and removals are handled. */
  function Synced(f: Folders, choice: Choice): Folders
    requires Possible(f, choice)
  {
    var files := HookFiles(f.installed);
    var installed := InstalledAll(f, files, choice.installs, choice.stamps);
    UninstalledAll(UpdatedAll(installed, files, choice.updates, choice.stamps), choice.removals)
  }

  // ---- What the listing of the installed hooks holds ----

  ghost predicate AllVisible(installed: seq<Entry>) {
    forall i :: 0 <= i < |installed| ==> Visible(installed[i].name)
  }

  predicate IsHook(e: Entry, id: string) {
    Suffix(e.name) == "webapp" && IdOf(e.name) == id
  }

  /** The ids are exactly those of the hook files, each with one of its files. */
  lemma {:induction false} HookFilesHold(installed: seq<Entry>)
    ensures
      var files := HookFiles(installed);
      && (forall id :: id in files ==> files[id] in installed && IsHook(files[id], id))
      && (forall e :: e in installed && Suffix(e.name) == "webapp" ==> IdOf(e.name) in files)
  {
    if installed != [] {
      var before, last := installed[..|installed| - 1], installed[|installed| - 1];
      assert installed == before + [last];
      HookFilesHold(before);
      var files := HookFiles(installed);
      forall id | id in files ensures files[id] in installed && IsHook(files[id], id) {
        if Suffix(last.name) != "webapp" || id != IdOf(last.name) {
          assert id in HookFiles(before) && files[id] == HookFiles(before)[id];
        }
      }
    }
  }

  /** When the unversioned names are distinct, the file of an id is the only one with it. */
  lemma OnlyFile(installed: seq<Entry>, e: Entry)
    requires forall a, b, id :: a in installed && b in installed && IsHook(a, id) && IsHook(b, id) ==> a == b
    requires e in installed && Suffix(e.name) == "webapp"
    ensures IdOf(e.name) in HookFiles(installed) && HookFiles(installed)[IdOf(e.name)] == e
  {
    HookFilesHold(installed);
    assert IsHook(e, IdOf(e.name));
  }

  ghost predicate ById(files: map<string, Entry>) {
    forall id :: id in files ==> IdOf(files[id].name) == id && Visible(id)
  }

  lemma HookFilesById(installed: seq<Entry>)
    requires AllVisible(installed)
    ensures ById(HookFiles(installed))
  {
    HookFilesHold(installed);
    var files := HookFiles(installed);
    forall id | id in files ensures Visible(id) {
      var i :| 0 <= i < |installed| && installed[i] == files[id];
      IdIsVisible(installed[i].name);
    }
  }

  // ---- The directives of one package ----

  function RunsFor(log: seq<Run>, id: string): seq<Run> {
    if log == [] then []
    else if log[0].id == id then [log[0]] + RunsFor(log[1..], id)
    else RunsFor(log[1..], id)
  }

  lemma {:induction false} RunsAppend(a: seq<Run>, b: seq<Run>, id: string)
    ensures RunsFor(a + b, id) == RunsFor(a, id) + RunsFor(b, id)
  {
    if a == [] {
      assert a + b == b;
    } else {
      assert (a + b)[1..] == a[1..] + b;
      RunsAppend(a[1..], b, id);
    }
  }

  lemma RunsAppendOne(log: seq<Run>, run: Run, id: string)
    ensures RunsFor(log + [run], id) == RunsFor(log, id) + if run.id == id then [run] else []
  {
    RunsAppend(log, [run], id);
    assert [run][1..] == [];
  }

  // ---- What each phase does to one package ----

  function FileAt(f: Folders, id: string): Option<File> {
    if id in f.processed then Some(f.processed[id]) else None
  }

  /** What happened to one package: the folder's listing stays, its processed file is now the given one, and the
      given directives were executed for it. */
  ghost predicate Became(f: Folders, f': Folders, id: string, file: Option<File>, runs: seq<Run>) {
    f'.installed == f.installed && FileAt(f', id) == file && RunsFor(f'.log, id) == RunsFor(f.log, id) + runs
  }

  lemma BecameThen(f: Folders, f1: Folders, f2: Folders, id: string, runs: seq<Run>, more: seq<Run>)
    requires Became(f, f1, id, FileAt(f1, id), runs) && Became(f1, f2, id, FileAt(f2, id), more)
    ensures Became(f, f2, id, FileAt(f2, id), runs + more)
  {
    assert (RunsFor(f.log, id) + runs) + more == RunsFor(f.log, id) + (runs + more);
  }

  lemma InstallOneEffect(f: Folders, e: Entry, stamp: int, id: string)
    requires IdOf(e.name) !in f.processed
    ensures
      var f' := InstalledOne(f, e, stamp);
      if IdOf(e.name) == id then Became(f, f', id, Some(Copy(e.file, stamp)), [RunOf(Install, e)])
      else Became(f, f', id, FileAt(f, id), [])
  {
    RunsAppendOne(f.log, RunOf(Install, e), id);
  }

  lemma {:induction false} InstallEffect(f: Folders, files: map<string, Entry>, order: seq<string>,
                                         stamps: map<string, int>, id: string)
    requires ById(files) && Distinct(order)
    requires forall k :: k in order ==> k in files && k !in f.processed
    ensures
      var f' := InstalledAll(f, files, order, stamps);
      if id in order then
        Became(f, f', id, Some(Copy(files[id].file, StampOf(stamps, id))), [RunOf(Install, files[id])])
      else Became(f, f', id, FileAt(f, id), [])
    decreases |order|
  {
    if order != [] {
      var first, rest := order[0], order[1..];
      DistinctTail(order);
      var next := InstalledOne(f, files[first], StampOf(stamps, first));
      assert IdOf(files[first].name) == first;
      forall k | k in rest ensures k in files && k !in next.processed {
        assert k in order;
      }
      InstallOneEffect(f, files[first], StampOf(stamps, first), id);
      InstallEffect(next, files, rest, stamps, id);
      var runs := if first == id then [RunOf(Install, files[id])] else [];
      var more := if id in rest then [RunOf(Install, files[id])] else [];
      BecameThen(f, next, InstalledAll(next, files, rest, stamps), id, runs, more);
      assert runs + more == if id in order then [RunOf(Install, files[id])] else [];
    }
  }

  lemma UpdateOneEffect(f: Folders, e: Entry, stamp: int, id: string)
    ensures
      var f' := UpdatedOne(f, e, stamp);
      if IdOf(e.name) == id && !UpToDate(f.processed, e) then
        Became(f, f', id, Some(Copy(e.file, stamp)), [RunOf(Update, e)])
      else Became(f, f', id, FileAt(f, id), [])
  {
    RunsAppendOne(f.log, RunOf(Update, e), id);
  }

  lemma {:induction false} UpdateEffect(f: Folders, files: map<string, Entry>, order: seq<string>,
                                        stamps: map<string, int>, id: string)
    requires ById(files) && Distinct(order) && forall k :: k in order ==> k in files
    ensures
      var f' := UpdatedAll(f, files, order, stamps);
      if id in order && !UpToDate(f.processed, files[id]) then
        Became(f, f', id, Some(Copy(files[id].file, StampOf(stamps, id))), [RunOf(Update, files[id])])
      else Became(f, f', id, FileAt(f, id), [])
    decreases |order|
  {
    if order != [] {
      var first, rest := order[0], order[1..];
      DistinctTail(order);
      var next := UpdatedOne(f, files[first], StampOf(stamps, first));
      UpdateOneEffect(f, files[first], StampOf(stamps, first), id);
      if id != first && id in files {
        SameFreshness(f, next, files[id]);
      }
      UpdateEffect(next, files, rest, stamps, id);
      var stale := id in files && !UpToDate(f.processed, files[id]);
      var runs := if first == id && stale then [RunOf(Update, files[id])] else [];
      var more := if id in rest && stale then [RunOf(Update, files[id])] else [];
      BecameThen(f, next, UpdatedAll(next, files, rest, stamps), id, runs, more);
      assert runs + more == if id in order && stale then [RunOf(Update, files[id])] else [];
    }
  }

  lemma {:induction false} UninstallEffect(f: Folders, order: seq<string>, id: string)
    requires Distinct(order)
    ensures
      var f' := UninstalledAll(f, order);
      if id in order && id in f.processed then Became(f, f', id, None, [FarewellRun(id, f.processed[id])])
      else Became(f, f', id, FileAt(f, id), [])
    decreases |order|
  {
    if order != [] {
      var first, rest := order[0], order[1..];
      DistinctTail(order);
      var next := UninstalledOne(f, first);
      if first in f.processed {
        RunsAppendOne(f.log, FarewellRun(first, f.processed[first]), id);
      }
      UninstallEffect(next, rest, id);
    }
  }

  // ---- One run ----

  predicate Stale(f: Folders, id: string) {
    id in HookFiles(f.installed) && !UpToDate(f.processed, HookFiles(f.installed)[id])
  }

  /** The directives that a run owes a package: those of a new one, of an outdated one, or of one that is gone. */
  function Due(f: Folders, id: string): seq<Run> {
    var files := HookFiles(f.installed);
    if id in files then
      if id !in f.processed then [RunOf(Install, files[id])]
      else if Stale(f, id) then [RunOf(Update, files[id])]
      else []
    else if id in f.processed && Visible(id) then [FarewellRun(id, f.processed[id])]
    else []
  }

  /** Which of the three sets a package is in. */
  lemma ChosenFor(f: Folders, choice: Choice, id: string)
    requires Possible(f, choice)
    ensures
      var files := HookFiles(f.installed);
      && (id in choice.installs <==> id in files && !(id in f.processed && Visible(id)))
      && (id in choice.updates <==> id in files && id in f.processed && Visible(id))
      && (id in choice.removals <==> id !in files && id in f.processed && Visible(id))
  {
    var files := HookFiles(f.installed);
    assert id in choice.installs <==> id in files.Keys - Listed(f.processed);
    assert id in choice.updates <==> id in files.Keys * Listed(f.processed);
    assert id in choice.removals <==> id in Listed(f.processed) - files.Keys;
  }

  lemma ChosenRuns(f: Folders, choice: Choice, id: string)
    requires AllVisible(f.installed) && Possible(f, choice)
    ensures
      var files := HookFiles(f.installed);
      InstallRuns(files, choice, id) + UpdateRuns(f, files, choice, id) + UninstallRuns(f, choice, id) == Due(f, id)
  {
    HookFilesById(f.installed);
    ChosenFor(f, choice, id);
    var r1 := InstallRuns(HookFiles(f.installed), choice, id);
    var r2 := UpdateRuns(f, HookFiles(f.installed), choice, id);
    var r3 := UninstallRuns(f, choice, id);
    if r3 != [] {
      assert r1 == [] && r2 == [];
    } else if r2 != [] {
      assert r1 == [];
    }
    assert r1 + r2 + r3 == if r1 != [] then r1 else if r2 != [] then r2 else r3;
  }

  /** The processed file of a package after a run. */
  function Expected(f: Folders, stamps: map<string, int>, id: string): Option<File> {
    if Stale(f, id) then Some(Copy(HookFiles(f.installed)[id].file, StampOf(stamps, id)))
    else if Visible(id) && id !in HookFiles(f.installed) then None
    else FileAt(f, id)
  }

  lemma ChosenFile(f: Folders, choice: Choice, id: string)
    requires AllVisible(f.installed) && Possible(f, choice)
    ensures FileAfter(f, HookFiles(f.installed), choice, id) == Expected(f, choice.stamps, id)
  {
    HookFilesById(f.installed);
    ChosenFor(f, choice, id);
  }

  /** For every name: after a run as it is meant the visible processed files are exactly the installed ids, each a
      fresh copy of its installed file if there was none or an older one and the old file otherwise; hidden files
      stay; and the directives executed for the package are exactly those due. */
  lemma SyncedEffect(f: Folders, choice: Choice, id: string)
    requires AllVisible(f.installed) && Possible(f, choice)
    ensures
      var f', files := Synced(f, choice), HookFiles(f.installed);
      && f'.installed == f.installed
      && FileAt(f', id) == Expected(f, choice.stamps, id)
      && (id in f'.processed <==> if Visible(id) then id in files else id in f.processed)
      && RunsFor(f'.log, id) == RunsFor(f.log, id) + Due(f, id)
  {
    var files := HookFiles(f.installed);
    HookFilesById(f.installed);
    forall k | k in choice.installs ensures k in files && k !in f.processed {
      ChosenFor(f, choice, k);
    }
    ChosenFor(f, choice, id);
    PhasesEffect(f, files, choice, id);
    ChosenRuns(f, choice, id);
    ChosenFile(f, choice, id);
    KeysExpected(f, choice.stamps, id);
    assert id in Synced(f, choice).processed <==> FileAt(Synced(f, choice), id).Some?;
  }

  lemma KeysExpected(f: Folders, stamps: map<string, int>, id: string)
    requires AllVisible(f.installed)
    ensures Expected(f, stamps, id).Some? <==> if Visible(id) then id in HookFiles(f.installed) else id in f.processed
  {
    HookFilesById(f.installed);
  }

  function InstallRuns(files: map<string, Entry>, choice: Choice, id: string): seq<Run> {
    if id in choice.installs && id in files then [RunOf(Install, files[id])] else []
  }

  function UpdateRuns(f: Folders, files: map<string, Entry>, choice: Choice, id: string): seq<Run> {
    if id in choice.updates && id in files && !UpToDate(f.processed, files[id]) then [RunOf(Update, files[id])] else []
  }

  function UninstallRuns(f: Folders, choice: Choice, id: string): seq<Run> {
    if id in choice.removals && id in f.processed then [FarewellRun(id, f.processed[id])] else []
  }

  function FileAfter(f: Folders, files: map<string, Entry>, choice: Choice, id: string): Option<File> {
    if UninstallRuns(f, choice, id) != [] then None
    else if InstallRuns(files, choice, id) + UpdateRuns(f, files, choice, id) != [] then
      Some(Copy(files[id].file, StampOf(choice.stamps, id)))
    else FileAt(f, id)
  }

  lemma PhasesEffect(f: Folders, files: map<string, Entry>, choice: Choice, id: string)
    requires ById(files) && Distinct(choice.installs) && Distinct(choice.updates) && Distinct(choice.removals)
    requires forall k :: k in choice.installs ==> k in files && k !in f.processed
    requires forall k :: k in choice.updates ==> k in files
    requires id in choice.updates ==> id in f.processed && id !in choice.installs
    requires id in choice.removals ==> id !in choice.installs && id !in choice.updates && id in f.processed
    ensures
      var f1 := InstalledAll(f, files, choice.installs, choice.stamps);
      var f' := UninstalledAll(UpdatedAll(f1, files, choice.updates, choice.stamps), choice.removals);
      Became(f, f', id, FileAfter(f, files, choice, id),
             InstallRuns(files, choice, id) + UpdateRuns(f, files, choice, id) + UninstallRuns(f, choice, id))
  {
    var f1 := InstalledAll(f, files, choice.installs, choice.stamps);
    var f2 := UpdatedAll(f1, files, choice.updates, choice.stamps);
    var f3 := UninstalledAll(f2, choice.removals);
    var r1, r2, r3 := InstallRuns(files, choice, id), UpdateRuns(f, files, choice, id), UninstallRuns(f, choice, id);
    assert Became(f, f1, id, if r1 != [] then Some(Copy(files[id].file, StampOf(choice.stamps, id))) else FileAt(f, id), r1) by {
      InstallEffect(f, files, choice.installs, choice.stamps, id);
    }
    assert Became(f1, f2, id, if r2 != [] then Some(Copy(files[id].file, StampOf(choice.stamps, id))) else FileAt(f1, id), r2) by {
      if id in choice.updates {
        SameFreshness(f, f1, files[id]);
      }
      UpdateEffect(f1, files, choice.updates, choice.stamps, id);
    }
    assert Became(f2, f3, id, if r3 != [] then None else FileAt(f2, id), r3) by {
      UninstallEffect(f2, choice.removals, id);
    }
    BecameThrice(f, f1, f2, f3, id, r1, r2, r3);
  }

  lemma BecameThrice(f: Folders, f1: Folders, f2: Folders, f3: Folders, id: string,
                     r1: seq<Run>, r2: seq<Run>, r3: seq<Run>)
    requires Became(f, f1, id, FileAt(f1, id), r1)
    requires Became(f1, f2, id, FileAt(f2, id), r2)
    requires Became(f2, f3, id, FileAt(f3, id), r3)
    ensures Became(f, f3, id, FileAt(f3, id), r1 + r2 + r3)
  {
    assert RunsFor(f.log, id) + r1 + r2 + r3 == RunsFor(f.log, id) + (r1 + r2 + r3);
  }

  lemma SameFreshness(f: Folders, f1: Folders, e: Entry)
    requires FileAt(f, IdOf(e.name)) == FileAt(f1, IdOf(e.name))
    ensures UpToDate(f.processed, e) <==> UpToDate(f1.processed, e)
  {
  }

  /** The copies made for new and outdated packages get a time no older than their source. */
  ghost predicate FreshCopies(f: Folders, stamps: map<string, int>) {
    forall id :: Stale(f, id) ==> StampOf(stamps, id) >= HookFiles(f.installed)[id].file.modified
  }

  lemma {:induction false} NoUpdates(f: Folders, files: map<string, Entry>, order: seq<string>, stamps: map<string, int>)
    requires forall k :: k in order ==> k in files && UpToDate(f.processed, files[k])
    ensures UpdatedAll(f, files, order, stamps) == f
    decreases |order|
  {
    if order != [] {
      assert order[0] in order;
      NoUpdates(f, files, order[1..], stamps);
    }
  }
}
