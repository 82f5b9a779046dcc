/** The two threads together: the UI thread edits and posts, the worker queues and flushes, in any interleaving. */
module HistoryProtocol {
  import opened Calendar
  import opened Collections
  import opened HistoryDb
  import opened HistoryUi

  // ---- The simple form: a store that executes every event the moment it is posted ----

  datatype Store = Store(current: Option<string>, disk: map<string, Db>)

  function Through(s: Store, event: WorkerEvent): Store {
    match event
    case ResetDatabase(name) => Store(Some(name), Opened(Closed(s.disk, s.current), name))
    case FetchEntries => s
    case Enqueue(op) =>
      if s.current.None? then s
      else s.(disk := s.disk[s.current.value := Apply(FileOf(s.disk, s.current.value), op)])
  }

  function After(s: Store, events: seq<WorkerEvent>): Store
    decreases |events|
  {
    if events == [] then s else After(Through(s, events[0]), events[1..])
  }

  function Signals(s: Store, event: WorkerEvent): seq<UiEvent> {
    if event.FetchEntries? then
      if s.current.None? then [Loaded] else FetchEvents(FileOf(s.disk, s.current.value))
    else []
  }

  function SignalsAfter(s: Store, events: seq<WorkerEvent>): seq<UiEvent>
    decreases |events|
  {
    if events == [] then [] else Signals(s, events[0]) + SignalsAfter(Through(s, events[0]), events[1..])
  }

  lemma {:induction false} AfterAppend(s: Store, a: seq<WorkerEvent>, b: seq<WorkerEvent>)
    ensures After(s, a + b) == After(After(s, a), b)
    ensures SignalsAfter(s, a + b) == SignalsAfter(s, a) + SignalsAfter(After(s, a), b)
    decreases |a|
  {
    if a == [] {
      assert a + b == b;
    } else {
      var next := Through(s, a[0]);
      assert (a + b)[1..] == a[1..] + b;
      AfterAppend(next, a[1..], b);
      SignalsJoin(Signals(s, a[0]), SignalsAfter(next, a[1..]), SignalsAfter(After(s, a), b));
    }
  }

  lemma SignalsJoin(a: seq<UiEvent>, b: seq<UiEvent>, c: seq<UiEvent>)
    ensures a + (b + c) == (a + b) + c
  {
  }

  ghost predicate OnlyOperations(events: seq<WorkerEvent>) {
    forall i :: 0 <= i < |events| ==> events[i].Enqueue?
  }

  function Operations(events: seq<WorkerEvent>): seq<Op>
    requires OnlyOperations(events)
  {
    seq(|events|, i requires 0 <= i < |events| => events[i].op)
  }

  lemma {:induction false} AfterOperations(s: Store, events: seq<WorkerEvent>)
    requires OnlyOperations(events)
    ensures SignalsAfter(s, events) == []
    ensures After(s, events).current == s.current
    ensures s.current.Some? ==>
      FileOf(After(s, events).disk, s.current.value)
        == ApplyAll(FileOf(s.disk, s.current.value), Operations(events))
    decreases |events|
  {
    if events != [] {
      AfterOperations(Through(s, events[0]), events[1..]);
      assert Operations(events)[1..] == Operations(events[1..]);
    }
  }

  // ---- The worker refines the store ----

  /** The store a worker stands for: its files with the queued operations already applied. */
  function Abstract(w: Worker): Store {
    Store(w.current, Flushed(w).disk)
  }

  lemma HandledRefines(w: Worker, event: WorkerEvent)
    requires WorkerValid(w)
    requires event.FetchEntries? ==> w.pending == []
    ensures WorkerValid(Handled(w, event))
    ensures Abstract(Handled(w, event)) == Through(Abstract(w), event)
    ensures Handled(w, event).posted == w.posted + Signals(Abstract(w), event)
  {
    if w.current.Some? {
      var db := w.disk[w.current.value];
      match event
      case Enqueue(op) =>
        ApplyAllAppend(db, w.pending, [op]);
        assert ApplyAll(ApplyAll(db, w.pending), [op]) == Apply(ApplyAll(db, w.pending), op);
      case ResetDatabase(name) =>
      case FetchEntries =>
        assert Flushed(w).disk == w.disk;
    }
  }

  /** When the timer fires is invisible: the store the worker stands for does not change. */
  lemma TimeoutRefines(w: Worker)
    requires WorkerValid(w)
    ensures WorkerValid(TimedOut(w))
    ensures Abstract(TimedOut(w)) == Abstract(w)
    ensures TimedOut(w).posted == w.posted
  {
  }

  /** No fetch can find operations still queued: one is handled right after a switch, which flushes. */
  predicate FetchesClean(events: seq<WorkerEvent>, clean: bool)
    decreases |events|
  {
    events == [] ||
    match events[0]
    case FetchEntries => clean && FetchesClean(events[1..], clean)
    case ResetDatabase(_) => FetchesClean(events[1..], true)
    case Enqueue(_) => FetchesClean(events[1..], false)
  }

  lemma {:induction false} FetchesCleanMonotone(events: seq<WorkerEvent>)
    requires FetchesClean(events, false)
    ensures FetchesClean(events, true)
  {
  }

  lemma {:induction false} FetchesCleanAppend(events: seq<WorkerEvent>, clean: bool, more: seq<WorkerEvent>)
    requires FetchesClean(events, clean) && FetchesClean(more, false)
    ensures FetchesClean(events + more, clean)
    decreases |events|
  {
    if events == [] {
      assert events + more == more;
      if clean {
        FetchesCleanMonotone(more);
      }
    } else {
      assert (events + more)[1..] == events[1..] + more;
      var clean' := match events[0] case FetchEntries => clean case ResetDatabase(_) => true case Enqueue(_) => false;
      FetchesCleanAppend(events[1..], clean', more);
    }
  }

  // ---- The world ----

  datatype Edit =
    | Visit(url: string, title: string, icon: string, domain: string, now: Millis)
    | Retitle(url: string, title: string, icon: string)
    | ForgetUrl(url: string)
    | ForgetDay(date: Date)
    | ForgetDomain(domain: string)
    | ForgetAll
    | Hide(url: string)
    | UnHide(url: string)
    | SwitchTo(path: string)

  function Edited(ui: Ui, edit: Edit): Ui {
    match edit
    case Visit(url, title, icon, domain, now) => Added(ui, url, title, icon, domain, now)
    case Retitle(url, title, icon) => Updated(ui, url, title, icon)
    case ForgetUrl(url) => RemovedByUrl(ui, url)
    case ForgetDay(date) => RemovedByDate(ui, date)
    case ForgetDomain(domain) => RemovedByDomain(ui, domain)
    case ForgetAll => ClearedAll(ui)
    case Hide(url) => Hidden(ui, url)
    case UnHide(url) => UnHidden(ui, url)
    case SwitchTo(path) => PathSet(ui, path)
  }

  /** The events an edit posts. */
  function PostedBy(ui: Ui, edit: Edit): seq<WorkerEvent> {
    Edited(ui.(posted := []), edit).posted
  }

  lemma EditPosts(ui: Ui, edit: Edit)
    ensures Edited(ui, edit).posted == ui.posted + PostedBy(ui, edit)
    ensures FetchesClean(PostedBy(ui, edit), false)
    ensures !edit.SwitchTo? ==> OnlyOperations(PostedBy(ui, edit))
    ensures edit.SwitchTo? && edit.path == ui.path ==> PostedBy(ui, edit) == []
    ensures edit.SwitchTo? && edit.path != ui.path ==>
      PostedBy(ui, edit) == [ResetDatabase(DatabaseName(edit.path)), FetchEntries]
  {
  }

  /** After quitting the worker runs its destructor at some time, whatever events are then still undelivered. */
  datatype Stage = Running | Quitting | Ended

  datatype World = World(ui: Ui, worker: Worker, stage: Stage)

  datatype Step =
    | Act(edit: Edit)
    | WorkerTakes
    | TimerFires
    | UiTakes(computedDomain: string)
    | Quit
    | WorkerEnds

  predicate Possible(w: World, step: Step) {
    match step
    case Act(_) => w.stage == Running
    case WorkerTakes => w.stage != Ended && w.ui.posted != []
    case TimerFires => w.stage != Ended && w.worker.timer
    case UiTakes(_) => w.stage == Running && w.worker.posted != []
    case Quit => w.stage == Running
    case WorkerEnds => w.stage == Quitting
  }

  function Next(w: World, step: Step): World
    requires Possible(w, step)
  {
    match step
    case Act(edit) => w.(ui := Edited(w.ui, edit))
    case WorkerTakes =>
      w.(worker := Handled(w.worker, w.ui.posted[0]), ui := w.ui.(posted := w.ui.posted[1..]))
    case TimerFires => w.(worker := TimedOut(w.worker))
    case UiTakes(computedDomain) =>
      w.(ui := Received(w.ui, w.worker.posted[0], computedDomain),
         worker := w.worker.(posted := w.worker.posted[1..]))
    case Quit => w.(stage := Quitting)
    case WorkerEnds => w.(worker := Destroyed(w.worker), stage := Ended)
  }

  function Start(utcOffset: int, disk: map<string, Db>): World {
    World(NewUi(utcOffset), Worker(None, disk, [], false, []), Running)
  }

  /** The store the whole world stands for: also the posted events count as executed. */
  function Settled(w: World): Store {
    After(Abstract(w.worker), w.ui.posted)
  }

  // ---- Every operation reaches the database that was current when it was issued ----

  ghost predicate Wired(w: World) {
    && WorkerValid(w.worker)
    && FetchesClean(w.ui.posted, w.worker.pending == [])
  }

  function PostedIn(w: World, step: Step): seq<WorkerEvent> {
    if step.Act? then PostedBy(w.ui, step.edit) else []
  }

  /** Whatever the threads do, a step changes the settled store only by the events that an edit posts. The end of
      the worker leaves the files of its own store and loses the events still posted. */
  lemma StepIsWriteThrough(w: World, step: Step)
    requires Wired(w) && Possible(w, step)
    ensures Wired(Next(w, step))
    ensures !step.WorkerEnds? ==> Settled(Next(w, step)) == After(Settled(w), PostedIn(w, step))
    ensures step.WorkerEnds? ==>
      Abstract(Next(w, step).worker) == Store(None, Closed(Abstract(w.worker).disk, w.worker.current))
  {
    match step
    case Act(edit) =>
      EditPosts(w.ui, edit);
      AfterAppend(Abstract(w.worker), w.ui.posted, PostedBy(w.ui, edit));
      FetchesCleanAppend(w.ui.posted, w.worker.pending == [], PostedBy(w.ui, edit));
    case WorkerTakes =>
      HandledRefines(w.worker, w.ui.posted[0]);
    case TimerFires =>
      TimeoutRefines(w.worker);
      if w.worker.pending != [] {
        FetchesCleanMonotone(w.ui.posted);
      }
    case UiTakes(_) =>
    case Quit =>
    case WorkerEnds =>
      if w.worker.pending != [] {
        FetchesCleanMonotone(w.ui.posted);
      }
  }

  ghost predicate IsRun(w: World, steps: seq<Step>)
    decreases |steps|
  {
    steps == [] ||
    (Possible(w, steps[0]) && IsRun(Next(w, steps[0]), steps[1..]))
  }

  ghost function End(w: World, steps: seq<Step>): World
    requires IsRun(w, steps)
    decreases |steps|
  {
    if steps == [] then w else End(Next(w, steps[0]), steps[1..])
  }

  /** Everything the UI thread posted during a run, in issue order. */
  ghost function Issued(w: World, steps: seq<Step>): seq<WorkerEvent>
    requires IsRun(w, steps)
    decreases |steps|
  {
    if steps == [] then [] else PostedIn(w, steps[0]) + Issued(Next(w, steps[0]), steps[1..])
  }

  /** The operations issued while the named database was the current one. */
  function IssuedUnder(current: Option<string>, events: seq<WorkerEvent>, name: string): seq<Op>
    decreases |events|
  {
    if events == [] then [] else
    match events[0]
    case ResetDatabase(other) => IssuedUnder(Some(other), events[1..], name)
    case FetchEntries => IssuedUnder(current, events[1..], name)
    case Enqueue(op) =>
      var rest := IssuedUnder(current, events[1..], name);
      if current == Some(name) then [op] + rest else rest
  }

  lemma {:induction false} StoreAppliesIssued(s: Store, events: seq<WorkerEvent>, name: string)
    requires name != MEMORY
    ensures FileOf(After(s, events).disk, name)
         == ApplyAll(FileOf(s.disk, name), IssuedUnder(s.current, events, name))
    decreases |events|
  {
    if events != [] {
      StoreAppliesIssued(Through(s, events[0]), events[1..], name);
      if events[0].Enqueue? && s.current == Some(name) {
        var rest := IssuedUnder(s.current, events[1..], name);
        assert ([events[0].op] + rest)[1..] == rest;
      }
    }
  }

  /** The events the worker takes during a run, in the order in which it takes them. */
  ghost function Taken(w: World, steps: seq<Step>): seq<WorkerEvent>
    requires IsRun(w, steps)
    decreases |steps|
  {
    if steps == [] then []
    else (if steps[0].WorkerTakes? then [w.ui.posted[0]] else []) + Taken(Next(w, steps[0]), steps[1..])
  }

  lemma PostedAfter(w: World, step: Step)
    requires Possible(w, step)
    ensures w.ui.posted + PostedIn(w, step)
         == (if step.WorkerTakes? then [w.ui.posted[0]] else []) + Next(w, step).ui.posted
  {
    if step.Act? {
      EditPosts(w.ui, step.edit);
    }
  }

  lemma EventsJoin(a: seq<WorkerEvent>, b: seq<WorkerEvent>, c: seq<WorkerEvent>)
    ensures (a + b) + c == a + (b + c)
  {
  }

  /** No event is made up, doubled, reordered or dropped while the worker runs. */
  lemma {:induction false} EventsConserved(w: World, steps: seq<Step>)
    requires IsRun(w, steps)
    ensures w.ui.posted + Issued(w, steps) == Taken(w, steps) + End(w, steps).ui.posted
    decreases |steps|
  {
    if steps == [] {
    } else {
      var w' := Next(w, steps[0]);
      var taken := if steps[0].WorkerTakes? then [w.ui.posted[0]] else [];
      PostedAfter(w, steps[0]);
      EventsConserved(w', steps[1..]);
      EventsJoin(w.ui.posted, PostedIn(w, steps[0]), Issued(w', steps[1..]));
      EventsJoin(taken, w'.ui.posted, Issued(w', steps[1..]));
      EventsJoin(taken, Taken(w', steps[1..]), End(w, steps).ui.posted);
    }
  }

  /** The store the worker stands for after a step other than its end. */
  lemma StepStore(w: World, step: Step)
    requires Wired(w) && Possible(w, step) && !step.WorkerEnds?
    ensures Abstract(Next(w, step).worker)
         == if step.WorkerTakes? then Through(Abstract(w.worker), w.ui.posted[0]) else Abstract(w.worker)
  {
    if step.WorkerTakes? {
      HandledRefines(w.worker, w.ui.posted[0]);
    } else if step.TimerFires? {
      TimeoutRefines(w.worker);
    }
  }

  /** The worker stands for a store that has executed the events taken. */
  lemma {:induction false} TakenAreExecuted(w: World, steps: seq<Step>, name: string)
    requires Wired(w) && IsRun(w, steps) && name != MEMORY
    ensures FileOf(Abstract(End(w, steps).worker).disk, name)
         == FileOf(After(Abstract(w.worker), Taken(w, steps)).disk, name)
    decreases |steps|
  {
    if steps != [] {
      var w' := Next(w, steps[0]);
      StepIsWriteThrough(w, steps[0]);
      TakenAreExecuted(w', steps[1..], name);
      if steps[0].WorkerEnds? {
        assert steps[1..] == [];
      } else {
        StepStore(w, steps[0]);
        FirstTaken(w, steps);
      }
    }
  }

  lemma FirstTaken(w: World, steps: seq<Step>)
    requires IsRun(w, steps) && steps != []
    ensures
      var rest, s := Taken(Next(w, steps[0]), steps[1..]), Abstract(w.worker);
      After(s, Taken(w, steps))
        == After(if steps[0].WorkerTakes? then Through(s, w.ui.posted[0]) else s, rest)
  {
    var rest := Taken(Next(w, steps[0]), steps[1..]);
    if steps[0].WorkerTakes? {
      assert ([w.ui.posted[0]] + rest)[1..] == rest;
    } else {
      assert [] + rest == rest;
    }
  }

  /** For every run, however the timer, the switches and the deliveries fall: once the worker has ended, the events
      issued are those it took followed by those still posted, which are lost; and each database file is the file of
      the start with exactly those of the operations taken applied, in issue order, that were issued while it was
      the current one. */
  lemma OperationsReachTheirDatabase(utcOffset: int, disk: map<string, Db>, steps: seq<Step>, name: string)
    requires name != MEMORY
    requires IsRun(Start(utcOffset, disk), steps) && End(Start(utcOffset, disk), steps).stage == Ended
    ensures
      var w := Start(utcOffset, disk);
      && Issued(w, steps) == Taken(w, steps) + End(w, steps).ui.posted
      && FileOf(End(w, steps).worker.disk, name) == ApplyAll(FileOf(disk, name), IssuedUnder(None, Taken(w, steps), name))
  {
    var w := Start(utcOffset, disk);
    EventsConserved(w, steps);
    assert w.ui.posted + Issued(w, steps) == Issued(w, steps);
    TakenAreExecuted(w, steps, name);
    StoreAppliesIssued(Abstract(w.worker), Taken(w, steps), name);
    EndedIsFlushed(w, steps);
  }

  predicate AtRest(w: World) {
    w.stage == Ended ==> w.worker.pending == [] && w.worker.current == None
  }

  lemma {:induction false} EndedIsFlushed(w: World, steps: seq<Step>)
    requires IsRun(w, steps)
    requires AtRest(w)
    ensures AtRest(End(w, steps))
    ensures End(w, steps).stage == Ended ==> Abstract(End(w, steps).worker).disk == End(w, steps).worker.disk
    decreases |steps|
  {
    if steps != [] {
      EndedIsFlushed(Next(w, steps[0]), steps[1..]);
    }
  }

  // ---- Quitting too early ----

  lemma RunStep(w: World, step: Step, rest: seq<Step>)
    requires Possible(w, step)
    ensures IsRun(w, [step] + rest) <==> IsRun(Next(w, step), rest)
    ensures IsRun(Next(w, step), rest) ==> End(w, [step] + rest) == End(Next(w, step), rest)
  {
    assert ([step] + rest)[1..] == rest;
  }

  /** The world after three steps. */
  function Next3(w: World, a: Step, b: Step, c: Step): World
    requires Possible(w, a) && Possible(Next(w, a), b) && Possible(Next(Next(w, a), b), c)
  {
    Next(Next(Next(w, a), b), c)
  }

  lemma RunSteps(w: World, a: Step, b: Step, c: Step, rest: seq<Step>)
    requires Possible(w, a) && Possible(Next(w, a), b) && Possible(Next(Next(w, a), b), c)
    requires IsRun(Next3(w, a, b, c), rest)
    ensures IsRun(w, [a, b, c] + rest) && End(w, [a, b, c] + rest) == End(Next3(w, a, b, c), rest)
  {
    RunStep(Next(Next(w, a), b), c, rest);
    RunStep(Next(w, a), b, [c] + rest);
    RunStep(w, a, [b] + ([c] + rest));
    assert [a, b, c] + rest == [a] + ([b] + ([c] + rest));
  }

  /** A world in which a visit was made after the file "file" was opened and fetched. */
  function JustVisited(worker: Worker): World {
    World(Added(PathSet(NewUi(0), "file").(posted := []), "u", "t", "i", "d", 0), worker, Running)
  }

  /** Quitting at once: the worker can end without the visit. */
  lemma QuitLosesAVisit(worker: Worker)
    requires worker == Worker(Some("file"), map["file" := EMPTY_DB], [], false, [Loaded])
    ensures
      var w, steps := JustVisited(worker), [Quit, WorkerEnds];
      && IsRun(w, steps) && End(w, steps).stage == Ended
      && |End(w, steps).ui.posted| == 1 && FileOf(End(w, steps).worker.disk, "file") == EMPTY_DB
  {
    var w := JustVisited(worker);
    var w1 := Next(w, Quit);
    var w2 := Next(w1, WorkerEnds);
    RunStep(w1, WorkerEnds, []);
    RunStep(w, Quit, [WorkerEnds]);
    assert [Quit] + [WorkerEnds] == [Quit, WorkerEnds] && [WorkerEnds] + [] == [WorkerEnds];
    assert IsRun(w2, []) && End(w2, []) == w2;
  }

  /** A concrete run: a file is opened and fetched, a visit is made, and the worker ends without it. */
  lemma QuitLosesAnOperation()
    ensures
      var opening := [Act(SwitchTo("file")), WorkerTakes, WorkerTakes, Act(Visit("u", "t", "i", "d", 0))];
      var w, steps := Start(0, map[]), opening + [Quit, WorkerEnds];
      && IsRun(w, steps) && End(w, steps).stage == Ended
      && |End(w, steps).ui.posted| == 1 && FileOf(End(w, steps).worker.disk, "file") == EMPTY_DB
  {
    var worker := Worker(Some("file"), map["file" := EMPTY_DB], [], false, [Loaded]);
    var visit, quit := Act(Visit("u", "t", "i", "d", 0)), [Quit, WorkerEnds];
    var w0 := Start(0, map[]);
    var w1 := Next(w0, Act(SwitchTo("file")));
    var w2 := Next(w1, WorkerTakes);
    var w3 := Next(w2, WorkerTakes);
    var w4 := Next(w3, visit);
    EmptyFileOpened(w1);
    assert w4 == JustVisited(worker);
    QuitLosesAVisit(worker);
    RunStep(w3, visit, quit);
    RunStep(w2, WorkerTakes, [visit] + quit);
    RunStep(w1, WorkerTakes, [WorkerTakes] + ([visit] + quit));
    RunStep(w0, Act(SwitchTo("file")), [WorkerTakes] + ([WorkerTakes] + ([visit] + quit)));
    assert [Act(SwitchTo("file")), WorkerTakes, WorkerTakes, visit] + quit
        == [Act(SwitchTo("file"))] + ([WorkerTakes] + ([WorkerTakes] + ([visit] + quit)));
  }

  lemma EmptyFileOpened(w: World)
    requires w == World(PathSet(NewUi(0), "file"), Worker(None, map[], [], false, []), Running)
    ensures
      var w' := Next(Next(w, WorkerTakes), WorkerTakes);
      && w'.ui == PathSet(NewUi(0), "file").(posted := [])
      && w'.worker == Worker(Some("file"), map["file" := EMPTY_DB], [], false, [Loaded])
  {
    var w1 := Next(w, WorkerTakes);
    assert w.ui.posted[1..] == [FetchEntries];
    assert w1.worker.disk == map["file" := EMPTY_DB];
    assert FetchEvents(EMPTY_DB) == [Loaded];
  }
}
