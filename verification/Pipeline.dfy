/** The whole way of a transcript: file, tailer, parser, agent table, emitted signals, frontend. */
module Pipeline {
  import opened Basics
  import opened JsonValues
  import opened TranscriptParser
  import opened AgentMachine
  import opened Tailer
  import opened Tracking
  import opened Simulation
  import opened Watcher
  import Frontend

  type Decoder = string -> Option<Json>

  /** What happens to a watcher once its initial scan is under way: a file is read, or timers tick. */
  datatype Access = Read(path: Path, content: Option<string>, clock: nat -> nat) | Tick(now: nat)

  /** Read positions and the two parts of the history. */
  datatype Pipe = Pipe(files: map<Path, FileReadState>, scanned: seq<Event>, history: seq<Event>)

  function Batched(decode: Decoder, p: Pipe, a: Access): Event
    requires a.Read?
  {
    Data(a.path.stem, DigestAll(ReadStep(Position(p.files, a.path), a.content).0, decode, a.clock))
  }

  function ReadFile(p: Pipe, a: Access): map<Path, FileReadState>
    requires a.Read?
  {
    p.files[a.path := ReadStep(Position(p.files, a.path), a.content).1]
  }

  /** One read of the initial scan; timers do not tick yet. */
  function ScanOne(decode: Decoder, p: Pipe, a: Access): Pipe {
    if a.Tick? || a.path.ext != "jsonl" then p
    else Pipe(ReadFile(p, a), p.scanned + [Batched(decode, p, a)], p.history)
  }

  function LiveOne(decode: Decoder, p: Pipe, a: Access): Pipe {
    match a
    case Tick(now) => p.(history := p.history + [Ticked(now)])
    case Read(path, _, _) =>
      if path.ext != "jsonl" then p
      else Pipe(ReadFile(p, a), p.scanned, p.history + [Batched(decode, p, a)])
  }

  function Scanned(decode: Decoder, scan: seq<Access>): Pipe {
    if scan == [] then Pipe(map[], [], []) else ScanOne(decode, Scanned(decode, scan[..|scan| - 1]), scan[|scan| - 1])
  }

  function Lived(decode: Decoder, scan: seq<Access>, live: seq<Access>): Pipe {
    if live == [] then Scanned(decode, scan)
    else LiveOne(decode, Lived(decode, scan, live[..|live| - 1]), live[|live| - 1])
  }

  // ----- events of a text -----

  /** What each line stands for, in order. */
  function FlatMap<T>(f: string -> seq<T>, lines: seq<string>): seq<T> {
    if lines == [] then [] else FlatMap(f, lines[..|lines| - 1]) + f(lines[|lines| - 1])
  }

  lemma {:induction false} FlatMapAppend<T>(f: string -> seq<T>, a: seq<string>, b: seq<string>)
    ensures FlatMap(f, a + b) == FlatMap(f, a) + FlatMap(f, b)
  {
    if b == [] {
      assert a + b == a;
    } else {
      FlatMapAppend(f, a, b[..|b| - 1]);
      assert (a + b)[..|a + b| - 1] == a + b[..|b| - 1];
    }
  }

  /** The events of decoded lines, idle hints left out. */
  function TextEvents(decode: Decoder, lines: seq<string>): seq<AgentEvent> {
    FlatMap((line: string) => EventsOf(decode(line), true), lines)
  }

  lemma TextEventsAppend(decode: Decoder, a: seq<string>, b: seq<string>)
    ensures TextEvents(decode, a + b) == TextEvents(decode, a) + TextEvents(decode, b)
  {
    FlatMapAppend((line: string) => EventsOf(decode(line), true), a, b);
  }

  lemma {:induction false} DigestedEvents(decode: Decoder, lines: seq<string>, clock: nat -> nat)
    ensures EventList(DigestAll(lines, decode, clock)) == TextEvents(decode, lines)
  {
    if lines != [] {
      var n := |lines| - 1;
      DigestedEvents(decode, lines[..n], clock);
      assert DigestAll(lines, decode, clock)[..n] == DigestAll(lines[..n], decode, clock);
      DigestFaithful(decode(lines[n]), clock(n), true);
    }
  }

  lemma {:induction false} TextEventsScoped(decode: Decoder, lines: seq<string>)
    ensures forall e | e in TextEvents(decode, lines) :: WellScoped(e)
  {
    if lines != [] {
      TextEventsScoped(decode, lines[..|lines| - 1]);
      EventsScoped(decode(lines[|lines| - 1]), true);
    }
  }

  // ----- events delivered to one agent -----

  function EventsFor(p: Pipe, id: string): seq<AgentEvent> {
    SessionEvents(BatchesOf(p.scanned, id), StepsOf(p.history, id))
  }

  /** The new events of agent `id` when `e` is appended to the history. */
  function EventsIn(e: Event, id: string): seq<AgentEvent> {
    if e.Data? && e.id == id then EventList(e.lines) else []
  }

  lemma HistoryGrows(p: Pipe, e: Event, id: string)
    ensures EventsFor(p.(history := p.history + [e]), id) == EventsFor(p, id) + EventsIn(e, id)
  {
    var scan, steps := BatchesOf(p.scanned, id), StepsOf(p.history, id);
    StepsSnoc(p.history, e, id);
    if e.Data? && e.id != id {
      assert steps + [] == steps;
      assert EventsFor(p, id) + [] == EventsFor(p, id);
    } else {
      var step := if e.Data? then Batch(e.lines) else TimerTick(e.now);
      assert (steps + [step])[..|steps|] == steps;
      SessionEventsSnoc(scan, steps + [step]);
    }
  }

  lemma ScanGrows(p: Pipe, e: Event, id: string)
    requires p.history == [] && e.Data?
    ensures EventsFor(p.(scanned := p.scanned + [e]), id) == EventsFor(p, id) + EventsIn(e, id)
  {
    var batches := BatchesOf(p.scanned, id);
    StepsSnoc(p.scanned, e, id);
    assert EventList(Concat(batches)) + [] == EventList(Concat(batches));
    if e.id == id {
      assert (batches + [e.lines])[..|batches|] == batches;
      EventListAppend(Concat(batches), e.lines);
    } else {
      assert batches + [] == batches;
    }
  }

  // ----- one file per agent -----

  /** `path` is the only transcript whose name gives this agent, and what is read from it is a part of `file`. */
  predicate Owns(path: Path, file: string, a: Access) {
    a.Read? && a.path.ext == "jsonl" && a.path.stem == path.stem ==>
      a.path == path && (a.content.Some? ==> a.content.value <= file)
  }

  predicate OwnsAll(path: Path, file: string, accesses: seq<Access>) {
    forall i | 0 <= i < |accesses| :: Owns(path, file, accesses[i])
  }

  /** The agent has received exactly the events of the complete lines read so far. */
  ghost predicate UpToDate(decode: Decoder, p: Pipe, path: Path, file: string) {
    var st := Position(p.files, path);
    && st.offset <= |file| && st.lineBuffer == Rest(file[..st.offset])
    && EventsFor(p, path.stem) == TextEvents(decode, Lines(file[..st.offset]))
  }

  /** One read delivers the lines completed since the last one. */
  lemma ReadDelivers(decode: Decoder, st: FileReadState, content: Option<string>, file: string)
    requires st.offset <= |file| && st.lineBuffer == Rest(file[..st.offset])
    requires content.Some? ==> content.value <= file
    ensures var (lines, st') := ReadStep(st, content);
            && st'.offset <= |file| && st'.lineBuffer == Rest(file[..st'.offset])
            && TextEvents(decode, Lines(file[..st'.offset])) ==
               TextEvents(decode, Lines(file[..st.offset])) + TextEvents(decode, lines)
  {
    var old' := Lines(file[..st.offset]);
    if content.Some? && |content.value| > st.offset {
      var chunk := content.value[st.offset..];
      assert file[..|content.value|] == content.value;
      assert file[..|content.value|] == file[..st.offset] + chunk;
      LinesAppend(file[..st.offset], chunk);
      TextEventsAppend(decode, old', Lines(st.lineBuffer + chunk));
    } else {
      assert TextEvents(decode, old') + [] == TextEvents(decode, old');
    }
  }

  lemma BatchedEvents(decode: Decoder, p: Pipe, a: Access, path: Path, file: string)
    requires a.Read? && a.path.ext == "jsonl" && Owns(path, file, a) && UpToDate(decode, p, path, file)
    ensures var st := Position(ReadFile(p, a), path);
            && st.offset <= |file| && st.lineBuffer == Rest(file[..st.offset])
            && TextEvents(decode, Lines(file[..st.offset])) ==
               EventsFor(p, path.stem) + EventsIn(Batched(decode, p, a), path.stem)
  {
    if a.path.stem == path.stem {
      var st := Position(p.files, path);
      ReadDelivers(decode, st, a.content, file);
      DigestedEvents(decode, ReadStep(st, a.content).0, a.clock);
    } else {
      assert Position(ReadFile(p, a), path) == Position(p.files, path);
      assert EventsFor(p, path.stem) + [] == EventsFor(p, path.stem);
    }
  }

  lemma {:induction false} ScanUpToDate(decode: Decoder, scan: seq<Access>, path: Path, file: string)
    requires OwnsAll(path, file, scan)
    ensures UpToDate(decode, Scanned(decode, scan), path, file) && Scanned(decode, scan).history == []
  {
    if scan == [] {
      assert file[..0] == "" && Rest("") == "" && Lines("") == [];
    } else {
      var front, a := scan[..|scan| - 1], scan[|scan| - 1];
      ScanUpToDate(decode, front, path, file);
      assert Owns(path, file, a);
      if a.Read? && a.path.ext == "jsonl" {
        var p := Scanned(decode, front);
        BatchedEvents(decode, p, a, path, file);
        ScanGrows(p, Batched(decode, p, a), path.stem);
      }
    }
  }

  /** After every run, an agent with one file has received exactly the events of the complete lines consumed so far,
      however reads were scheduled, batched and mixed with those of other files and with timer ticks. */
  lemma {:induction false} EventsOfFile(decode: Decoder, scan: seq<Access>, live: seq<Access>, path: Path, file: string)
    requires OwnsAll(path, file, scan) && OwnsAll(path, file, live)
    ensures UpToDate(decode, Lived(decode, scan, live), path, file)
  {
    if live == [] {
      ScanUpToDate(decode, scan, path, file);
    } else {
      var front, a := live[..|live| - 1], live[|live| - 1];
      EventsOfFile(decode, scan, front, path, file);
      var p := Lived(decode, scan, front);
      assert Owns(path, file, a);
      if a.Tick? {
        HistoryGrows(p, Ticked(a.now), path.stem);
      } else if a.path.ext == "jsonl" {
        BatchedEvents(decode, p, a, path, file);
        HistoryGrows(p, Batched(decode, p, a), path.stem);
      }
    }
  }

  lemma {:induction false} ScanPartKept(decode: Decoder, scan: seq<Access>, live: seq<Access>)
    ensures Lived(decode, scan, live).scanned == Scanned(decode, scan).scanned
  {
    if live != [] {
      ScanPartKept(decode, scan, live[..|live| - 1]);
    }
  }

  // ----- tracking and frontend -----

  /** What the machine of agent `id` has come to. */
  function ViewAfter(p: Pipe, id: string): View {
    Expected(p.scanned, p.history, false, id)
  }

  /** The events of the lines consumed by the initial scan, and of all lines consumed so far. */
  function ScanEvents(decode: Decoder, scan: seq<Access>, path: Path, file: string): seq<AgentEvent>
    requires Position(Scanned(decode, scan).files, path).offset <= |file|
  {
    TextEvents(decode, Lines(file[..Position(Scanned(decode, scan).files, path).offset]))
  }

  function AllEvents(decode: Decoder, p: Pipe, path: Path, file: string): seq<AgentEvent>
    requires Position(p.files, path).offset <= |file|
  {
    TextEvents(decode, Lines(file[..Position(p.files, path).offset]))
  }

  /** The tracked tools of an agent are a fold over the text of its file. */
  lemma TrackingOfFile(decode: Decoder, scan: seq<Access>, live: seq<Access>, path: Path, file: string)
    requires OwnsAll(path, file, scan) && OwnsAll(path, file, live)
    ensures var p := Lived(decode, scan, live);
            && Position(p.files, path).offset <= |file|
            && Follows(ViewAfter(p, path.stem), AllEvents(decode, p, path, file))
  {
    var p := Lived(decode, scan, live);
    EventsOfFile(decode, scan, live, path, file);
    TrackingIsTranscriptFold(BatchesOf(p.scanned, path.stem), StepsOf(p.history, path.stem));
  }

  /** The shown tools are exactly the tracked ones started after the first `n` events, and the orphans of finished
      Tasks among them. */
  ghost predicate Related(es: seq<AgentEvent>, n: nat, a: Agent, front: set<string>) {
    forall id :: id in front <==> StartedAfter(es, n, id) && (Tracked(a, id) || Orphaned(es, id))
  }

  lemma SessionRelated(scan: seq<seq<Line>>, steps: seq<Step>)
    requires Session(scan, steps).agent.Some? && Tidy(SessionEvents(scan, steps))
    requires forall e | e in SessionEvents(scan, steps) :: WellScoped(e)
    ensures Related(SessionEvents(scan, steps), |EventList(Concat(scan))|, Session(scan, steps).agent.value,
                    Shown(Session(scan, steps).emitted))
  {
    var es, n := SessionEvents(scan, steps), |EventList(Concat(scan))|;
    forall id
      ensures id in Shown(Session(scan, steps).emitted) <==>
              StartedAfter(es, n, id) && (Tracked(Session(scan, steps).agent.value, id) || Orphaned(es, id))
    {
      FrontendSimulatesBackend(scan, steps, id);
    }
  }

  lemma ScanEventCount(decode: Decoder, scan: seq<Access>, live: seq<Access>, path: Path, file: string)
    requires OwnsAll(path, file, scan)
    ensures Position(Scanned(decode, scan).files, path).offset <= |file|
    ensures EventList(Concat(BatchesOf(Lived(decode, scan, live).scanned, path.stem))) ==
            ScanEvents(decode, scan, path, file)
  {
    ScanUpToDate(decode, scan, path, file);
    ScanPartKept(decode, scan, live);
    var batches := BatchesOf(Scanned(decode, scan).scanned, path.stem);
    assert EventList(Concat(batches)) + [] == EventList(Concat(batches));
  }

  /** From file to screen: if the text of an agent's file uses each tool id once and finishes it where it started, then
      after every run the frontend shows exactly the tools that started after the initial scan and that the text leaves
      open, or that are sub-agent tools whose Task finished first. */
  lemma FileToScreen(decode: Decoder, scan: seq<Access>, live: seq<Access>, path: Path, file: string)
    requires OwnsAll(path, file, scan) && OwnsAll(path, file, live)
    requires ViewAfter(Lived(decode, scan, live), path.stem).agent.Some?
    ensures var p := Lived(decode, scan, live);
            && Position(Scanned(decode, scan).files, path).offset <= |file|
            && Position(p.files, path).offset <= |file|
            && (Tidy(AllEvents(decode, p, path, file)) ==>
                  Related(AllEvents(decode, p, path, file), |ScanEvents(decode, scan, path, file)|,
                          ViewAfter(p, path.stem).agent.value, Shown(ViewAfter(p, path.stem).emitted)))
  {
    var p := Lived(decode, scan, live);
    EventsOfFile(decode, scan, live, path, file);
    ScanEventCount(decode, scan, live, path, file);
    TextEventsScoped(decode, Lines(file[..Position(p.files, path).offset]));
    if Tidy(AllEvents(decode, p, path, file)) {
      SessionRelated(BatchesOf(p.scanned, path.stem), StepsOf(p.history, path.stem));
    }
  }

  // ----- the objects -----

  /** Where a watcher stands. */
  ghost function PipeOf(watcher: WatcherState): Pipe
    reads watcher
  {
    Pipe(watcher.files, watcher.scanned, watcher.history)
  }

  method TakeScan(watcher: WatcherState, decode: Decoder, a: Access)
    requires watcher.Valid() && watcher.scanning && watcher.history == []
    modifies watcher, watcher.manager
    ensures watcher.Valid() && watcher.scanning && watcher.history == []
    ensures PipeOf(watcher) == ScanOne(decode, old(PipeOf(watcher)), a)
  {
    if a.Read? {
      watcher.ProcessFile(a.path, a.content, decode, a.clock);
    }
  }

  method TakeLive(watcher: WatcherState, decode: Decoder, a: Access)
    requires watcher.Valid() && !watcher.scanning
    modifies watcher, watcher.manager
    ensures watcher.Valid() && !watcher.scanning
    ensures PipeOf(watcher) == LiveOne(decode, old(PipeOf(watcher)), a)
  {
    match a
    case Tick(now) => watcher.Tick(now);
    case Read(path, content, clock) => watcher.ProcessFile(path, content, decode, clock);
  }

  lemma ScanSnoc(decode: Decoder, scan: seq<Access>, i: nat)
    requires i < |scan|
    ensures Scanned(decode, scan[..i + 1]) == ScanOne(decode, Scanned(decode, scan[..i]), scan[i])
  {
    assert scan[..i + 1][..i] == scan[..i];
  }

  lemma LiveSnoc(decode: Decoder, scan: seq<Access>, live: seq<Access>, i: nat)
    requires i < |live|
    ensures Lived(decode, scan, live[..i + 1]) == LiveOne(decode, Lived(decode, scan, live[..i]), live[i])
  {
    assert live[..i + 1][..i] == live[..i];
  }

  method RunScan(decode: Decoder, scan: seq<Access>) returns (watcher: WatcherState)
    ensures fresh(watcher) && fresh(watcher.manager)
    ensures watcher.Valid() && watcher.scanning && watcher.history == [] && PipeOf(watcher) == Scanned(decode, scan)
  {
    watcher := new WatcherState();
    for i := 0 to |scan|
      invariant watcher.Valid() && watcher.scanning && watcher.history == []
      invariant fresh(watcher) && fresh(watcher.manager)
      invariant PipeOf(watcher) == Scanned(decode, scan[..i])
    {
      ScanSnoc(decode, scan, i);
      TakeScan(watcher, decode, scan[i]);
    }
    assert scan[..|scan|] == scan;
  }

  method RunLive(watcher: WatcherState, decode: Decoder, ghost scan: seq<Access>, live: seq<Access>)
    requires watcher.Valid() && !watcher.scanning && PipeOf(watcher) == Scanned(decode, scan)
    modifies watcher, watcher.manager
    ensures watcher.Valid() && !watcher.scanning && PipeOf(watcher) == Lived(decode, scan, live)
  {
    for i := 0 to |live|
      invariant watcher.Valid() && !watcher.scanning && PipeOf(watcher) == Lived(decode, scan, live[..i])
    {
      LiveSnoc(decode, scan, live, i);
      TakeLive(watcher, decode, live[i]);
    }
    assert live[..|live|] == live;
  }

  /** Runs a watcher through the scan and the live part. */
  method RunWatcher(decode: Decoder, scan: seq<Access>, live: seq<Access>) returns (watcher: WatcherState)
    ensures fresh(watcher) && fresh(watcher.manager)
    ensures watcher.Valid() && !watcher.scanning && PipeOf(watcher) == Lived(decode, scan, live)
  {
    watcher := RunScan(decode, scan);
    watcher.EndScan();
    RunLive(watcher, decode, scan, live);
  }

  /** A watcher run through any accesses, and a frontend fed with everything it emitted: what they hold for each agent
      is what `TrackingOfFile` and `FileToScreen` speak about. */
  method Watch(decode: Decoder, scan: seq<Access>, live: seq<Access>)
    returns (watcher: WatcherState, screen: Frontend.AgentEvents)
    ensures watcher.Valid() && PipeOf(watcher) == Lived(decode, scan, live)
    ensures forall id :: watcher.manager.ViewOf(id) == ViewAfter(Lived(decode, scan, live), id)
    ensures forall id :: screen.ToolsOf(id) == Shown(ViewAfter(Lived(decode, scan, live), id).emitted)
  {
    watcher := RunWatcher(decode, scan, live);
    forall id ensures watcher.manager.ViewOf(id) == ViewAfter(Lived(decode, scan, live), id) {
      watcher.ViewIsExpected(id);
    }
    screen := new Frontend.AgentEvents();
    screen.HandleAll(watcher.manager.log);
  }
}
