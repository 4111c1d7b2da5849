/** The watcher session: known files with their read positions, and the state manager they feed. A mutex makes every
    read and every timer tick one step; the ghost history records the steps, and `Valid` ties every agent's view to
    the session machine run on that agent's share of the history. */
module Watcher {
  import opened Basics
  import opened JsonValues
  import opened TranscriptParser
  import opened AgentMachine
  import opened StateManager
  import opened Tailer
  import AgentInvariants

  /** A file path, cut where the watcher looks at it: the stem is the agent id. */
  datatype Path = Path(dir: string, stem: string, ext: string)

  /** One step of the whole watcher: a read that delivered lines to an agent, or a timer tick. */
  datatype Event = Data(id: string, lines: seq<Line>) | Ticked(now: nat)

  /** The part of the history that concerns one agent. */
  function StepsOf(history: seq<Event>, id: string): seq<Step> {
    if history == [] then []
    else
      var last := history[|history| - 1];
      StepsOf(history[..|history| - 1], id) +
      match last
      case Data(x, lines) => if x == id then [Batch(lines)] else []
      case Ticked(now) => [TimerTick(now)]
  }

  function BatchesOf(history: seq<Event>, id: string): seq<seq<Line>> {
    if history == [] then []
    else
      var last := history[|history| - 1];
      BatchesOf(history[..|history| - 1], id) + if last.Data? && last.id == id then [last.lines] else []
  }

  lemma StepsSnoc(history: seq<Event>, e: Event, id: string)
    ensures StepsOf(history + [e], id) == StepsOf(history, id) +
              (if e.Data? then if e.id == id then [Batch(e.lines)] else [] else [TimerTick(e.now)])
    ensures BatchesOf(history + [e], id) == BatchesOf(history, id) + if e.Data? && e.id == id then [e.lines] else []
  {
    assert (history + [e])[..|history|] == history;
  }

  /** A decoded line, in the form the agent machine takes. */
  function Digest(record: Option<Json>, at: nat): Line {
    if EventsOf(record, false) == [TextIdle] && EventsOf(record, true) == [] then TextOnly(at)
    else Events(EventsOf(record, true), at)
  }

  lemma DigestFaithful(record: Option<Json>, at: nat, had: bool)
    ensures LineEvents(Digest(record, at), had) == EventsOf(record, had)
    ensures Digest(record, at).at == at
  {
    HadToolsOnlyHidesTextIdle(record);
  }

  /** Digested lines meet what the theorems about sessions ask of lines. */
  lemma DigestWellFormed(record: Option<Json>, at: nat)
    ensures var line := Digest(record, at);
            line.Events? ==> TextIdle !in line.events && forall e | e in line.events :: WellScoped(e)
  {
    HadToolsOnlyHidesTextIdle(record);
    EventsScoped(record, true);
  }

  /** The lines of one read, decoded; `clock(i)` is the time line `i` is processed. */
  function DigestAll(lines: seq<string>, decode: string -> Option<Json>, clock: nat -> nat): (r: seq<Line>)
    ensures |r| == |lines|
  {
    seq(|lines|, i requires 0 <= i < |lines| => Digest(decode(lines[i]), clock(i)))
  }

  /** Where reading a file stands; a file not seen before starts at 0. */
  function Position(files: map<Path, FileReadState>, path: Path): FileReadState {
    if path in files then files[path] else FileReadState(0, "")
  }

  /** Parses one line and feeds its events to the manager. */
  method FeedOne(manager: AgentStateManager, id: string, record: Option<Json>, had: bool, at: nat)
    modifies manager
    ensures manager.ViewOf(id) == FeedLine(old(manager.ViewOf(id)), Digest(record, at), had)
    ensures forall x | x != id :: manager.ViewOf(x) == old(manager.ViewOf(x))
  {
    var events := ParseLine(record, had);
    DigestFaithful(record, at, had);
    manager.ProcessEvents(id, events, at);
  }

  /** Hands the lines of one read to the parser and the manager; the flag is sampled before any of them. */
  method Deliver(manager: AgentStateManager, id: string, lines: seq<string>, decode: string -> Option<Json>,
                 clock: nat -> nat, ghost digested: seq<Line>)
    requires digested == DigestAll(lines, decode, clock)
    modifies manager
    ensures manager.ViewOf(id) == BatchStep(old(manager.ViewOf(id)), digested)
    ensures forall x | x != id :: manager.ViewOf(x) == old(manager.ViewOf(x))
  {
    var had := id in manager.agents && manager.agents[id].hadTools;
    if lines == [] {
      return;
    }
    manager.OnDataReceived(id, clock(0));
    ghost var v := manager.ViewOf(id);
    DigestTimes(lines, decode, clock);
    for i := 0 to |lines|
      invariant manager.ViewOf(id) == FeedLines(v, digested[..i], had)
      invariant forall x | x != id :: manager.ViewOf(x) == old(manager.ViewOf(x))
    {
      FeedOne(manager, id, decode(lines[i]), had, clock(i));
      FeedSnoc(v, digested, i, had);
    }
    assert digested[..|lines|] == digested;
  }

  lemma FeedSnoc(v: View, lines: seq<Line>, i: nat, had: bool)
    requires i < |lines|
    ensures FeedLines(v, lines[..i + 1], had) == FeedLine(FeedLines(v, lines[..i], had), lines[i], had)
  {
    assert lines[..i + 1][..i] == lines[..i];
  }

  lemma DigestTimes(lines: seq<string>, decode: string -> Option<Json>, clock: nat -> nat)
    ensures forall i | 0 <= i < |lines| :: DigestAll(lines, decode, clock)[i].at == clock(i)
  {
  }

  class WatcherState {
    const manager: AgentStateManager
    var files: map<Path, FileReadState>
    ghost var scanned: seq<Event>       // reads of the initial scan
    ghost var history: seq<Event>       // steps after it
    ghost var scanning: bool

    ghost predicate Valid()
      reads this, manager
    {
      Matches(manager.Views(), scanned, history, scanning)
    }

    constructor ()
      ensures Valid() && scanning && fresh(manager) && scanned == history == [] && files == map[]
    {
      manager := new AgentStateManager();
      files, scanned, history, scanning := map[], [], [], true;
      new;
      manager.suppress := true;
    }

    /** `process_file_event`, and the body of `scan_and_process`: one read of one file, under the lock. */
    method ProcessFile(path: Path, content: Option<string>, decode: string -> Option<Json>, clock: nat -> nat)
      requires Valid()
      modifies this, manager
      ensures Valid() && scanning == old(scanning)
      ensures path.ext != "jsonl" ==> files == old(files) && scanned == old(scanned) && history == old(history)
      ensures path.ext == "jsonl" ==>
                var read := ReadStep(Position(old(files), path), content);
                var step := Data(path.stem, DigestAll(read.0, decode, clock));
                && files == old(files)[path := read.1]
                && scanned == old(scanned) + (if scanning then [step] else [])
                && history == old(history) + (if scanning then [] else [step])
    {
      if path.ext != "jsonl" {
        return;
      }
      var lines, st := ReadNewLines(content, Position(files, path));
      files := files[path := st];
      Accept(path.stem, lines, decode, clock);
    }

    /** One step of the history: the lines of a read, delivered. */
    method Accept(id: string, lines: seq<string>, decode: string -> Option<Json>, clock: nat -> nat)
      requires Valid()
      modifies `scanned, `history, manager
      ensures Valid()
      ensures var step := Data(id, DigestAll(lines, decode, clock));
              && scanned == old(scanned) + (if scanning then [step] else [])
              && history == old(history) + (if scanning then [] else [step])
    {
      ghost var before := manager.Views();
      ghost var digested := DigestAll(lines, decode, clock);
      Deliver(manager, id, lines, decode, clock, digested);
      ghost var after := before[id := BatchStep(before[id], digested)];
      assert forall x :: x in after && manager.ViewOf(x) == after[x];
      assert manager.Views() == after;
      Append(before, id, digested);
    }

    /** Extends the history by a batch whose effect on the agents has taken place. */
    method Append(ghost before: imap<string, View>, ghost id: string, ghost lines: seq<Line>)
      requires Matches(before, scanned, history, scanning)
      requires manager.Views() == before[id := BatchStep(before[id], lines)]
      modifies `scanned, `history
      ensures Valid()
      ensures scanned == old(scanned) + (if scanning then [Data(id, lines)] else [])
      ensures history == old(history) + (if scanning then [] else [Data(id, lines)])
    {
      AcceptKeeps(before, scanned, history, scanning, id, lines);
      scanned := scanned + (if scanning then [Data(id, lines)] else []);
      history := history + (if scanning then [] else [Data(id, lines)]);
    }

    method EndScan()
      requires Valid() && scanning && history == []
      modifies this, manager
      ensures Valid() && !scanning && history == [] && scanned == old(scanned) && files == old(files)
    {
      manager.EndScan();
      scanning := false;
    }

    method Tick(now: nat)
      requires Valid() && !scanning
      modifies this, manager
      ensures Valid() && !scanning && history == old(history) + [Ticked(now)] && scanned == old(scanned)
      ensures files == old(files)
    {
      manager.TickTimers(now);
      forall x ensures Expected(scanned, history + [Ticked(now)], false, x) ==
                       TickStep(Expected(scanned, history, false, x), now) {
        ExpectedTick(scanned, history, now, x);
      }
      history := history + [Ticked(now)];
    }

    lemma ViewIsExpected(id: string)
      requires Valid()
      ensures manager.ViewOf(id) == Expected(scanned, history, scanning, id)
    {
      assert manager.Views()[id] == manager.ViewOf(id);
    }

    /** What the theorems about sessions say of the live watcher, for every agent. */
    lemma Sound(id: string)
      requires Valid() && !scanning
      ensures var v := manager.ViewOf(id);
              AgentInvariants.Good(v) && AgentInvariants.Alternates(v.emitted)
    {
      ViewIsExpected(id);
      AgentInvariants.SessionInvariant(BatchesOf(scanned, id), StepsOf(history, id));
      AgentInvariants.PermissionsAlternate(BatchesOf(scanned, id), StepsOf(history, id));
    }
  }

  /** The view of `id` that the session machine computes from the history. */
  function Expected(scanned: seq<Event>, history: seq<Event>, scanning: bool, id: string): View {
    if scanning then Scan(BatchesOf(scanned, id)) else Session(BatchesOf(scanned, id), StepsOf(history, id))
  }

  lemma ExpectedData(scanned: seq<Event>, history: seq<Event>, scanning: bool, e: Event, x: string)
    requires e.Data?
    ensures Expected(scanned + (if scanning then [e] else []), history + (if scanning then [] else [e]), scanning, x) ==
            if x == e.id then BatchStep(Expected(scanned, history, scanning, x), e.lines)
            else Expected(scanned, history, scanning, x)
  {
    if scanning {
      StepsSnoc(scanned, e, x);
      var b := BatchesOf(scanned, x);
      assert (b + [e.lines])[..|b|] == b && b + [] == b;
    } else {
      assert scanned + [] == scanned;
      StepsSnoc(history, e, x);
      var s := StepsOf(history, x);
      assert (s + [Batch(e.lines)])[..|s|] == s && s + [] == s;
    }
  }

  /** The views of all agents are those the history gives. */
  ghost predicate Matches(views: imap<string, View>, scanned: seq<Event>, history: seq<Event>, scanning: bool) {
    forall x :: x in views && views[x] == Expected(scanned, history, scanning, x)
  }

  lemma AcceptKeeps(before: imap<string, View>, scanned: seq<Event>, history: seq<Event>, scanning: bool, id: string,
                    lines: seq<Line>)
    requires Matches(before, scanned, history, scanning)
    ensures Matches(before[id := BatchStep(before[id], lines)],
                    scanned + (if scanning then [Data(id, lines)] else []),
                    history + (if scanning then [] else [Data(id, lines)]), scanning)
  {
    var after := before[id := BatchStep(before[id], lines)];
    forall x ensures x in after && after[x] ==
                     Expected(scanned + (if scanning then [Data(id, lines)] else []),
                              history + (if scanning then [] else [Data(id, lines)]), scanning, x) {
      ExpectedData(scanned, history, scanning, Data(id, lines), x);
    }
  }

  lemma ExpectedTick(scanned: seq<Event>, history: seq<Event>, now: nat, x: string)
    ensures Expected(scanned, history + [Ticked(now)], false, x) == TickStep(Expected(scanned, history, false, x), now)
  {
    StepsSnoc(history, Ticked(now), x);
    var s := StepsOf(history, x);
    assert (s + [TimerTick(now)])[..|s|] == s;
  }
}
