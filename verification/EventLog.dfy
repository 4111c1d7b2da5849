/** The stream of signals from backend to frontend, all agents interleaved. */
module EventLog {
  import opened AgentMachine

  type Log = seq<(string, Signal)>

  /** The signals about one agent. */
  function SignalsOf(log: Log, id: string): seq<Signal> {
    if log == [] then []
    else SignalsOf(log[..|log| - 1], id) + (if log[|log| - 1].0 == id then [log[|log| - 1].1] else [])
  }

  lemma SignalsSnoc(log: Log, id: string, s: Signal, x: string)
    ensures SignalsOf(log + [(id, s)], x) == if x == id then SignalsOf(log, x) + [s] else SignalsOf(log, x)
  {
    assert (log + [(id, s)])[..|log|] == log;
  }

  lemma {:induction false} SignalsAppend(log: Log, more: Log, x: string)
    ensures SignalsOf(log + more, x) == SignalsOf(log, x) + SignalsOf(more, x)
  {
    if more == [] {
      assert log + more == log;
    } else {
      SignalsAppend(log, more[..|more| - 1], x);
      assert (log + more)[..|log + more| - 1] == log + more[..|more| - 1];
    }
  }

  /** The signals of one agent, as log entries. */
  function Tag(id: string, signals: seq<Signal>): Log {
    seq(|signals|, i requires 0 <= i < |signals| => (id, signals[i]))
  }

  lemma {:induction false} TagSignals(id: string, signals: seq<Signal>, x: string)
    ensures SignalsOf(Tag(id, signals), x) == if x == id then signals else []
  {
    if signals != [] {
      var front, last := signals[..|signals| - 1], signals[|signals| - 1];
      TagSignals(id, front, x);
      assert Tag(id, signals) == Tag(id, front) + [(id, last)];
      SignalsSnoc(Tag(id, front), id, last, x);
    }
  }

  /** Appending one agent's signals changes that agent's stream only. */
  lemma TagAppend(log: Log, id: string, signals: seq<Signal>)
    ensures SignalsOf(log + Tag(id, signals), id) == SignalsOf(log, id) + signals
    ensures forall x | x != id :: SignalsOf(log + Tag(id, signals), x) == SignalsOf(log, x)
  {
    forall x ensures SignalsOf(log + Tag(id, signals), x) ==
                     SignalsOf(log, x) + if x == id then signals else [] {
      SignalsAppend(log, Tag(id, signals), x);
      TagSignals(id, signals, x);
    }
    assert forall x :: SignalsOf(log, x) + [] == SignalsOf(log, x);
  }

  /** The log holds the signals `of(x)` of each agent in `done`, and no others. */
  ghost predicate Collects(log: Log, done: set<string>, of: string -> seq<Signal>) {
    forall x :: SignalsOf(log, x) == if x in done then of(x) else []
  }

  lemma CollectOne(log: Log, done: set<string>, of: string -> seq<Signal>, id: string)
    requires Collects(log, done, of) && id !in done
    ensures Collects(log + Tag(id, of(id)), done + {id}, of)
  {
    var log' := log + Tag(id, of(id));
    TagAppend(log, id, of(id));
    assert [] + of(id) == of(id);
    forall x ensures SignalsOf(log', x) == if x in done + {id} then of(x) else [] {
      assert x != id ==> SignalsOf(log', x) == SignalsOf(log, x);
    }
  }
}
