/**
 The consumer of the shared queue: progress bars, final statuses, and the loop that ends once a
 DONE has been consumed for every bar.
 */
module Feeder {
  import opened ExitCodes
  import opened Worker

  // ---------------------------------------------------------------- specification

  /** `left` is what the loop still waits for; `shown` is the sum of the increments a bar got. */
  datatype FeedState = FeedState(
    left: int,
    statuses: map<string, FinalStatus>,
    progresses: map<string, real>,
    shown: map<string, real>
  )

  ghost predicate Known(st: FeedState, log: seq<Message>) {
    && st.progresses.Keys == st.shown.Keys
    && forall m | m in log && !m.info.Line? :: m.qname in st.progresses
  }

  /** A printed line needs no bar; everything else does. */
  ghost predicate HasBar(st: FeedState, m: Message) {
    m.info.Line? || (m.qname in st.progresses && m.qname in st.shown)
  }

  /** The effect of one message. */
  ghost function Feed(st: FeedState, m: Message): FeedState
    requires HasBar(st, m)
  {
    match m.info
    case Done(status) => st.(left := st.left - 1, statuses := st.statuses[m.qname := status])
    case Updating(percent) =>
      st.(progresses := st.progresses[m.qname := percent],
          shown := st.shown[m.qname := st.shown[m.qname] + (percent - st.progresses[m.qname])])
    case Line(_) => st
  }

  ghost function FeedAll(st: FeedState, log: seq<Message>): (r: FeedState)
    requires Known(st, log)
    ensures r.progresses.Keys == r.shown.Keys == st.progresses.Keys
  {
    if log == [] then st else Feed(FeedAll(st, log[..|log| - 1]), log[|log| - 1])
  }

  lemma FeedNext(st: FeedState, log: seq<Message>, m: Message)
    requires Known(st, log + [m])
    ensures Known(st, log)
    ensures FeedAll(st, log + [m]) == Feed(FeedAll(st, log), m)
  {
    assert (log + [m])[..|log|] == log;
    assert forall x :: x in log ==> x in log + [m];
    assert m in log + [m];
  }

  /** The messages of a log that carry a given name, in order. */
  ghost function From(log: seq<Message>, name: string): seq<Message> {
    if log == [] then []
    else From(log[..|log| - 1], name) + if log[|log| - 1].qname == name then [log[|log| - 1]] else []
  }

  lemma {:induction false} FromAppend(a: seq<Message>, b: seq<Message>, name: string)
    ensures From(a + b, name) == From(a, name) + From(b, name)
  {
    if b == [] {
      assert a + b == a;
    } else {
      assert (a + b)[..|a + b| - 1] == a + b[..|b| - 1];
      FromAppend(a, b[..|b| - 1], name);
    }
  }

  lemma FromLast(log: seq<Message>)
    requires log != []
    ensures log[|log| - 1] in log && From(log, log[|log| - 1].qname) != []
  {}

  /** The messages of all names together are the whole log. */
  lemma FromEmpty(log: seq<Message>, names: set<string>)
    requires forall m | m in log :: m.qname in names
    requires forall name | name in names :: From(log, name) == []
    ensures log == []
  {
    if log != [] {
      FromLast(log);
    }
  }

  lemma {:induction false} FeedLeft(st: FeedState, log: seq<Message>)
    requires Known(st, log)
    ensures FeedAll(st, log).left == st.left - DoneCount(log)
  {
    if log != [] {
      FeedLeft(st, log[..|log| - 1]);
    }
  }

  // ---------------------------------------------------------------- what the bars show

  ghost function LastReport(log: seq<Message>): Option<real> {
    if log == [] then None
    else match log[|log| - 1].info
         case Updating(percent) => Some(percent)
         case _ => LastReport(log[..|log| - 1])
  }

  ghost function LastStatus(log: seq<Message>): Option<FinalStatus> {
    if log == [] then None
    else match log[|log| - 1].info
         case Done(status) => Some(status)
         case _ => LastStatus(log[..|log| - 1])
  }

  lemma FeedOne(st: FeedState, m: Message, name: string)
    requires HasBar(st, m) && st.progresses.Keys == st.shown.Keys
    requires name in st.progresses && st.shown[name] == st.progresses[name]
    ensures var next := Feed(st, m);
            var own := m.qname == name;
            && next.shown[name] == next.progresses[name]
            && next.progresses[name] == (if own && m.info.Updating? then m.info.percent else st.progresses[name])
            && (name in next.statuses <==> (own && m.info.Done?) || name in st.statuses)
            && (name in next.statuses ==> next.statuses[name] == if own && m.info.Done? then m.info.status else st.statuses[name])
  {}

  lemma LastAppend(log: seq<Message>, m: Message)
    ensures LastReport(log + [m]) == if m.info.Updating? then Some(m.info.percent) else LastReport(log)
    ensures LastStatus(log + [m]) == if m.info.Done? then Some(m.info.status) else LastStatus(log)
  {
    assert (log + [m])[..|log|] == log;
  }

  /**
   After any messages, the increments a bar has received add up to the last value its own qube
   reported, and its status is the last one its own qube sent: other qubes do not matter.
   */
  lemma {:induction false} FeedShows(st: FeedState, log: seq<Message>, name: string)
    requires Known(st, log) && name in st.progresses
    requires st.shown[name] == st.progresses[name]
    requires name !in st.statuses
    ensures var end := FeedAll(st, log);
            var own := From(log, name);
            && end.shown[name] == end.progresses[name]
            && end.progresses[name] == (if LastReport(own).Some? then LastReport(own).value else st.progresses[name])
            && (name in end.statuses <==> LastStatus(own).Some?)
            && (name in end.statuses ==> end.statuses[name] == LastStatus(own).value)
  {
    if log != [] {
      var before := log[..|log| - 1];
      var m := log[|log| - 1];
      assert m in log;
      FeedShows(st, before, name);
      FeedOne(FeedAll(st, before), m, name);
      LastAppend(From(before, name), m);
      if m.qname == name {
        assert From(log, name) == From(before, name) + [m];
      } else {
        assert From(log, name) == From(before, name);
      }
    }
  }

  // ---------------------------------------------------------------- implementation

  class SimpleTerminalBar {
    var progress: Option<real>

    constructor ()
      ensures progress == Some(0.0)
    {
      progress := Some(0.0);
    }

    ghost function Shown(): real
      reads this
    {
      if progress.Some? then progress.value else 0.0
    }

    method Reset()
      modifies this
      ensures progress == None
    {
      progress := None;
    }

    method Update(increment: real)
      modifies this
      ensures progress.Some? && Shown() == old(Shown()) + increment
    {
      if progress.None? {
        progress := Some(0.0);
      }
      progress := Some(progress.value + increment);
    }
  }

  class ProgressBars {
    const dummy: bool
    var progresses: map<string, real>
    var bars: map<string, SimpleTerminalBar>
    var statuses: map<string, FinalStatus>

    ghost predicate Valid()
      reads this
    {
      && progresses.Keys == bars.Keys
      && forall a, b | a in bars && b in bars && a != b :: bars[a] != bars[b]
    }

    ghost function View(left: int): FeedState
      reads this, bars.Values
    {
      FeedState(left, statuses, progresses, map name | name in bars :: bars[name].Shown())
    }

    constructor (dummy: bool)
      ensures Valid() && this.dummy == dummy
      ensures View(0) == FeedState(0, map[], map[], map[])
    {
      this.dummy := dummy;
      progresses := map[];
      bars := map[];
      statuses := map[];
    }

    /** A new bar at 0, instead of any other of that name. */
    method AddBar(name: string)
      requires Valid()
      modifies this`progresses, this`bars
      ensures Valid() && statuses == old(statuses)
      ensures dummy ==> bars == old(bars) && progresses == old(progresses)
      ensures !dummy ==> name in bars && fresh(bars[name]) && bars == old(bars)[name := bars[name]]
      ensures !dummy ==> View(0) == old(View(0)).(progresses := old(progresses)[name := 0.0],
                                                  shown := old(View(0)).shown[name := 0.0])
    {
      if dummy {
        return;
      }
      var bar := new SimpleTerminalBar();
      progresses := progresses[name := 0.0];
      bars := bars[name := bar];
    }

    /**
     The AdminVM's bar is reset to show nothing before its first report; it counts from 0 again. There is no
     bar under the qube's own name with `--display-name`, and then the look-up raises.
     */
    method ResetBar(name: string) returns (ok: bool)
      requires Valid()
      modifies bars.Values
      ensures Valid() && (ok <==> name in bars)
      ensures ok ==> bars[name].progress == None
                     && View(0) == old(View(0)).(shown := old(View(0)).shown[name := 0.0])
      ensures !ok ==> View(0) == old(View(0))
    {
      if name !in bars {
        return false;
      }
      bars[name].Reset();
      ok := true;
    }

    /** `_update`: the bar is told the difference to the value it had. */
    method Update(name: string, value: real)
      requires Valid() && name in bars
      modifies this`progresses, bars[name]
      ensures Valid()
      ensures forall left :: View(left) == Feed(old(View(left)), Message(name, Updating(value)))
    {
      var increment := value - progresses[name];
      bars[name].Update(increment);
      progresses := progresses[name := progresses[name] + increment];
      assert progresses == old(progresses)[name := value];
    }

    /** One round of the loop in `feeding`; for a name without a bar it raises, but a DONE has been counted by then. */
    method Consume(m: Message, left: int) returns (remaining: int, ok: bool)
      requires Valid()
      modifies this`progresses, this`statuses, bars.Values
      ensures Valid() && (ok <==> HasBar(old(View(left)), m))
      ensures ok ==> View(remaining) == Feed(old(View(left)), m)
      ensures !ok ==> View(remaining) == if m.info.Done?
                then old(View(left)).(left := left - 1, statuses := old(statuses)[m.qname := m.info.status])
                else old(View(left))
    {
      remaining, ok := left, true;
      match m.info {
        case Done(status) =>
          remaining := left - 1;
          statuses := statuses[m.qname := status];
          ok := m.qname in bars;
        case Updating(percent) =>
          if m.qname !in bars {
            ok := false;
            return;
          }
          Update(m.qname, percent);
          assert View(left) == Feed(old(View(left)), Message(m.qname, Updating(percent)));
        case Line(_) =>
      }
    }

    /**
     The state is what the first `taken` messages of the stream make of `start`; when nothing is left
     to wait for, the last message taken was a DONE, so nothing was taken beyond need.
     */
    ghost predicate Follows(start: FeedState, stream: seq<Message>, taken: nat, left: int)
      reads this, bars.Values
    {
      && Valid() && progresses.Keys == start.progresses.Keys
      && taken <= |stream| && Known(start, stream) && Known(start, stream[..taken])
      && View(left) == FeedAll(start, stream[..taken])
      && left == start.left - DoneCount(stream[..taken])
      && (left == 0 && taken > 0 ==> stream[taken - 1].info.Done?)
    }

    method Round(ghost start: FeedState, stream: seq<Message>, taken: nat, left: int) returns (remaining: int)
      requires Follows(start, stream, taken, left)
      requires left > 0 && start.left <= DoneCount(stream)
      modifies this`progresses, this`statuses, bars.Values
      ensures taken < |stream| && Follows(start, stream, taken + 1, remaining)
      ensures remaining == left - if stream[taken].info.Done? then 1 else 0
    {
      hide FeedAll, DoneCount;
      TakeNext(start, stream, taken);
      var ok;
      remaining, ok := Consume(stream[taken], left);
    }

    /**
     The loop over everything the queue will ever deliver. It takes the shortest prefix that holds
     one DONE per bar, and leaves the state that prefix determines; a dummy takes nothing.
     */
    method Feeding(ghost start: FeedState, stream: seq<Message>) returns (taken: nat)
      requires Valid() && start == View(|progresses|) && Known(start, stream)
      requires DoneCount(stream) >= |progresses|
      modifies this`progresses, this`statuses, bars.Values
      ensures dummy ==> taken == 0 && statuses == old(statuses)
      ensures !dummy ==> Follows(start, stream, taken, 0)
    {
      taken := 0;
      if dummy {
        return;
      }
      hide DoneCount;
      var left: int := |progresses|;
      assert stream[..0] == [];
      while left != 0
        invariant left >= 0 && bars == old(bars) && Follows(start, stream, taken, left)
        decreases |stream| - taken
      {
        left := Round(start, stream, taken, left);
        taken := taken + 1;
      }
    }
  }

  lemma TakeNext(start: FeedState, stream: seq<Message>, taken: nat)
    requires Known(start, stream) && taken <= |stream|
    requires DoneCount(stream[..taken]) < DoneCount(stream)
    ensures taken < |stream| && (stream[taken].info.Line? || stream[taken].qname in start.progresses)
    ensures Known(start, stream[..taken]) && Known(start, stream[..taken + 1])
    ensures FeedAll(start, stream[..taken + 1]) == Feed(FeedAll(start, stream[..taken]), stream[taken])
    ensures DoneCount(stream[..taken + 1]) == DoneCount(stream[..taken]) + if stream[taken].info.Done? then 1 else 0
  {
    assert stream[..|stream|] == stream;
    assert stream[taken] in stream;
    assert stream[..taken + 1] == stream[..taken] + [stream[taken]];
    FeedNext(start, stream[..taken], stream[taken]);
    assert stream[..taken + 1][..taken] == stream[..taken];
  }
}
