/**
 The download counters behind the percentages: the dnf and the dnf5 callbacks. Byte counts are reals,
 which covers the integers of the one and the floats of the other.
 */
module Counters {
  import opened ExitCodes
  import opened Progress

  // ---------------------------------------------------------------- sums over maps

  ghost function Sum<K(!new)>(m: map<K, real>): real {
    if m == map[] then 0.0
    else
      var k :| k in m;
      m[k] + Sum(m - {k})
  }

  lemma {:induction false} SumRemove<K(!new)>(m: map<K, real>, k: K)
    requires k in m
    ensures Sum(m) == m[k] + Sum(m - {k})
    decreases |m|
  {
    var first :| first in m && Sum(m) == m[first] + Sum(m - {first});
    if first != k {
      SumRemove(m - {first}, k);
      SumRemove(m - {k}, first);
      assert m - {first} - {k} == m - {k} - {first};
    }
  }

  lemma SumUpdate<K(!new)>(m: map<K, real>, k: K, v: real)
    ensures Sum(m[k := v]) == Sum(m) + v - if k in m then m[k] else 0.0
  {
    SumRemove(m[k := v], k);
    assert m[k := v] - {k} == m - {k};
    if k in m {
      SumRemove(m, k);
    } else {
      assert m - {k} == m;
    }
  }

  /** Non-negative entries bounded by `sizes` have a sum between 0 and that of `sizes`. */
  ghost predicate Within<K(!new)>(m: map<K, real>, sizes: map<K, real>) {
    (forall k | k in sizes :: 0.0 <= sizes[k]) && forall k | k in m :: k in sizes && 0.0 <= m[k] <= sizes[k]
  }

  lemma {:induction false} SumWithin<K(!new)>(m: map<K, real>, sizes: map<K, real>)
    requires Within(m, sizes)
    ensures 0.0 <= Sum(m) <= Sum(sizes)
    decreases |sizes|
  {
    if k :| k in sizes {
      SumWithin(m - {k}, sizes - {k});
      SumRemove(sizes, k);
      if k in m {
        SumRemove(m, k);
      } else {
        assert m - {k} == m;
      }
    } else {
      assert m == map[] && sizes == map[];
    }
  }

  lemma SumHasEntry<K(!new)>(sizes: map<K, real>, k: K)
    requires k in sizes && forall x | x in sizes :: 0.0 <= sizes[x]
    ensures sizes[k] <= Sum(sizes)
  {
    SumRemove(sizes, k);
    SumWithin(map[], sizes - {k});
  }

  lemma PercentInRange(part: real, whole: real)
    requires 0.0 <= part <= whole && 0.0 < whole
    ensures 0.0 <= part / whole * 100.0 <= 100.0
  {
    assert part / whole <= 1.0;
  }

  // ---------------------------------------------------------------- dnf

  datatype Dnf = Dnf(refresh: bool, toFetch: Option<real>, fetched: real, bytes: map<string, real>)

  ghost function DnfStart(c: Dnf, total: real): Dnf {
    c.(toFetch := Some(total), bytes := if c.refresh then c.bytes else map[])
  }

  ghost function DnfProgress(c: Dnf, payload: string, done: real): Dnf {
    c.(fetched := c.fetched + (done - if payload in c.bytes then c.bytes[payload] else 0.0),
       bytes := c.bytes[payload := done])
  }

  ghost function DnfAll(c: Dnf, events: seq<(string, real)>): Dnf {
    if events == [] then c
    else DnfProgress(DnfAll(c, events[..|events| - 1]), events[|events| - 1].0, events[|events| - 1].1)
  }

  ghost predicate DnfExact(c: Dnf) {
    c.fetched == Sum(c.bytes)
  }

  /** A progress call keeps the difference between the counter and the packages. */
  lemma DnfProgressExact(c: Dnf, payload: string, done: real)
    ensures DnfExact(DnfProgress(c, payload, done)) <==> DnfExact(c)
  {
    SumUpdate(c.bytes, payload, done);
  }

  /** Starting again keeps a fetch exact only if nothing had been counted; a refresh always stays exact. */
  lemma DnfStartExact(c: Dnf, total: real)
    ensures DnfExact(DnfStart(c, total)) <==> if c.refresh then DnfExact(c) else c.fetched == 0.0
  {}

  /** With one `start`, the counter is the sum of the packages after any callbacks. */
  lemma {:induction false} DnfRun(refresh: bool, total: real, events: seq<(string, real)>)
    ensures DnfExact(DnfAll(DnfStart(Dnf(refresh, None, 0.0, map[]), total), events))
  {
    var start := DnfStart(Dnf(refresh, None, 0.0, map[]), total);
    if events == [] {
      DnfStartExact(Dnf(refresh, None, 0.0, map[]), total);
    } else {
      var n := |events| - 1;
      DnfRun(refresh, total, events[..n]);
      DnfProgressExact(DnfAll(start, events[..n]), events[n].0, events[n].1);
    }
  }

  /** For instance with one byte fetched before the second start. */
  lemma SecondStartBreaks()
    ensures DnfExact(Dnf(false, Some(2.0), 1.0, map["a" := 1.0]))
    ensures !DnfExact(DnfStart(Dnf(false, Some(2.0), 1.0, map["a" := 1.0]), 2.0))
  {
    var c := Dnf(false, Some(2.0), 1.0, map["a" := 1.0]);
    assert c.bytes == map[]["a" := 1.0];
    SumUpdate(map[], "a", 1.0);
    DnfStartExact(c, 2.0);
  }

  /** The percentage is in range as long as no package exceeds its announced size. */
  lemma DnfPercent(c: Dnf, sizes: map<string, real>)
    requires DnfExact(c) && c.toFetch == Some(Sum(sizes)) && Within(c.bytes, sizes) && Sum(sizes) > 0.0
    ensures 0.0 <= c.fetched / c.toFetch.value * 100.0 <= 100.0
  {
    SumWithin(c.bytes, sizes);
    PercentInRange(c.fetched, c.toFetch.value);
  }

  /** No package is reported with less than nothing or more than its announced size. */
  ghost predicate FitSizes(events: seq<(string, real)>, sizes: map<string, real>) {
    forall i | 0 <= i < |events| :: events[i].0 in sizes && 0.0 <= events[i].1 <= sizes[events[i].0]
  }

  lemma {:induction false} DnfRunWithin(c: Dnf, sizes: map<string, real>, events: seq<(string, real)>)
    requires Within(c.bytes, sizes) && FitSizes(events, sizes)
    ensures Within(DnfAll(c, events).bytes, sizes) && DnfAll(c, events).toFetch == c.toFetch
  {
    if events != [] {
      DnfRunWithin(c, sizes, events[..|events| - 1]);
    }
  }

  /** After one start with the announced total, every percentage is in range, whatever the order of the callbacks. */
  lemma DnfRunPercents(refresh: bool, sizes: map<string, real>, events: seq<(string, real)>)
    requires (forall p | p in sizes :: 0.0 <= sizes[p]) && Sum(sizes) > 0.0 && FitSizes(events, sizes)
    ensures var end := DnfAll(DnfStart(Dnf(refresh, None, 0.0, map[]), Sum(sizes)), events);
            && end.toFetch == Some(Sum(sizes))
            && 0.0 <= end.fetched / Sum(sizes) * 100.0 <= 100.0
  {
    var start := DnfStart(Dnf(refresh, None, 0.0, map[]), Sum(sizes));
    DnfRun(refresh, Sum(sizes), events);
    DnfRunWithin(start, sizes, events);
    DnfPercent(DnfAll(start, events), sizes);
  }

  /** The last figure reported for a package in these callbacks. */
  ghost function LastFigure(events: seq<(string, real)>, payload: string): Option<real> {
    if events == [] then None
    else if events[|events| - 1].0 == payload then Some(events[|events| - 1].1)
    else LastFigure(events[..|events| - 1], payload)
  }

  /** After one start, every package's figure is the last one reported for it, and nothing else is counted. */
  lemma {:induction false} DnfFigures(refresh: bool, total: real, events: seq<(string, real)>, payload: string)
    ensures var end := DnfAll(DnfStart(Dnf(refresh, None, 0.0, map[]), total), events);
            LastFigure(events, payload) == if payload in end.bytes then Some(end.bytes[payload]) else None
  {
    if events != [] {
      DnfFigures(refresh, total, events[..|events| - 1], payload);
    }
  }

  /** So once the last report of every package is its announced size, the percentage is 100. */
  lemma DnfCompletes(refresh: bool, sizes: map<string, real>, events: seq<(string, real)>)
    requires Sum(sizes) > 0.0
    requires forall p: string :: LastFigure(events, p) == if p in sizes then Some(sizes[p]) else None
    ensures var end := DnfAll(DnfStart(Dnf(refresh, None, 0.0, map[]), Sum(sizes)), events);
            end.bytes == sizes && end.fetched / Sum(sizes) * 100.0 == 100.0
  {
    var end := DnfAll(DnfStart(Dnf(refresh, None, 0.0, map[]), Sum(sizes)), events);
    forall p: string
      ensures p in end.bytes <==> p in sizes
      ensures p in sizes ==> end.bytes[p] == sizes[p]
    {
      DnfFigures(refresh, Sum(sizes), events, p);
    }
    DnfRun(refresh, Sum(sizes), events);
    assert end.bytes == sizes;
    assert end.fetched == Sum(sizes);
    WholeIsHundred(Sum(sizes));
  }

  class DnfFetchProgress {
    const refresh: bool
    var toFetch: Option<real>
    var fetched: real
    var bytes: map<string, real>

    ghost function View(): Dnf
      reads this
    {
      Dnf(refresh, toFetch, fetched, bytes)
    }

    constructor (refresh: bool)
      ensures View() == Dnf(refresh, None, 0.0, map[])
    {
      this.refresh := refresh;
      toFetch := None;
      fetched := 0.0;
      bytes := map[];
    }

    method Start(total: real)
      modifies this
      ensures View() == DnfStart(old(View()), total)
      ensures toFetch == Some(total) && fetched == old(fetched) && bytes == if refresh then old(bytes) else map[]
    {
      toFetch := Some(total);
      if !refresh {
        bytes := map[];
      }
    }

    /** The percentage, or nothing when the call raises: not started, or nothing to fetch. */
    method Progress(payload: string, done: real) returns (percent: Option<real>)
      modifies this
      ensures View() == DnfProgress(old(View()), payload, done)
      ensures toFetch == old(toFetch) && bytes == old(bytes)[payload := done]
      ensures fetched == old(fetched) + done - if payload in old(bytes) then old(bytes)[payload] else 0.0
      ensures percent == if toFetch.None? || toFetch.value == 0.0 then None
                         else Some(fetched / toFetch.value * 100.0)
    {
      var was := if payload in bytes then bytes[payload] else 0.0;
      fetched := fetched + (done - was);
      bytes := bytes[payload := done];
      if toFetch.None? || toFetch.value == 0.0 {
        return None;
      }
      percent := Some(fetched / toFetch.value * 100.0);
    }

    /** The loop in `DNF.refresh`: every repository counts as one unit, reported before it is loaded. */
    method RefreshRepos(repos: seq<string>) returns (percents: seq<real>)
      requires View() == Dnf(true, None, 0.0, map[])
      requires forall i, j | 0 <= i < j < |repos| :: repos[i] != repos[j]
      modifies this
      ensures |percents| == |repos|
      ensures forall i | 0 <= i < |repos| :: percents[i] == (i + 1) as real / |repos| as real * 100.0
      ensures Percents(percents)
    {
      percents := [];
      Start(|repos| as real);
      for k := 0 to |repos|
        invariant toFetch == Some(|repos| as real) && |percents| == k
        invariant fetched == k as real
        invariant forall name | name in bytes :: name in repos[..k]
        invariant forall i | 0 <= i < k :: percents[i] == (i + 1) as real / |repos| as real * 100.0
      {
        assert repos[k] !in repos[..k];
        var percent := Progress(repos[k], 1.0);
        percents := percents + [percent.value];
        assert repos[..k + 1] == repos[..k] + [repos[k]];
      }
      forall i | 0 <= i < |repos| ensures 0.0 <= percents[i] <= 100.0 {
        PercentInRange((i + 1) as real, |repos| as real);
      }
    }
  }

  // ---------------------------------------------------------------- dnf5

  datatype Dnf5 = Dnf5(count: nat, toFetch: real, fetched: real, bytes: map<nat, real>)

  datatype Event = Add(total: real) | Report(id: nat, downloaded: real)

  /** Unlike the counter, a package's own figure never goes down. */
  ghost function Dnf5Step(c: Dnf5, e: Event): Dnf5
    requires e.Report? ==> e.id in c.bytes
  {
    match e
    case Add(total) => Dnf5(c.count + 1, c.toFetch + total, c.fetched, c.bytes[c.count + 1 := 0.0])
    case Report(id, downloaded) =>
      c.(fetched := c.fetched + (downloaded - c.bytes[id]),
         bytes := if downloaded > c.bytes[id] then c.bytes[id := downloaded] else c.bytes)
  }

  ghost function Drift(c: Dnf5): real {
    c.fetched - Sum(c.bytes)
  }

  /** A report below a package's own figure makes the counter drift by exactly the difference. */
  lemma Dnf5Drift(c: Dnf5, id: nat, downloaded: real)
    requires id in c.bytes
    ensures Drift(Dnf5Step(c, Report(id, downloaded)))
            == Drift(c) - if downloaded < c.bytes[id] then c.bytes[id] - downloaded else 0.0
  {
    SumUpdate(c.bytes, id, downloaded);
  }

  /** Counters that agree with the announced sizes of the downloads. */
  ghost predicate Agrees(c: Dnf5, sizes: map<nat, real>) {
    && Drift(c) == 0.0 && c.toFetch == Sum(sizes)
    && c.bytes.Keys == sizes.Keys && Within(c.bytes, sizes)
    && forall id | id in sizes :: 1 <= id <= c.count
  }

  /** A download grows and stays within its announced size; sizes are not negative. */
  ghost predicate Proper(c: Dnf5, sizes: map<nat, real>, e: Event) {
    match e
    case Add(total) => 0.0 <= total
    case Report(id, downloaded) => id in c.bytes && id in sizes && c.bytes[id] <= downloaded <= sizes[id]
  }

  ghost function SizesAfter(c: Dnf5, sizes: map<nat, real>, e: Event): map<nat, real> {
    if e.Add? then sizes[c.count + 1 := e.total] else sizes
  }

  /** Proper events keep the agreement, also while downloads are still being added. */
  lemma Dnf5StepAgrees(c: Dnf5, sizes: map<nat, real>, e: Event)
    requires Agrees(c, sizes) && Proper(c, sizes, e)
    ensures Agrees(Dnf5Step(c, e), SizesAfter(c, sizes, e))
  {
    match e
    case Add(total) =>
      var id: nat := c.count + 1;
      assert id !in sizes && id !in c.bytes.Keys;
      SumUpdate<nat>(c.bytes, id, 0.0);
      SumUpdate<nat>(sizes, id, total);
    case Report(id, downloaded) =>
      Dnf5Drift(c, id, downloaded);
  }

  /** When a percentage is computed the divisor is positive and the result lies in [0, 100]. */
  lemma Dnf5Percent(c: Dnf5, sizes: map<nat, real>, id: nat, downloaded: real)
    requires Agrees(c, sizes) && Proper(c, sizes, Report(id, downloaded)) && downloaded > c.bytes[id]
    ensures c.toFetch > 0.0
    ensures 0.0 <= Dnf5Step(c, Report(id, downloaded)).fetched / c.toFetch * 100.0 <= 100.0
  {
    var next := Dnf5Step(c, Report(id, downloaded));
    Dnf5StepAgrees(c, sizes, Report(id, downloaded));
    SumHasEntry(sizes, id);
    SumWithin(next.bytes, sizes);
    PercentInRange(next.fetched, c.toFetch);
  }

  /** When every download has reached its announced size, the percentage is 100. */
  lemma Dnf5Completes(c: Dnf5, sizes: map<nat, real>)
    requires Agrees(c, sizes) && c.bytes == sizes && Sum(sizes) > 0.0
    ensures c.fetched / c.toFetch * 100.0 == 100.0
  {
    WholeIsHundred(c.toFetch);
  }

  lemma WholeIsHundred(whole: real)
    requires whole != 0.0
    ensures whole / whole * 100.0 == 100.0
  {
    assert whole / whole == 1.0;
  }

  class Dnf5FetchProgress {
    var count: nat
    var toFetch: real
    var fetched: real
    var bytes: map<nat, real>

    ghost function View(): Dnf5
      reads this
    {
      Dnf5(count, toFetch, fetched, bytes)
    }

    constructor ()
      ensures View() == Dnf5(0, 0.0, 0.0, map[])
      ensures Agrees(View(), map[])
    {
      count, toFetch, fetched, bytes := 0, 0.0, 0.0, map[];
    }

    /** The number of the new download, and the percentage that is notified. */
    method AddNewDownload(total: real) returns (id: nat, percent: real)
      modifies this
      ensures View() == Dnf5Step(old(View()), Add(total))
      ensures id == count == old(count) + 1 && percent == 0.0
      ensures toFetch == old(toFetch) + total && fetched == old(fetched) && bytes == old(bytes)[id := 0.0]
    {
      count := count + 1;
      toFetch := toFetch + total;
      bytes := bytes[count := 0.0];
      id, percent := count, 0.0;
    }

    /**
     It raises for a number never handed out, and for growth while nothing is to be fetched; otherwise it
     notifies exactly on growth. Where it divides by 0 the counters have been changed already.
     */
    method Progress(id: nat, downloaded: real) returns (notice: Notice)
      modifies this
      ensures id in old(bytes) ==> View() == Dnf5Step(old(View()), Report(id, downloaded))
      ensures id in old(bytes) ==>
                && count == old(count) && toFetch == old(toFetch) && fetched == old(fetched) + downloaded - old(bytes)[id]
                && bytes == old(bytes)[id := if downloaded > old(bytes)[id] then downloaded else old(bytes)[id]]
      ensures id !in old(bytes) ==> View() == old(View())
      ensures notice.Raised? <==> id !in old(bytes) || (downloaded > old(bytes)[id] && toFetch == 0.0)
      ensures notice.Quiet? <==> id in old(bytes) && downloaded <= old(bytes)[id]
      ensures notice.Notified? ==> notice.percent == fetched / toFetch * 100.0
    {
      if id !in bytes {
        return Raised;
      }
      var was := bytes[id];
      fetched := fetched + (downloaded - was);
      if downloaded <= was {
        return Quiet;
      }
      bytes := bytes[id := downloaded];
      if toFetch == 0.0 {
        return Raised;
      }
      notice := Notified(fetched / toFetch * 100.0);
    }
  }

  /** What a progress call comes to. */
  datatype Notice = Notified(percent: real) | Quiet | Raised

  // ---------------------------------------------------------------- whole dnf5 runs

  ghost predicate ProperRun(c: Dnf5, sizes: map<nat, real>, events: seq<Event>)
    decreases |events|
  {
    events == [] || (&& Proper(c, sizes, events[0])
                     && ProperRun(Dnf5Step(c, events[0]), SizesAfter(c, sizes, events[0]), events[1..]))
  }

  /** Numbers are handed out in order, and only those are reported on. */
  ghost predicate Numbered(c: Dnf5) {
    forall id | id in c.bytes :: id <= c.count
  }

  ghost predicate Known(c: Dnf5, events: seq<Event>)
    decreases |events|
  {
    events == [] || ((events[0].Report? ==> events[0].id in c.bytes) && Known(Dnf5Step(c, events[0]), events[1..]))
  }

  ghost function Dnf5All(c: Dnf5, events: seq<Event>): Dnf5
    requires Known(c, events)
    decreases |events|
  {
    if events == [] then c else Dnf5All(Dnf5Step(c, events[0]), events[1..])
  }

  /** Some report of the run falls below the figure its package has by then. */
  ghost predicate Falls(c: Dnf5, events: seq<Event>)
    requires Known(c, events)
    decreases |events|
  {
    events != [] && (|| (events[0].Report? && events[0].downloaded < c.bytes[events[0].id])
                     || Falls(Dnf5Step(c, events[0]), events[1..]))
  }

  lemma StepDrifts(c: Dnf5, e: Event)
    requires Numbered(c) && (e.Report? ==> e.id in c.bytes)
    ensures Numbered(Dnf5Step(c, e)) && Drift(Dnf5Step(c, e)) <= Drift(c)
    ensures Drift(Dnf5Step(c, e)) == Drift(c) <==> !(e.Report? && e.downloaded < c.bytes[e.id])
  {
    match e
    case Add(_) => SumUpdate<nat>(c.bytes, c.count + 1, 0.0);
    case Report(id, downloaded) => Dnf5Drift(c, id, downloaded);
  }

  /** Over any run the counter keeps its distance to the sum, exactly if no report falls; it only ever drops below. */
  lemma {:induction false} Dnf5RunDrift(c: Dnf5, events: seq<Event>)
    requires Numbered(c) && Known(c, events)
    ensures Drift(Dnf5All(c, events)) <= Drift(c)
    ensures Drift(Dnf5All(c, events)) == Drift(c) <==> !Falls(c, events)
    decreases |events|
  {
    if events != [] {
      StepDrifts(c, events[0]);
      Dnf5RunDrift(Dnf5Step(c, events[0]), events[1..]);
    }
  }

  /** The percentages notified during a run. */
  ghost function Dnf5Notified(c: Dnf5, sizes: map<nat, real>, events: seq<Event>): seq<real>
    requires Agrees(c, sizes) && ProperRun(c, sizes, events)
    decreases |events|
  {
    if events == [] then []
    else
      var next := Dnf5Step(c, events[0]);
      Dnf5StepAgrees(c, sizes, events[0]);
      var rest := Dnf5Notified(next, SizesAfter(c, sizes, events[0]), events[1..]);
      match events[0]
      case Add(_) => [0.0] + rest
      case Report(id, downloaded) =>
        if downloaded > c.bytes[id] then
          Dnf5Percent(c, sizes, id, downloaded);
          [next.fetched / next.toFetch * 100.0] + rest
        else rest
  }

  /** All of them are percentages, so a phase that is fed by them reports as `Progress` promises. */
  lemma {:induction false} Dnf5RunPercents(c: Dnf5, sizes: map<nat, real>, events: seq<Event>)
    requires Agrees(c, sizes) && ProperRun(c, sizes, events)
    ensures Percents(Dnf5Notified(c, sizes, events))
    decreases |events|
  {
    if events != [] {
      Dnf5StepAgrees(c, sizes, events[0]);
      Dnf5RunPercents(Dnf5Step(c, events[0]), SizesAfter(c, sizes, events[0]), events[1..]);
      if events[0].Report? && events[0].downloaded > c.bytes[events[0].id] {
        Dnf5Percent(c, sizes, events[0].id, events[0].downloaded);
      }
    }
  }

  // ---------------------------------------------------------------- transactions

  /** dnf5: package `index` of `total`, of which the share `part` is installed. dnf counts from one. */
  function TransactionPercent(index: nat, part: real, total: nat): real
    requires total > 0
  {
    (index as real + part) / total as real * 100.0
  }

  lemma DivideMonotone(a: real, b: real, t: real)
    requires a <= b && 0.0 < t
    ensures a / t <= b / t
  {
    assert b / t - a / t == (b - a) / t;
  }

  /** In range, and never less for a later package or a larger share. */
  lemma TransactionPercents(index: nat, part: real, later: nat, more: real, total: nat)
    requires index < total && later < total && 0.0 <= part <= 1.0 && 0.0 <= more <= 1.0
    requires index < later || (index == later && part <= more)
    ensures 0.0 <= TransactionPercent(index, part, total) <= TransactionPercent(later, more, total) <= 100.0
  {
    DivideMonotone(index as real + part, later as real + more, total as real);
    PercentInRange(index as real + part, total as real);
    PercentInRange(later as real + more, total as real);
  }

  class TransactionProgress {
    var packages: Option<nat>
    var done: Option<nat>

    constructor ()
      ensures packages == done == None
    {
      packages, done := None, None;
    }

    method TransactionStart(total: nat)
      modifies this
      ensures packages == Some(total) && done == Some(0)
    {
      done := Some(0);
      packages := Some(total);
    }

    /** `install_progress` and `uninstall_progress`; nothing when the call raises. */
    method PackageProgress(amount: nat, total: nat) returns (percent: Option<real>)
      ensures percent.None? <==> total == 0 || done.None? || packages.None? || packages.value == 0
      ensures percent.Some? ==> percent.value == TransactionPercent(done.value, amount as real / total as real, packages.value)
      ensures percent.Some? ==>
                percent.value == (done.value as real + amount as real / total as real) / packages.value as real * 100.0
      ensures percent.Some? && amount <= total && done.value < packages.value ==> Percents([percent.value])
    {
      if total == 0 {
        return None;
      }
      var share := amount as real / total as real;
      if done.None? || packages.None? || packages.value == 0 {
        return None;
      }
      percent := Some(TransactionPercent(done.value, share, packages.value));
      if amount <= total && done.value < packages.value {
        PercentInRange(amount as real, total as real);
        TransactionPercents(done.value, share, done.value, share, packages.value);
      }
    }

    /** The next package; its own total is not compared with the one given at the start. */
    method ElemProgress(amount: nat, total: nat) returns (percent: Option<real>)
      modifies this`done
      ensures done == Some(amount)
      ensures percent.None? <==> total == 0
      ensures percent.Some? ==> percent.value == TransactionPercent(amount, 0.0, total)
      ensures percent.Some? ==> percent.value == amount as real / total as real * 100.0
      ensures percent.Some? && amount <= total ==> Percents([percent.value])
    {
      done := Some(amount);
      if total == 0 {
        return None;
      }
      if amount <= total {
        PercentInRange(amount as real, total as real);
      }
      percent := Some(amount as real / total as real * 100.0);
    }
  }

  // ---------------------------------------------------------------- a whole dnf5 upgrade

  /** The next package, or a larger share of the present one. */
  datatype Step = Next(index: nat) | Share(part: real)

  ghost predicate ProperSteps(total: nat, done: nat, part: real, steps: seq<Step>)
    decreases |steps|
  {
    steps == [] || match steps[0]
                   case Next(index) => && index < total && (done < index || (done == index && part == 0.0))
                                       && ProperSteps(total, index, 0.0, steps[1..])
                   case Share(more) => part <= more <= 1.0 && ProperSteps(total, done, more, steps[1..])
  }

  /** The percentages notified by these steps. */
  function StepsNotified(total: nat, done: nat, steps: seq<Step>): seq<real>
    requires total > 0
    decreases |steps|
  {
    if steps == [] then []
    else match steps[0]
         case Next(index) => [TransactionPercent(index, 0.0, total)] + StepsNotified(total, index, steps[1..])
         case Share(part) => [TransactionPercent(done, part, total)] + StepsNotified(total, done, steps[1..])
  }

  ghost predicate Sorted(ps: seq<real>, low: real) {
    (forall i | 0 <= i < |ps| :: low <= ps[i] <= 100.0) && forall i, j | 0 <= i < j < |ps| :: ps[i] <= ps[j]
  }

  lemma SortedCons(p: real, ps: seq<real>, low: real)
    requires low <= p <= 100.0 && Sorted(ps, p)
    ensures Sorted([p] + ps, low)
  {}

  /** Over a whole transaction the percentages never fall and stay at or below 100. */
  lemma {:induction false} TransactionRun(total: nat, done: nat, part: real, steps: seq<Step>)
    requires done < total && 0.0 <= part <= 1.0 && ProperSteps(total, done, part, steps)
    ensures Sorted(StepsNotified(total, done, steps), TransactionPercent(done, part, total))
    decreases |steps|
  {
    if steps != [] {
      match steps[0]
      case Next(index) =>
        TransactionPercents(done, part, index, 0.0, total);
        TransactionRun(total, index, 0.0, steps[1..]);
        SortedCons(TransactionPercent(index, 0.0, total), StepsNotified(total, index, steps[1..]), TransactionPercent(done, part, total));
      case Share(more) =>
        TransactionPercents(done, part, done, more, total);
        TransactionRun(total, done, more, steps[1..]);
        SortedCons(TransactionPercent(done, more, total), StepsNotified(total, done, steps[1..]), TransactionPercent(done, part, total));
    }
  }

  /** What dnf5's three phases report; the first one has weight 0 and no percentages. */
  function Dnf5Stream(fetched: seq<real>, upgraded: seq<real>): seq<int> {
    Stream(FirstEnd(0, 55, 45), SecondEnd(0, 55, 45), [], fetched, upgraded)
  }

  lemma Dnf5StreamStrict(fetched: seq<real>, upgraded: seq<real>)
    requires Percents(fetched) && Percents(upgraded)
    ensures var all := Dnf5Stream(fetched, upgraded);
            Increasing(all) && |all| <= 10000 && forall c | c in all :: 0 < c <= 10000
  {
    hide Stream, Increasing, FirstEnd, SecondEnd, NonDecreasing;
    assert Percents([]);
    ShippedWeights(0, 55, 45);
    EndsOrdered(0, 55, 45);
    StreamBounds(FirstEnd(0, 55, 45), SecondEnd(0, 55, 45), [], fetched, upgraded);
  }

  /**
   From callbacks to reports: a dnf5 upgrade whose downloads grow within their sizes and whose transaction
   goes forward reports strictly increasing hundredths between 0 and 100, at most 10000 of them.
   */
  lemma Dnf5Upgrade(c: Dnf5, sizes: map<nat, real>, events: seq<Event>, total: nat, steps: seq<Step>)
    requires Agrees(c, sizes) && ProperRun(c, sizes, events)
    requires total > 0 && ProperSteps(total, 0, 0.0, steps)
    ensures var all := Dnf5Stream(Dnf5Notified(c, sizes, events), StepsNotified(total, 0, steps));
            Increasing(all) && |all| <= 10000 && forall cents | cents in all :: 0 < cents <= 10000
  {
    hide Dnf5Stream, Dnf5Notified, ProperRun, ProperSteps, StepsNotified, Agrees, Increasing;
    Dnf5RunPercents(c, sizes, events);
    TransactionRun(total, 0, 0.0, steps);
    assert TransactionPercent(0, 0.0, total) == 0.0;
    Dnf5StreamStrict(Dnf5Notified(c, sizes, events), StepsNotified(total, 0, steps));
  }
}
