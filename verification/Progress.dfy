/**
 Progress of one upgrade: percentages of three phases are mapped to adjacent intervals of [0, 100],
 rounded to hundredths and reported if they exceed everything the phase has reported so far.

 Percentages are exact reals; a reported value is kept as its integer number of hundredths.
 */
module Progress {

  // ---------------------------------------------------------------- rounding

  /** `round(x, 2)` in hundredths: to the nearest, ties to even. */
  function Cents(x: real): int {
    var low := (x * 100.0).Floor;
    var rest := x * 100.0 - low as real;
    if rest < 0.5 || (rest == 0.5 && low % 2 == 0) then low else low + 1
  }

  function Value(cents: int): real {
    cents as real / 100.0
  }

  /** The nearest hundredth lies above `x`. */
  predicate RoundsUp(x: real) {
    x < Value(Cents(x))
  }

  lemma CentsNear(x: real)
    ensures (x * 100.0).Floor <= Cents(x) <= (x * 100.0).Floor + 1
    ensures Cents(x) == (x * 100.0).Floor + if RoundsUp(x) then 1 else 0
    ensures forall c: int :: x < Value(c) ==> Cents(x) <= c && (x * 100.0).Floor < c
  {}

  lemma CentsMonotone(x: real, y: real)
    requires x <= y
    ensures Cents(x) <= Cents(y)
  {}

  lemma CentsFixesGrid(c: int)
    ensures Cents(Value(c)) == c && !RoundsUp(Value(c))
  {
    assert Value(c) * 100.0 == c as real;
  }

  // ---------------------------------------------------------------- one phase

  /** A phase's interval, the last percentage it compares with, and its reports in hundredths. */
  datatype Phase = Phase(start: real, stop: real, last: real, out: seq<int>)

  function Position(start: real, stop: real, percent: real): real {
    start + percent * (stop - start) / 100.0
  }

  function Notify(p: Phase, percent: real): Phase {
    var cents := Cents(Position(p.start, p.stop, percent));
    if p.last < Value(cents) then p.(last := Value(cents), out := p.out + [cents]) else p
  }

  function NotifyAll(p: Phase, percents: seq<real>): Phase {
    if percents == [] then p
    else Notify(NotifyAll(p, percents[..|percents| - 1]), percents[|percents| - 1])
  }

  function Fresh(start: real, stop: real): Phase {
    Phase(start, stop, start, [])
  }

  predicate Percents(ps: seq<real>) {
    forall i | 0 <= i < |ps| :: 0.0 <= ps[i] <= 100.0
  }

  predicate Increasing(s: seq<int>) {
    forall i, j | 0 <= i < j < |s| :: s[i] < s[j]
  }

  predicate NonDecreasing(s: seq<int>) {
    forall i, j | 0 <= i < j < |s| :: s[i] <= s[j]
  }

  lemma ShareOf(percent: real, width: real)
    requires 0.0 <= width && 0.0 <= percent <= 100.0
    ensures 0.0 <= percent * width / 100.0 <= width
  {
    var rest := (100.0 - percent) * width;
    assert rest >= 0.0 && percent * width == 100.0 * width - rest;
  }

  lemma AddShare(start: real, share: real, width: real)
    requires 0.0 <= share <= width
    ensures start <= start + share <= start + width
  {}

  lemma PositionWithin(start: real, stop: real, percent: real)
    requires start <= stop && 0.0 <= percent <= 100.0
    ensures start <= Position(start, stop, percent) <= stop
  {
    var width := stop - start;
    var share := percent * width / 100.0;
    ShareOf(percent, width);
    AddShare(start, share, width);
    assert Position(start, stop, percent) == start + share;
  }

  /** The filter's state: strictly increasing hundredths above the start, the last of which is remembered. */
  ghost predicate Filtered(p: Phase) {
    && Increasing(p.out)
    && (forall c | c in p.out :: p.start < Value(c))
    && p.last == if p.out == [] then p.start else Value(p.out[|p.out| - 1])
  }

  /** What a phase has reported if all percentages were in range: nothing beyond its rounded end, either. */
  ghost predicate GoodPhase(p: Phase) {
    Filtered(p) && forall c | c in p.out :: c <= Cents(p.stop)
  }

  /** Comparing with the last report is comparing with the start and with every report so far. */
  lemma FilterMeans(p: Phase, cents: int)
    requires Filtered(p)
    ensures p.last < Value(cents) <==> p.start < Value(cents) && forall c | c in p.out :: c < cents
    ensures p.last < Value(cents) ==> Filtered(p.(last := Value(cents), out := p.out + [cents]))
  {
    if p.out != [] {
      assert p.out[|p.out| - 1] in p.out;
      forall c | c in p.out ensures c <= p.out[|p.out| - 1] {
        var k :| 0 <= k < |p.out| && p.out[k] == c;
      }
    }
  }

  lemma NotifyKeeps(p: Phase, percent: real)
    requires p.start <= p.stop && GoodPhase(p) && 0.0 <= percent <= 100.0
    ensures GoodPhase(Notify(p, percent))
  {
    PositionWithin(p.start, p.stop, percent);
    CentsMonotone(Position(p.start, p.stop, percent), p.stop);
    FilterMeans(p, Cents(Position(p.start, p.stop, percent)));
  }

  lemma {:induction false} PhaseReports(start: real, stop: real, percents: seq<real>)
    requires start <= stop && Percents(percents)
    ensures var p := NotifyAll(Fresh(start, stop), percents);
            GoodPhase(p) && p.start == start && p.stop == stop
  {
    if percents != [] {
      var n := |percents| - 1;
      PhaseReports(start, stop, percents[..n]);
      NotifyKeeps(NotifyAll(Fresh(start, stop), percents[..n]), percents[n]);
    }
  }

  lemma {:induction false} IncreasingLength(s: seq<int>, low: int, high: int)
    requires Increasing(s) && low <= high && forall c | c in s :: low < c <= high
    ensures |s| <= high - low
  {
    if s != [] {
      var n := |s| - 1;
      assert s[n] in s;
      if n > 0 {
        assert s[n - 1] in s && s[n - 1] < s[n];
      }
      forall c | c in s[..n] ensures low < c <= s[n] - 1 {
        var k :| 0 <= k < n && s[..n][k] == c;
        assert s[k] in s && s[k] < s[n];
      }
      IncreasingLength(s[..n], low, s[n] - 1);
    }
  }

  /**
   The number of hundredths nearest to the share `percent` of the way from `start` to `stop`, an even one if
   two are equally near.
   */
  ghost predicate IsNearest(cents: int, start: real, stop: real, percent: real) {
    var error := cents as real - (100.0 * start + percent * (stop - start));
    -0.5 <= error <= 0.5 && (error == 0.5 || error == -0.5 ==> cents % 2 == 0)
  }

  /** There is only one. */
  lemma NearestIsUnique(a: int, b: int, start: real, stop: real, percent: real)
    requires IsNearest(a, start, stop, percent) && IsNearest(b, start, stop, percent)
    ensures a == b
  {}

  lemma CentsNearest(x: real)
    ensures var error := Cents(x) as real - x * 100.0;
            -0.5 <= error <= 0.5 && (error == 0.5 || error == -0.5 ==> Cents(x) % 2 == 0)
  {}

  lemma PositionNearest(start: real, stop: real, percent: real)
    ensures IsNearest(Cents(Position(start, stop, percent)), start, stop, percent)
  {
    var way := percent * (stop - start);
    CentsNearest(Position(start, stop, percent));
    assert Position(start, stop, percent) == start + way / 100.0;
    assert (start + way / 100.0) * 100.0 == 100.0 * start + way;
  }

  // ---------------------------------------------------------------- three phases

  class ProgressPhase {
    const weight: nat
    var start: real
    var stop: real
    var last: real
    var out: seq<int>

    ghost function View(): Phase
      reads this
    {
      Phase(start, stop, last, out)
    }

    constructor (weight: nat)
      ensures this.weight == weight && out == []
    {
      this.weight := weight;
      start, stop, last, out := 0.0, 0.0, 0.0, [];
    }

    method Init(start: real, stop: real)
      modifies this
      ensures View() == Phase(start, stop, start, old(out))
      ensures old(out) == [] ==> Filtered(View())
    {
      this.start := start;
      this.stop := stop;
      last := start;
    }

    /**
     `notify_callback`, for any percentage: the rounded position is reported exactly if it lies above the
     start of the phase and above everything the phase has reported.
     */
    method NotifyCallback(percent: real)
      requires Filtered(View())
      modifies this
      ensures Filtered(View()) && start == old(start) && stop == old(stop)
      ensures exists cents: int ::
                && IsNearest(cents, start, stop, percent)
                && out == old(out) + if start < cents as real / 100.0 && (forall c | c in old(out) :: c < cents) then [cents] else []
      ensures View() == Notify(old(View()), percent)
    {
      var cents := Cents(Position(start, stop, percent));
      FilterMeans(View(), cents);
      PositionNearest(start, stop, percent);
      if last < Value(cents) {
        out := out + [cents];
        last := Value(cents);
      }
    }
  }

  /** The ends of the first and of the second phase. */
  function FirstEnd(update: nat, fetch: nat, upgrade: nat): real
    requires update + fetch + upgrade > 0
  {
    update as real / (update + fetch + upgrade) as real * 100.0
  }

  function SecondEnd(update: nat, fetch: nat, upgrade: nat): real
    requires update + fetch + upgrade > 0
  {
    (update + fetch) as real / (update + fetch + upgrade) as real * 100.0
  }

  lemma ShareTimes(part: nat, total: nat)
    requires total > 0
    ensures part as real / total as real * 100.0 * total as real == 100.0 * part as real
  {
    assert part as real / total as real * total as real == part as real;
  }

  /** The ends divide [0, 100] in proportion to the weights. */
  lemma EndsOrdered(update: nat, fetch: nat, upgrade: nat)
    requires update + fetch + upgrade > 0
    ensures 0.0 <= FirstEnd(update, fetch, upgrade) <= SecondEnd(update, fetch, upgrade) <= 100.0
    ensures SecondEnd(update, fetch, upgrade)
            == fetch as real / (update + fetch + upgrade) as real * 100.0 + FirstEnd(update, fetch, upgrade)
    ensures FirstEnd(update, fetch, upgrade) * (update + fetch + upgrade) as real == 100.0 * update as real
    ensures SecondEnd(update, fetch, upgrade) * (update + fetch + upgrade) as real == 100.0 * (update + fetch) as real
  {
    ShareTimes(update, update + fetch + upgrade);
    ShareTimes(update + fetch, update + fetch + upgrade);
    var total := (update + fetch + upgrade) as real;
    assert (update + fetch) as real / total <= 1.0;
    assert update as real / total <= (update + fetch) as real / total;
    assert (update + fetch) as real / total == update as real / total + fetch as real / total;
  }

  /** `ProgressReporter.__init__`: the three phases get adjacent intervals that make up [0, 100]. */
  method Divide(update: ProgressPhase, fetch: ProgressPhase, upgrade: ProgressPhase)
    requires update != fetch && fetch != upgrade && update != upgrade
    requires update.weight + fetch.weight + upgrade.weight > 0
    requires update.out == fetch.out == upgrade.out == []
    modifies update, fetch, upgrade
    ensures var first := FirstEnd(update.weight, fetch.weight, upgrade.weight);
            var second := SecondEnd(update.weight, fetch.weight, upgrade.weight);
            && update.View() == Fresh(0.0, first)
            && fetch.View() == Fresh(first, second)
            && upgrade.View() == Fresh(second, 100.0)
  {
    var total := update.weight + fetch.weight + upgrade.weight;
    var updateEnd := update.weight as real / total as real * 100.0;
    var fetchEnd := fetch.weight as real / total as real * 100.0 + updateEnd;
    EndsOrdered(update.weight, fetch.weight, upgrade.weight);
    update.Init(0.0, updateEnd);
    fetch.Init(updateEnd, fetchEnd);
    upgrade.Init(fetchEnd, 100.0);
  }

  /** Everything reported when the phases run in order on these percentages. */
  function Stream(first: real, second: real, one: seq<real>, two: seq<real>, three: seq<real>): seq<int> {
    NotifyAll(Fresh(0.0, first), one).out
    + NotifyAll(Fresh(first, second), two).out
    + NotifyAll(Fresh(second, 100.0), three).out
  }

  function Surplus(x: real): int {
    if RoundsUp(x) then 1 else 0
  }

  lemma PhaseLength(p: Phase)
    requires GoodPhase(p) && p.start <= p.stop
    ensures |p.out| <= Cents(p.stop) - Cents(p.start) + Surplus(p.start)
  {
    CentsNear(p.start);
    CentsMonotone(p.start, p.stop);
    IncreasingLength(p.out, (p.start * 100.0).Floor, Cents(p.stop));
  }

  /** Reports of a phase are at most the rounded end of it, and at least the rounded end of the one before. */
  lemma PhaseRange(p: Phase)
    requires GoodPhase(p)
    ensures forall c | c in p.out :: Cents(p.start) <= c <= Cents(p.stop)
    ensures !RoundsUp(p.start) ==> forall c | c in p.out :: Cents(p.start) < c
  {
    CentsNear(p.start);
  }

  lemma JoinNonDecreasing(a: seq<int>, b: seq<int>, middle: int)
    requires NonDecreasing(a) && NonDecreasing(b)
    requires (forall c | c in a :: c <= middle) && forall c | c in b :: middle <= c
    ensures NonDecreasing(a + b)
  {
    forall i, j | 0 <= i < j < |a + b| ensures (a + b)[i] <= (a + b)[j] {
      if i < |a| <= j {
        assert a[i] in a && b[j - |a|] in b;
      }
    }
  }

  lemma JoinIncreasing(a: seq<int>, b: seq<int>, middle: int)
    requires Increasing(a) && Increasing(b)
    requires (forall c | c in a :: c <= middle) && forall c | c in b :: middle < c
    ensures Increasing(a + b)
  {
    forall i, j | 0 <= i < j < |a + b| ensures (a + b)[i] < (a + b)[j] {
      if i < |a| <= j {
        assert a[i] in a && b[j - |a|] in b;
      }
    }
  }

  lemma CentsOfEnds()
    ensures Cents(0.0) == 0 && !RoundsUp(0.0)
    ensures Cents(100.0) == 10000 && !RoundsUp(100.0)
  {
    assert Value(0) == 0.0 && Value(10000) == 100.0;
    CentsFixesGrid(0);
    CentsFixesGrid(10000);
  }

  ghost predicate Ends(first: real, second: real) {
    0.0 <= first <= second <= 100.0
  }

  /** The facts about the three phases of a stream. */
  lemma PhasesOf(first: real, second: real, one: seq<real>, two: seq<real>, three: seq<real>)
    requires Ends(first, second) && Percents(one) && Percents(two) && Percents(three)
    ensures GoodPhase(NotifyAll(Fresh(0.0, first), one)) && GoodPhase(NotifyAll(Fresh(first, second), two))
            && GoodPhase(NotifyAll(Fresh(second, 100.0), three))
    ensures NotifyAll(Fresh(0.0, first), one).start == 0.0 && NotifyAll(Fresh(0.0, first), one).stop == first
    ensures NotifyAll(Fresh(first, second), two).start == first && NotifyAll(Fresh(first, second), two).stop == second
    ensures NotifyAll(Fresh(second, 100.0), three).start == second && NotifyAll(Fresh(second, 100.0), three).stop == 100.0
  {
    PhaseReports(0.0, first, one);
    PhaseReports(first, second, two);
    PhaseReports(second, 100.0, three);
  }

  lemma StreamLength(first: real, second: real, one: seq<real>, two: seq<real>, three: seq<real>)
    requires Ends(first, second) && Percents(one) && Percents(two) && Percents(three)
    ensures |Stream(first, second, one, two, three)| <= 10000 + Surplus(first) + Surplus(second)
  {
    PhasesOf(first, second, one, two, three);
    CentsOfEnds();
    PhaseLength(NotifyAll(Fresh(0.0, first), one));
    PhaseLength(NotifyAll(Fresh(first, second), two));
    PhaseLength(NotifyAll(Fresh(second, 100.0), three));
  }

  /**
   For every division of [0, 100] and every percentages: the reports never decrease, lie in (0, 100]
   and are at most 10000, plus one for each inner boundary that is rounded up.
   */
  lemma StreamBounds(first: real, second: real, one: seq<real>, two: seq<real>, three: seq<real>)
    requires Ends(first, second) && Percents(one) && Percents(two) && Percents(three)
    ensures var all := Stream(first, second, one, two, three);
            && NonDecreasing(all)
            && (forall c | c in all :: 0 < c <= 10000)
            && |all| <= 10000 + Surplus(first) + Surplus(second)
  {
    PhasesOf(first, second, one, two, three);
    CentsOfEnds();
    CentsMonotone(0.0, first);
    CentsMonotone(first, second);
    CentsMonotone(second, 100.0);
    StreamLength(first, second, one, two, three);
    var a, b, c := NotifyAll(Fresh(0.0, first), one), NotifyAll(Fresh(first, second), two), NotifyAll(Fresh(second, 100.0), three);
    PhaseRange(a);
    PhaseRange(b);
    PhaseRange(c);
    JoinNonDecreasing(a.out, b.out, Cents(first));
    JoinNonDecreasing(a.out + b.out, c.out, Cents(second));
  }

  lemma OneReport(start: real, stop: real, percent: real)
    requires start <= stop && 0.0 <= percent <= 100.0
    requires start < Value(Cents(Position(start, stop, percent)))
    ensures NotifyAll(Fresh(start, stop), [percent]).out == [Cents(Position(start, stop, percent))]
  {
    assert [percent][..0] == [];
  }

  /** A boundary that is rounded up is reported twice by these percentages. */
  lemma BoundaryTwice(start: real, boundary: real, stop: real)
    requires 0.0 <= start <= boundary <= stop && RoundsUp(boundary)
    ensures NotifyAll(Fresh(start, boundary), [100.0]).out == [Cents(boundary)]
    ensures NotifyAll(Fresh(boundary, stop), [0.0]).out == [Cents(boundary)]
  {
    assert Position(start, boundary, 100.0) == boundary && Position(boundary, stop, 0.0) == boundary;
    OneReport(start, boundary, 100.0);
    OneReport(boundary, stop, 0.0);
  }

  /** Every stream is strictly increasing exactly if neither inner boundary is rounded up. */
  lemma StrictIff(first: real, second: real)
    requires Ends(first, second)
    ensures (forall one, two, three | Percents(one) && Percents(two) && Percents(three) ::
               Increasing(Stream(first, second, one, two, three)))
            <==> !RoundsUp(first) && !RoundsUp(second)
  {
    if !RoundsUp(first) && !RoundsUp(second) {
      forall one, two, three | Percents(one) && Percents(two) && Percents(three)
        ensures Increasing(Stream(first, second, one, two, three))
      {
        StrictStream(first, second, one, two, three);
      }
    } else if RoundsUp(first) {
      BoundaryTwice(0.0, first, second);
      var s := Stream(first, second, [100.0], [0.0], []);
      assert s[0] == s[1];
      assert Percents([100.0]) && Percents([0.0]) && Percents([]) && !Increasing(s);
    } else {
      BoundaryTwice(first, second, 100.0);
      var s := Stream(first, second, [], [100.0], [0.0]);
      assert s[0] == s[1];
      assert Percents([100.0]) && Percents([0.0]) && Percents([]) && !Increasing(s);
    }
  }

  lemma StrictStream(first: real, second: real, one: seq<real>, two: seq<real>, three: seq<real>)
    requires Ends(first, second) && Percents(one) && Percents(two) && Percents(three)
    requires !RoundsUp(first) && !RoundsUp(second)
    ensures Increasing(Stream(first, second, one, two, three))
  {
    PhasesOf(first, second, one, two, three);
    CentsMonotone(first, second);
    var a, b, c := NotifyAll(Fresh(0.0, first), one), NotifyAll(Fresh(first, second), two), NotifyAll(Fresh(second, 100.0), three);
    PhaseRange(a);
    PhaseRange(b);
    PhaseRange(c);
    JoinIncreasing(a.out, b.out, Cents(first));
    JoinIncreasing(a.out + b.out, c.out, Cents(second));
  }

  /** The shipped weights (dnf, dnf5, apt) put both boundaries on whole hundredths. */
  lemma ShippedWeights(update: nat, fetch: nat, upgrade: nat)
    requires (update, fetch, upgrade) in {(10, 45, 45), (0, 55, 45), (4, 48, 48)}
    ensures !RoundsUp(FirstEnd(update, fetch, upgrade)) && !RoundsUp(SecondEnd(update, fetch, upgrade))
    ensures forall one, two, three | Percents(one) && Percents(two) && Percents(three) ::
              var all := Stream(FirstEnd(update, fetch, upgrade), SecondEnd(update, fetch, upgrade), one, two, three);
              Increasing(all) && |all| <= 10000
  {
    var first, second := FirstEnd(update, fetch, upgrade), SecondEnd(update, fetch, upgrade);
    assert first == Value(100 * update) && second == Value(100 * (update + fetch));
    CentsFixesGrid(100 * update);
    CentsFixesGrid(100 * (update + fetch));
    EndsOrdered(update, fetch, upgrade);
    StrictIff(first, second);
    forall one, two, three | Percents(one) && Percents(two) && Percents(three)
      ensures |Stream(first, second, one, two, three)| <= 10000
    {
      StreamBounds(first, second, one, two, three);
    }
  }

  /** Equal weights do not: the second boundary, two thirds, is reported by both phases that meet there. */
  lemma EqualWeightsRepeat()
    ensures RoundsUp(SecondEnd(1, 1, 1))
    ensures Stream(FirstEnd(1, 1, 1), SecondEnd(1, 1, 1), [], [100.0], [0.0]) == [6667, 6667]
  {
    var first, second := FirstEnd(1, 1, 1), SecondEnd(1, 1, 1);
    assert second * 3.0 == 200.0 && first * 3.0 == 100.0;
    assert (second * 100.0).Floor == 6666 && Cents(second) == 6667;
    BoundaryTwice(first, second, 100.0);
  }
}
