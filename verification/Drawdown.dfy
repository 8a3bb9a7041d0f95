/** The running-peak drawdown of the simulator against its definition over all pairs of points. */
module Drawdown {
  import opened Reals
  import opened Simulator
  import opened SimulatorLaws

  function Equities(points: seq<EquityPoint>): (es: seq<real>) {
    if points == [] then [] else Equities(points[..|points| - 1]) + [points[|points| - 1].equity]
  }

  /** Initial capital, then the recorded equity after each candle. */
  function Curve(c: Config, s: State): (es: seq<real>) {
    [c.initialCapital] + Equities(s.equityPoints)
  }

  ghost predicate Positive(es: seq<real>) {
    forall i :: 0 <= i < |es| ==> es[i] > 0.0
  }

  ghost predicate IsPeak(es: seq<real>, peak: real) {
    (forall i :: 0 <= i < |es| ==> es[i] <= peak) && exists i :: 0 <= i < |es| && es[i] == peak
  }

  /** d is the largest drop from any point to any later (or the same) point. */
  ghost predicate IsMaxDrop(es: seq<real>, d: real)
    requires Positive(es)
  {
    && (forall i, j :: 0 <= i <= j < |es| ==> PercentDrop(es[i], es[j]) <= d)
    && exists i, j :: 0 <= i <= j < |es| && PercentDrop(es[i], es[j]) == d
  }

  lemma DropBounds(from: real, to: real)
    requires 0.0 < to <= from
    ensures 0.0 <= PercentDrop(from, to) < 100.0
  {
    QuotientPositive(to, from);
    PercentDropIsComplement(from, to);
    QuotientOrder(to, to, to, from);
  }

  /** One more equity point: comparing it with the running peak is comparing it with every earlier point. */
  lemma Extend(es: seq<real>, peak: real, d: real, e: real)
    requires Positive(es) && es != [] && e > 0.0
    requires IsPeak(es, peak) && IsMaxDrop(es, d) && d >= 0.0
    ensures Positive(es + [e])
    ensures IsPeak(es + [e], Max(peak, e))
    ensures IsMaxDrop(es + [e], Max(d, PercentDrop(Max(peak, e), e)))
  {
    var fs, p := es + [e], Max(peak, e);
    var n := |es|;
    var pi: int :| 0 <= pi < n && es[pi] == peak;
    assert fs[pi] == peak && fs[n] == e;
    var nd := Max(d, PercentDrop(p, e));
    forall i, j | 0 <= i <= j < |fs|
      ensures PercentDrop(fs[i], fs[j]) <= nd
    {
      if j < n {
        assert PercentDrop(es[i], es[j]) <= d;
      } else {
        PercentDropGrows(fs[i], e, p, e);
      }
    }
    if nd == d {
      var i, j :| 0 <= i <= j < n && PercentDrop(es[i], es[j]) == d;
      assert PercentDrop(fs[i], fs[j]) == d;
    } else {
      var i := if p == e then n else pi;
      assert PercentDrop(fs[i], fs[n]) == nd;
    }
  }

  ghost predicate Tracked(c: Config, s: State) {
    && Positive(Curve(c, s))
    && IsPeak(Curve(c, s), s.peakEquity)
    && IsMaxDrop(Curve(c, s), s.maxDrawdownPercent)
    && 0.0 <= s.maxDrawdownPercent < 100.0
  }

  lemma TrackedMark(c: Config, s: State, k: Candle)
    requires Tracked(c, s) && EquityAt(s, k.close) > 0.0
    ensures Tracked(c, Mark(s, k))
  {
    var e := EquityAt(s, k.close);
    var es := Curve(c, s);
    assert Mark(s, k).equityPoints[..|s.equityPoints|] == s.equityPoints;
    assert Curve(c, Mark(s, k)) == es + [e];
    hide EquityAt, Curve;
    Extend(es, s.peakEquity, s.maxDrawdownPercent, e);
    DropBounds(Max(s.peakEquity, e), e);
  }

  lemma TrackedSame(c: Config, s: State, t: State)
    requires Tracked(c, s) && SameCurve(s, t)
    ensures Tracked(c, t)
  {
    assert Curve(c, t) == Curve(c, s);
  }

  lemma TrackedInit(c: Config, close: real)
    ensures Tracked(c, Init(c, close))
  {
    var es := Curve(c, Init(c, close));
    assert es[0] == c.initialCapital && PercentDrop(es[0], es[0]) == 0.0;
  }
}
