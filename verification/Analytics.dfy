/**
 The capital-deployed figure of a backtest report: the trade log is replayed
 into a parent cost and a map from level to open independent cost.
 */
module Analytics {
  import opened Reals
  import opened Simulator

  /* ---- Capital deployed ---- */

  /** An insertion-ordered map from level to open cost, as the report keeps it. */
  type LevelCosts = seq<(nat, real)>

  datatype Book = Book(parent: real, independent: LevelCosts)

  function Position(m: LevelCosts, level: nat): (i: nat)
    ensures i <= |m|
    ensures i < |m| ==> m[i].0 == level
    ensures forall j :: 0 <= j < i ==> m[j].0 != level
  {
    if m == [] then 0 else if m[0].0 == level then 0 else 1 + Position(m[1..], level)
  }

  function Put(m: LevelCosts, level: nat, cost: real): LevelCosts {
    var i := Position(m, level);
    if i < |m| then m[i := (level, cost)] else m + [(level, cost)]
  }

  function Remove(m: LevelCosts, level: nat): LevelCosts {
    var i := Position(m, level);
    if i < |m| then m[..i] + m[i + 1..] else m
  }

  function Costs(m: LevelCosts): real {
    if m == [] then 0.0 else Costs(m[..|m| - 1]) + m[|m| - 1].1
  }

  function Apply(b: Book, t: Trade): Book {
    match t.kind
    case ParentEntry => b.(parent := b.parent + t.quoteAmount)
    case RecoveryEntry => b.(parent := b.parent + t.quoteAmount)
    case IndependentEntry => b.(independent := Put(b.independent, t.level, t.quoteAmount))
    case ParentExit => b.(parent := 0.0)
    case IndependentExit => b.(independent := Remove(b.independent, t.level))
  }

  function BookAfter(trades: seq<Trade>): Book {
    if trades == [] then Book(0.0, []) else Apply(BookAfter(trades[..|trades| - 1]), trades[|trades| - 1])
  }

  function Deployed(b: Book): real {
    b.parent + Costs(b.independent)
  }

  function PeakDeployed(trades: seq<Trade>): real {
    if trades == [] then 0.0 else Max(PeakDeployed(trades[..|trades| - 1]), Deployed(BookAfter(trades)))
  }

  method MaximumCapitalDeployed(trades: seq<Trade>) returns (maximum: real)
    ensures maximum == PeakDeployed(trades)
  {
    var book := Book(0.0, []);
    maximum := 0.0;
    for i := 0 to |trades|
      invariant book == BookAfter(trades[..i])
      invariant maximum == PeakDeployed(trades[..i])
    {
      assert trades[..i + 1][..i] == trades[..i];
      var trade := trades[i];
      if trade.kind == ParentEntry || trade.kind == RecoveryEntry {
        book := book.(parent := book.parent + trade.quoteAmount);
      } else if trade.kind == IndependentEntry {
        book := book.(independent := Put(book.independent, trade.level, trade.quoteAmount));
      } else if trade.kind == ParentExit {
        book := book.(parent := 0.0);
      } else if trade.kind == IndependentExit {
        book := book.(independent := Remove(book.independent, trade.level));
      }
      var deployed := SumCosts(book);
      maximum := Max(maximum, deployed);
    }
    assert trades[..|trades|] == trades;
  }

  method SumCosts(b: Book) returns (deployed: real)
    ensures deployed == Deployed(b)
  {
    deployed := b.parent;
    for i := 0 to |b.independent|
      invariant deployed == b.parent + Costs(b.independent[..i])
    {
      assert b.independent[..i + 1][..i] == b.independent[..i];
      deployed := deployed + b.independent[i].1;
    }
    assert b.independent[..|b.independent|] == b.independent;
  }

  lemma BookAppend(trades: seq<Trade>, t: Trade)
    ensures BookAfter(trades + [t]) == Apply(BookAfter(trades), t)
  {
    assert (trades + [t])[..|trades|] == trades;
  }

  /* ---- The simulator's lots as a level map ---- */

  function LotBook(lots: seq<Lot>): (m: LevelCosts)
    ensures |m| == |lots|
    ensures forall i :: 0 <= i < |m| ==> m[i] == (lots[i].level, lots[i].cost)
  {
    seq(|lots|, i requires 0 <= i < |lots| => (lots[i].level, lots[i].cost))
  }

  ghost predicate DistinctLevels(lots: seq<Lot>) {
    forall i, j :: 0 <= i < j < |lots| ==> lots[i].level < lots[j].level
  }

  lemma {:induction false} LotBookCosts(lots: seq<Lot>)
    ensures Costs(LotBook(lots)) == LotCosts(lots)
  {
    if lots != [] {
      LotBookCosts(lots[..|lots| - 1]);
      assert LotBook(lots)[..|lots| - 1] == LotBook(lots[..|lots| - 1]);
    }
  }

  lemma PutFresh(lots: seq<Lot>, lot: Lot)
    requires forall i :: 0 <= i < |lots| ==> lots[i].level != lot.level
    ensures Put(LotBook(lots), lot.level, lot.cost) == LotBook(lots + [lot])
  {
  }

  lemma RemoveAt(lots: seq<Lot>, i: nat)
    requires i < |lots| && DistinctLevels(lots)
    ensures Remove(LotBook(lots), lots[i].level) == LotBook(WithoutLot(lots, i))
    ensures DistinctLevels(WithoutLot(lots, i))
  {
    var m := LotBook(lots);
    assert m[i].0 == lots[i].level;
    var p := Position(m, lots[i].level);
    assert p == i;
  }
}
