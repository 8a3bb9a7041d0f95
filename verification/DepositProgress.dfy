/** How far a run of the scanner gets, and how long its ranges are. */
module DepositProgress {
  import opened Reals
  import opened DepositScanner
  import opened DepositLaws

  /** A range of the configured length, or up to the safe head. */
  predicate Spans(scan: Scan, range: Saved) {
    && range.from <= range.to <= scan.safeHead && range.to - range.from + 1 <= scan.blockRange
    && (range.to == scan.safeHead || range.to - range.from + 1 == scan.blockRange)
  }

  predicate SpansFrom(scan: Scan, ranges: seq<Saved>, from: nat) {
    forall i :: from <= i < |ranges| ==> Spans(scan, ranges[i])
  }

  /** At most n ranges are added to the history, and each spans as it should. */
  predicate Adds(scan: Scan, s: State, after: State, n: nat) {
    s.ranges <= after.ranges && |after.ranges| <= |s.ranges| + n && SpansFrom(scan, after.ranges, |s.ranges|)
  }

  lemma AddsTwice(scan: Scan, s: State, t: State, u: State, m: nat, n: nat)
    requires Adds(scan, s, t, m) && Adds(scan, t, u, n)
    ensures Adds(scan, s, u, m + n)
  {
    hide Spans;
    forall i | |s.ranges| <= i < |u.ranges| ensures Spans(scan, u.ranges[i]) {
      if i < |t.ranges| { assert u.ranges[i] == t.ranges[i]; }
    }
  }

  lemma RangeDoneAdds(w: World, s: State, scan: Scan, from: int)
    requires from <= scan.safeHead
    ensures Adds(scan, s, RangeDone(w, s, scan, from), 1)
  {
    hide RangeDone;
    RangeDoneSaves(w, s, scan, from);
  }

  lemma NothingAdded(w: World, s: State, scan: Scan, from: int, ranges: nat, done: nat)
    requires ranges == 0 || from > scan.safeHead
    ensures ApplyWrites(w, s, Prefix(RunWrites(w.chain, scan, from, ranges), done)) == s
  {
  }

  lemma CreditsAdd(w: World, s: State, scan: Scan, from: int, done: nat)
    requires done <= CreditsIn(w, scan, from)
    ensures Adds(scan, s, ApplyWrites(w, s, FirstCredits(w, scan, from, done)), 0)
  {
    hide ApplyWrites, RangeWrites, Spans;
    ChunksCover(w.chain, from, RangeEnd(scan, from), scan.addresses, 0);
    CreditsSaveNothing(w, s, FirstCredits(w, scan, from, done));
  }

  lemma {:induction false} PrefixAdds(w: World, s: State, scan: Scan, from: int, ranges: nat, done: nat)
    ensures Adds(scan, s, ApplyWrites(w, s, Prefix(RunWrites(w.chain, scan, from, ranges), done)), ranges)
    decreases ranges
  {
    hide ApplyWrites, RunWrites, RangeWrites, RangeDone, Prefix, FirstCredits, CreditsIn, Spans;
    if ranges == 0 || from > scan.safeHead {
      NothingAdded(w, s, scan, from, ranges, done);
    } else {
      PrefixOfRun(w, s, scan, from, ranges, done);
      if done <= CreditsIn(w, scan, from) {
        CreditsAdd(w, s, scan, from, done);
      } else {
        hide Adds;
        var t, rest: nat := RangeDone(w, s, scan, from), done - CreditsIn(w, scan, from) - 1;
        RangeDoneAdds(w, s, scan, from);
        PrefixAdds(w, t, scan, RangeEnd(scan, from) + 1, ranges - 1, rest);
        AddsTwice(scan, s, t, ApplyWrites(w, t, Prefix(RunWrites(w.chain, scan, RangeEnd(scan, from) + 1, ranges - 1), rest)), 1, ranges - 1);
      }
    }
  }

  /** A run, complete or not, saves at most its number of ranges, each of the configured length or up to its safe head. */
  lemma RangesSpan(w: World, s: State, scan: Scan, done: nat)
    ensures var after := ScanOnce(w, s, scan, done);
            && s.ranges <= after.ranges && |after.ranges| <= |s.ranges| + scan.maxRanges
            && SpansFrom(scan, after.ranges, |s.ranges|)
  {
    PrefixAdds(w, s, scan, StartOf(s, scan), scan.maxRanges, done);
    hide ApplyWrites, RunWrites;
  }

  lemma {:induction false} CompleteRun(w: World, s: State, scan: Scan, from: int, ranges: nat)
    ensures ApplyWrites(w, s, RunWrites(w.chain, scan, from, ranges)).lastScanned
         == if ranges == 0 || from > scan.safeHead then s.lastScanned
            else Some(Lower(scan.safeHead, from + scan.blockRange * ranges - 1))
    decreases ranges
  {
    if ranges == 0 || from > scan.safeHead {
      NoMoreRanges(w, s, scan, from, ranges);
    } else {
      RangeStep(w, s, scan, from, ranges);
      CompleteRun(w, RangeDone(w, s, scan, from), scan, RangeEnd(scan, from) + 1, ranges - 1);
      assert scan.blockRange * ranges == scan.blockRange + scan.blockRange * (ranges - 1);
      if ranges > 1 { AtLeastOne(scan.blockRange, ranges - 1); }
      hide ApplyWrites, RunWrites, RangeWrites;
    }
  }

  lemma AtLeastOne(x: nat, y: nat)
    requires x >= 1 && y >= 1
    ensures x * y >= 1
  {
  }

  function Lower(x: int, y: int): int {
    if x < y then x else y
  }

  /** A complete run gets to its safe head, or as many blocks on as its ranges hold. */
  lemma CompleteRunGetsFar(w: World, s: State, scan: Scan, done: nat)
    requires done >= |RunWrites(w.chain, scan, StartOf(s, scan), scan.maxRanges)|
    ensures var from := if s.lastScanned.Some? then s.lastScanned.value + 1
                        else if scan.startBlock.Some? then scan.startBlock.value else scan.safeHead;
            ScanOnce(w, s, scan, done).lastScanned
            == if scan.maxRanges == 0 || from > scan.safeHead then s.lastScanned
               else Some(Lower(scan.safeHead, from + scan.blockRange * scan.maxRanges - 1))
  {
    CompleteRun(w, s, scan, StartOf(s, scan), scan.maxRanges);
    hide ApplyWrites, RunWrites;
  }
}
