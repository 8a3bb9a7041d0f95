/**
 The deposit scanner: confirmed blocks are read range by range, every transfer
 to a known address is credited, and progress is saved after each range. A run
 may die at any point; the next one starts from the saved progress.

 A run is the list of its database writes, and a crash keeps a prefix of it.
 The chain is every transfer there will ever be; what is confirmed never changes.
 Which account owns an address never changes either.
 */
module DepositScanner {
  import opened Reals
  import Billing

  type Address = nat

  datatype Log = Log(id: nat, block: int, to: Address, amountQuote: real)

  /** Owners of deposit addresses, and the chain: an id names one log. */
  datatype WorldRow = World(owners: map<Address, Billing.User>, chain: seq<Log>)

  type World = w: WorldRow | forall i, j :: 0 <= i < j < |w.chain| ==> w.chain[i].id != w.chain[j].id
    witness WorldRow.World(map[], [])

  const ADDRESS_CHUNK: nat := 200

  /** What one run reads before it starts: the safe head and the known addresses; its limits are configured. */
  datatype ScanRow = Scan(safeHead: int, startBlock: Option<int>, addresses: seq<Address>, blockRange: nat, maxRanges: nat)

  type Scan = s: ScanRow | s.blockRange >= 1 witness ScanRow.Scan(0, None, [], 1, 0)

  /** A range whose progress was saved, with the addresses and the head that its run knew. */
  datatype Saved = Saved(from: int, to: int, addresses: seq<Address>, safeHead: int)

  /** `ranges` is the history of saved ranges; the source keeps only the last block of the last one. */
  datatype State = State(lastScanned: Option<int>, ledger: Billing.Ledger, ranges: seq<Saved>)

  datatype Write = Credit(log: Log) | Save(range: Saved)

  function OwnerOf(w: World, address: Address): Option<Billing.User> {
    if address in w.owners then Some(w.owners[address]) else None
  }

  function ApplyWrite(w: World, s: State, write: Write): State {
    match write
    case Credit(log) => s.(ledger := Billing.CreditDeposit(s.ledger, OwnerOf(w, log.to), log.id, log.amountQuote))
    case Save(range) => s.(lastScanned := Some(range.to), ranges := s.ranges + [range])
  }

  function ApplyWrites(w: World, s: State, writes: seq<Write>): State {
    if writes == [] then s else ApplyWrite(w, ApplyWrites(w, s, writes[..|writes| - 1]), writes[|writes| - 1])
  }

  /* ---- What a run writes ---- */

  predicate Matches(log: Log, from: int, to: int, addresses: seq<Address>) {
    from <= log.block <= to && log.to in addresses
  }

  /** The node's answer to a log query, in chain order. */
  function GetLogs(chain: seq<Log>, from: int, to: int, addresses: seq<Address>): seq<Log> {
    if chain == [] then []
    else
      GetLogs(chain[..|chain| - 1], from, to, addresses) +
      (if Matches(chain[|chain| - 1], from, to, addresses) then [chain[|chain| - 1]] else [])
  }

  function Credits(logs: seq<Log>): seq<Write> {
    if logs == [] then [] else Credits(logs[..|logs| - 1]) + [Credit(logs[|logs| - 1])]
  }

  function ChunkEnd(addresses: seq<Address>, index: nat): nat
    requires index <= |addresses|
    ensures index <= ChunkEnd(addresses, index) <= |addresses|
  {
    if index + ADDRESS_CHUNK < |addresses| then index + ADDRESS_CHUNK else |addresses|
  }

  /** The credits of one block range, one query per chunk of addresses. */
  function RangeWrites(chain: seq<Log>, from: int, to: int, addresses: seq<Address>, index: nat): seq<Write>
    requires index <= |addresses|
    decreases |addresses| - index
  {
    if index == |addresses| then []
    else
      Credits(GetLogs(chain, from, to, addresses[index..ChunkEnd(addresses, index)])) +
      RangeWrites(chain, from, to, addresses, ChunkEnd(addresses, index))
  }

  function RangeEnd(scan: Scan, from: int): int {
    if from + scan.blockRange - 1 < scan.safeHead then from + scan.blockRange - 1 else scan.safeHead
  }

  function SavedRange(scan: Scan, from: int): Saved {
    Saved(from, RangeEnd(scan, from), scan.addresses, scan.safeHead)
  }

  function RunWrites(chain: seq<Log>, scan: Scan, from: int, ranges: nat): seq<Write>
    decreases ranges
  {
    if ranges == 0 || from > scan.safeHead then []
    else
      RangeWrites(chain, from, RangeEnd(scan, from), scan.addresses, 0) + [Save(SavedRange(scan, from))] +
      RunWrites(chain, scan, RangeEnd(scan, from) + 1, ranges - 1)
  }

  function StartOf(s: State, scan: Scan): int {
    if s.lastScanned.Some? then s.lastScanned.value + 1
    else if scan.startBlock.Some? then scan.startBlock.value else scan.safeHead
  }

  /** A run that dies after its first `done` writes; a complete one when there are no more. */
  function ScanOnce(w: World, s: State, scan: Scan, done: nat): State {
    var writes := RunWrites(w.chain, scan, StartOf(s, scan), scan.maxRanges);
    ApplyWrites(w, s, if done < |writes| then writes[..done] else writes)
  }

  /** Runs, complete or not, and other billing operations in between. */
  datatype Event = Scanned(scan: Scan, done: nat) | Billed(operation: Billing.Operation)

  function Next(w: World, s: State, e: Event): State {
    match e
    case Scanned(scan, done) => ScanOnce(w, s, scan, done)
    case Billed(operation) => s.(ledger := Billing.Perform(s.ledger, operation))
  }

  function Run(w: World, s: State, events: seq<Event>): State {
    if events == [] then s else Next(w, Run(w, s, events[..|events| - 1]), events[|events| - 1])
  }

  const START: State := State(None, Billing.EMPTY_LEDGER, [])

  /* ---- The scan, step by step ---- */

  class Scanner {
    var lastScanned: Option<int>
    var ledger: Billing.Ledger
    ghost var ranges: seq<Saved>

    ghost function Contents(): State
      reads this
    {
      State(lastScanned, ledger, ranges)
    }

    constructor ()
      ensures Contents() == START
    {
      lastScanned := None;
      ledger := Billing.EMPTY_LEDGER;
      ranges := [];
    }

    method CreditLogs(w: World, logs: seq<Log>)
      modifies this
      ensures Contents() == ApplyWrites(w, old(Contents()), Credits(logs))
    {
      hide Billing.CreditDeposit;
      ghost var start := Contents();
      for i := 0 to |logs|
        invariant Contents() == ApplyWrites(w, start, Credits(logs[..i]))
      {
        assert logs[..i + 1][..i] == logs[..i];
        ledger := Billing.CreditDeposit(ledger, OwnerOf(w, logs[i].to), logs[i].id, logs[i].amountQuote);
      }
      assert logs[..|logs|] == logs;
    }

    method ScanRange(w: World, from: int, to: int, addresses: seq<Address>)
      modifies this
      ensures Contents() == ApplyWrites(w, old(Contents()), RangeWrites(w.chain, from, to, addresses, 0))
    {
      ghost var start := Contents();
      var index := 0;
      while index < |addresses|
        invariant 0 <= index <= |addresses|
        invariant ApplyWrites(w, Contents(), RangeWrites(w.chain, from, to, addresses, index))
               == ApplyWrites(w, start, RangeWrites(w.chain, from, to, addresses, 0))
      {
        var chunk := addresses[index..ChunkEnd(addresses, index)];
        var logs := GetLogs(w.chain, from, to, chunk);
        WritesConcat(w, Contents(), Credits(logs), RangeWrites(w.chain, from, to, addresses, ChunkEnd(addresses, index)));
        CreditLogs(w, logs);
        index := ChunkEnd(addresses, index);
      }
    }

    /** One block range: its credits, then its progress. */
    method CompleteRange(w: World, scan: Scan, from: int)
      modifies this
      ensures Contents() == RangeDone(w, old(Contents()), scan, from)
    {
      hide RangeWrites, ApplyWrites;
      var to := RangeEnd(scan, from);
      ScanRange(w, from, to, scan.addresses);
      lastScanned := Some(to);
      ranges := ranges + [SavedRange(scan, from)];
    }

    /** A run that is not interrupted. */
    method Scan(w: World, scan: Scan)
      modifies this
      ensures Contents() == ApplyWrites(w, old(Contents()),
                RunWrites(w.chain, scan, StartOf(old(Contents()), scan), scan.maxRanges))
    {
      ghost var start := Contents();
      var from := if lastScanned.Some? then lastScanned.value + 1
                  else if scan.startBlock.Some? then scan.startBlock.value else scan.safeHead;
      assert from == StartOf(start, scan);
      hide RunWrites, RangeDone, ApplyWrites, StartOf, RangeEnd;
      ghost var all := ApplyWrites(w, start, RunWrites(w.chain, scan, from, scan.maxRanges));
      var done := 0;
      while done < scan.maxRanges && from <= scan.safeHead
        invariant 0 <= done <= scan.maxRanges
        invariant ApplyWrites(w, Contents(), RunWrites(w.chain, scan, from, scan.maxRanges - done)) == all
      {
        RangeStep(w, Contents(), scan, from, scan.maxRanges - done);
        CompleteRange(w, scan, from);
        from := RangeEnd(scan, from) + 1;
        done := done + 1;
      }
      NoMoreRanges(w, Contents(), scan, from, scan.maxRanges - done);
    }
  }

  lemma NoMoreRanges(w: World, s: State, scan: Scan, from: int, ranges: nat)
    requires ranges == 0 || from > scan.safeHead
    ensures ApplyWrites(w, s, RunWrites(w.chain, scan, from, ranges)) == s
  {
  }

  lemma {:induction false} WritesConcat(w: World, s: State, a: seq<Write>, b: seq<Write>)
    ensures ApplyWrites(w, s, a + b) == ApplyWrites(w, ApplyWrites(w, s, a), b)
  {
    if b == [] {
      assert a + b == a;
    } else {
      WritesConcat(w, s, a, b[..|b| - 1]);
      assert (a + b)[..|a + b| - 1] == a + b[..|b| - 1];
    }
  }

  /** The state after the first range of a run and its progress. */
  function RangeDone(w: World, s: State, scan: Scan, from: int): State {
    var credited := ApplyWrites(w, s, RangeWrites(w.chain, from, RangeEnd(scan, from), scan.addresses, 0));
    ApplyWrite(w, credited, Save(SavedRange(scan, from)))
  }

  /** The writes of a run are the credits of its first range, the progress, and the writes of the rest. */
  lemma RangeStep(w: World, s: State, scan: Scan, from: int, ranges: nat)
    requires ranges > 0 && from <= scan.safeHead
    ensures ApplyWrites(w, s, RunWrites(w.chain, scan, from, ranges))
         == ApplyWrites(w, RangeDone(w, s, scan, from), RunWrites(w.chain, scan, RangeEnd(scan, from) + 1, ranges - 1))
  {
    var credits := RangeWrites(w.chain, from, RangeEnd(scan, from), scan.addresses, 0);
    var save := [Save(SavedRange(scan, from))];
    var rest := RunWrites(w.chain, scan, RangeEnd(scan, from) + 1, ranges - 1);
    assert RunWrites(w.chain, scan, from, ranges) == credits + (save + rest);
    hide RunWrites, RangeWrites;
    WritesConcat(w, s, credits, save + rest);
    WritesConcat(w, ApplyWrites(w, s, credits), save, rest);
    OneWrite(w, ApplyWrites(w, s, credits), Save(SavedRange(scan, from)));
  }

  lemma OneWrite(w: World, s: State, write: Write)
    ensures ApplyWrites(w, s, [write]) == ApplyWrite(w, s, write)
  {
    assert [write][..0] == [];
  }
}
