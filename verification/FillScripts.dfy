/**
 Many orders on one position, each with its own fills at the exchange. A report
 is a look at a growing prefix of an order's trades; reports of different orders
 interleave in any way.
 */
module FillScripts {
  import opened Reals
  import opened FillAccounting
  import Runs = FillRuns
  import opened FillPaths

  /** What will happen to an order: its trades, and whether they execute it in full. */
  datatype Script = Script(request: Request, fills: Fills, filled: bool)

  /** A position, its orders, what the exchange does with each, and how many trades of each have been seen. */
  datatype Desk = Desk(book: Book, scripts: seq<Script>, seen: seq<nat>)

  datatype Event =
    | Submitted(script: Script, quantity: real, look: Look)
    | Looked(index: nat, look: Look)

  predicate Looks(s: Script, before: nat, look: Look) {
    before <= look.seen <= |s.fills| && (look.status.Filled? <==> s.filled && look.seen == |s.fills|)
  }

  /** Trades never disappear, and FILLED is reported exactly when the order has been executed in full. */
  predicate Possible(d: Desk, e: Event) {
    match e
    case Submitted(s, quantity, look) => Looks(s, 0, look)
    case Looked(i, look) => i < |d.scripts| && i < |d.seen| && Looks(d.scripts[i], d.seen[i], look)
  }

  /** The event in terms of reports. */
  function Reported(d: Desk, e: Event): Runs.Event
    requires Possible(d, e)
  {
    match e
    case Submitted(s, quantity, look) =>
      Runs.SubmitEvent(s.request.side, s.request.action, s.request.level, quantity, Report(s.fills, look))
    case Looked(i, look) => Runs.SyncEvent(i, Report(d.scripts[i].fills, look))
  }

  function Step(d: Desk, e: Event): Desk
    requires Possible(d, e)
  {
    var book := Runs.Apply(d.book, Reported(d, e));
    match e
    case Submitted(s, quantity, look) =>
      if |book.orders| == |d.book.orders| then d else Desk(book, d.scripts + [s], d.seen + [look.seen])
    case Looked(i, look) => Desk(book, d.scripts, d.seen[i := look.seen])
  }

  function NewDesk(s: Script, look: Look): Desk
    requires Looks(s, 0, look)
  {
    Desk(Open(s.request.action, s.request.level, Report(s.fills, look)), [s], [look.seen])
  }

  predicate PossibleRun(d: Desk, events: seq<Event>)
    decreases |events|, 0
  {
    events != [] ==>
      PossibleRun(d, events[..|events| - 1]) && Possible(Run(d, events[..|events| - 1]), events[|events| - 1])
  }

  function Run(d: Desk, events: seq<Event>): Desk
    requires PossibleRun(d, events)
    decreases |events|, 1
  {
    if events == [] then d else Step(Run(d, events[..|events| - 1]), events[|events| - 1])
  }

  /* ---- What has been booked is what has been seen ---- */

  predicate Tracks(d: Desk, i: nat)
    requires i < |d.book.orders| == |d.scripts| == |d.seen|
  {
    var r := d.scripts[i].request;
    && d.seen[i] <= |d.scripts[i].fills|
    && OrderSaw(d.book.orders[i], r, d.scripts[i].fills, d.seen[i])
    && (r.side.Sell? && SellTarget(r).SubLeg? ==> r.level in d.book.account.subs)
  }

  predicate Tracked(d: Desk) {
    && |d.book.orders| == |d.scripts| == |d.seen|
    && forall i :: 0 <= i < |d.scripts| ==> Tracks(d, i)
  }

  lemma SubmitSaw(s: Script, look: Look)
    requires Looks(s, 0, look)
    ensures OrderSaw(OrderAfterSubmit(s.request.side, s.request.action, s.request.level, Report(s.fills, look)), s.request, s.fills, look.seen)
    ensures Joint(Net(Report(s.fills, look).gross, s.request.side, Report(s.fills, look).fills))
  {
    NetAtNothing(s.fills, s.request.side, look.seen);
  }

  /** Sub-position rows are never deleted. */
  lemma SubsStay(b: Book, e: Runs.Event, level: nat)
    requires level in b.account.subs
    ensures level in Runs.Apply(b, e).account.subs
  {
    hide BuyLeg, SellLeg, Net, Delta, Closes, Refused, OrdersPending, OrderAfterSync, OrderAfterSubmit;
  }

  /** A sync of a sell always finds its leg. */
  lemma TrackedSyncs(d: Desk, i: nat, snap: Snapshot, pending: bool)
    requires Tracked(d) && i < |d.scripts|
    ensures Synced(d.book.account, d.book.orders[i], snap, pending).Some?
  {
    assert Tracks(d, i);
    hide Delta, SyncBuy, SellFill, CloseIfEmpty;
  }

  lemma LookedOrders(d: Desk, i: nat, look: Look)
    requires Tracked(d) && Possible(d, Looked(i, look))
    ensures Step(d, Looked(i, look)).book.orders == d.book.orders[i := OrderAfterSync(d.book.orders[i], Report(d.scripts[i].fills, look))]
  {
    hide Delta, OrderAfterSync, Synced, Report;
    var snap := Report(d.scripts[i].fills, look);
    var orders := d.book.orders[i := OrderAfterSync(d.book.orders[i], snap)];
    TrackedSyncs(d, i, snap, OrdersPending(orders));
  }

  lemma SubmittedOrders(d: Desk, e: Event)
    requires e.Submitted? && Possible(d, e) && Step(d, e) != d
    ensures Step(d, e).book.orders
         == d.book.orders + [OrderAfterSubmit(e.script.request.side, e.script.request.action, e.script.request.level, Report(e.script.fills, e.look))]
    ensures e.script.request.side.Sell? && SellTarget(e.script.request).SubLeg? ==> e.script.request.level in d.book.account.subs
  {
    hide Booked, OrderAfterSubmit, Report, OrdersPending;
  }

  /** Every report of a possible event brings quantity and quote together, and the desk stays on track. */
  lemma StepTracks(d: Desk, e: Event)
    requires Tracked(d) && Possible(d, e)
    ensures Runs.JointEvent(d.book, Reported(d, e)) && Tracked(Step(d, e))
  {
    var after := Step(d, e);
    match e
    case Submitted(s, quantity, look) =>
      SubmitSaw(s, look);
      if after != d {
        SubmittedOrders(d, e);
        forall i | 0 <= i < |after.scripts| ensures Tracks(after, i) {
          if i < |d.scripts| { assert Tracks(d, i); }
          hide Step, OrderSaw, OrderAfterSubmit, Report;
          SubmittedSubs(d, e, i);
        }
      }
    case Looked(i, look) =>
      assert Tracks(d, i);
      LookedOrders(d, i, look);
      DeltaOfLook(d.book.orders[i], d.scripts[i].request, d.scripts[i].fills, d.seen[i], look);
      hide Joint, Delta, OrderAfterSync, OrderSaw, Report;
      forall k | 0 <= k < |after.scripts| ensures Tracks(after, k) {
        assert Tracks(d, k);
        if d.scripts[k].request.level in d.book.account.subs {
          SubsStay(d.book, Reported(d, e), d.scripts[k].request.level);
        }
      }
  }

  lemma SubmittedSubs(d: Desk, e: Event, i: nat)
    requires e.Submitted? && Possible(d, e) && Step(d, e) != d && i < |d.scripts| + 1
    requires i < |d.scripts| ==> (d.scripts[i].request.side.Sell? && SellTarget(d.scripts[i].request).SubLeg? ==>
                                    d.scripts[i].request.level in d.book.account.subs)
    ensures var r := (d.scripts + [e.script])[i].request;
            r.side.Sell? && SellTarget(r).SubLeg? ==> r.level in Step(d, e).book.account.subs
  {
    SubmittedOrders(d, e);
    var r := (d.scripts + [e.script])[i].request;
    if r.level in d.book.account.subs {
      hide Runs.Apply;
      SubsStay(d.book, Reported(d, e), r.level);
    }
  }

  lemma NewDeskTracked(s: Script, look: Look)
    requires s.request.side.Buy? && Looks(s, 0, look)
    ensures Tracked(NewDesk(s, look)) && Conserved(NewDesk(s, look).book)
  {
    SubmitSaw(s, look);
    OpenConserves(s.request.action, s.request.level, Report(s.fills, look));
    hide Conserved, OrderSaw, Booked, OrderAfterSubmit, Report;
  }

  /** However looks at any number of orders interleave, what is booked is what was seen, and no cost basis leaks. */
  lemma {:induction false} LooksConserve(s: Script, look: Look, events: seq<Event>)
    requires s.request.side.Buy? && Looks(s, 0, look) && PossibleRun(NewDesk(s, look), events)
    ensures Tracked(Run(NewDesk(s, look), events)) && Conserved(Run(NewDesk(s, look), events).book)
  {
    if events == [] {
      NewDeskTracked(s, look);
    } else {
      var before, e := events[..|events| - 1], events[|events| - 1];
      LooksConserve(s, look, before);
      var d := Run(NewDesk(s, look), before);
      hide Tracked, Conserved, NewDesk, Possible, Runs.JointEvent;
      StepTracks(d, e);
      Runs.ApplyConserves(d.book, Reported(d, e));
      hide Runs.Apply;
    }
  }

  /* ---- Everything proved about jointly growing reports holds of looks ---- */

  function ReportedRun(d: Desk, events: seq<Event>): seq<Runs.Event>
    requires PossibleRun(d, events)
  {
    if events == [] then []
    else ReportedRun(d, events[..|events| - 1]) + [Reported(Run(d, events[..|events| - 1]), events[|events| - 1])]
  }

  lemma StepApplies(d: Desk, e: Event)
    requires Possible(d, e)
    ensures Step(d, e).book == Runs.Apply(d.book, Reported(d, e))
  {
    hide Booked, Synced, OrderAfterSubmit, OrderAfterSync, Refused, OrdersPending, Report;
  }

  /** A run of looks is a run of reports in which quantity and quote grow together. */
  lemma {:induction false} LooksAreJoint(d: Desk, events: seq<Event>)
    requires Tracked(d) && PossibleRun(d, events)
    ensures Tracked(Run(d, events)) && Runs.JointRun(d.book, ReportedRun(d, events))
    ensures Runs.Run(d.book, ReportedRun(d, events)) == Run(d, events).book
  {
    if events != [] {
      var before, e := events[..|events| - 1], events[|events| - 1];
      LooksAreJoint(d, before);
      hide Tracked, Possible, Step, Reported, Runs.Apply, Runs.JointEvent;
      StepTracks(Run(d, before), e);
      StepApplies(Run(d, before), e);
      var reports := ReportedRun(d, events);
      assert reports[..|reports| - 1] == ReportedRun(d, before);
    }
  }
}
