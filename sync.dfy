/**
 The order book of one instrument as the message loop of src/main.rs keeps
 it: the bid and ask maps, the cached best bid and best ask, and the
 change id of the last message. `Step` is the specification of what one
 message does; the class `Book` is the in-place implementation, proved
 against it.
 */
module Sync {
  import opened Wrappers
  import opened Feed
  import opened Ledger

  /** The whole state the loop keeps between messages. */
  datatype BookState<S> = BookState(
    bids: map<nat, S>,
    asks: map<nat, S>,
    bestBid: nat,
    bestAsk: nat,
    changeId: nat)

  /** Empty maps, both best keys 0 and change id 0, before any message. */
  function Initial<S>(): BookState<S>
  {
    BookState(map[], map[], 0, 0, 0)
  }

  /** The cached best keys are the maximum bid key and the minimum ask key;
      in particular both are present, so looking their sizes up succeeds. */
  ghost predicate Synced<S>(st: BookState<S>)
  {
    IsBest(Bid, st.bids, st.bestBid) && IsBest(Ask, st.asks, st.bestAsk)
  }

  /** A message the loop can take without panicking: a snapshot must carry
      at least one bid and one ask, or taking the extremum of an empty key
      set fails. */
  predicate Loadable<S>(msg: Data<S>)
  {
    msg.kind.Snapshot? ==> msg.bids != [] && msg.asks != []
  }

  predicate AllLoadable<S>(feed: seq<Data<S>>)
  {
    forall i :: 0 <= i < |feed| ==> Loadable(feed[i])
  }

  /** A gap is reported when the message names a previous change id, an id
      has been stored already, and the two differ. */
  predicate GapDetected(stored: nat, prev: Option<nat>)
  {
    prev.Some? && stored > 0 && prev.value != stored
  }

  /** The effect of one message on the book. The change id is overwritten
      whatever the gap check says, and the book is updated after it all the
      same; a snapshot replaces both sides, a "change" message applies its
      ask levels and its bid levels, any other type touches nothing else. */
  function Step<S>(st: BookState<S>, msg: Data<S>): BookState<S>
    requires Loadable(msg)
  {
    var st' := st.(changeId := msg.changeId);
    match msg.kind
    case Snapshot =>
      st'.(bids := Extend(map[], msg.bids), bestBid := BestPrice(Bid, msg.bids),
           asks := Extend(map[], msg.asks), bestAsk := BestPrice(Ask, msg.asks))
    case Change =>
      var a := ApplyAll(Ask, SideBook(st.asks, st.bestAsk), msg.asks);
      var b := ApplyAll(Bid, SideBook(st.bids, st.bestBid), msg.bids);
      st'.(asks := a.levels, bestAsk := a.best, bids := b.levels, bestBid := b.best)
    case Other(_) => st'
  }

  /** The book after a sequence of messages, in arrival order. */
  function Run<S>(st: BookState<S>, feed: seq<Data<S>>): BookState<S>
    requires AllLoadable(feed)
  {
    if feed == [] then st
    else
      var n := |feed| - 1;
      Step(Run(st, feed[..n]), feed[n])
  }

  /** The book after the first `n` messages of a session. */
  function After<S>(feed: seq<Data<S>>, n: nat): BookState<S>
    requires AllLoadable(feed) && n <= |feed|
  {
    assert AllLoadable(feed[..n]) by {
      assert forall i :: 0 <= i < n ==> feed[..n][i] == feed[i];
    }
    Run(Initial(), feed[..n])
  }

  /** One more message of a session is one more step. */
  lemma AfterStep<S>(feed: seq<Data<S>>, i: nat)
    requires AllLoadable(feed) && i < |feed|
    ensures After(feed, i + 1) == Step(After(feed, i), feed[i])
  {
    assert feed[..i + 1][..i] == feed[..i];
  }

  /** The sizes at the best bid and the best ask. */
  function Top<S>(st: BookState<S>): (S, S)
    requires st.bestBid in st.bids && st.bestAsk in st.asks
  {
    (st.bids[st.bestBid], st.asks[st.bestAsk])
  }

  /** `trades[i]` is the last level of `trades` with its price. */
  predicate LastAt<S>(trades: seq<Trade<S>>, i: nat)
    requires i < |trades|
  {
    forall j :: i < j < |trades| ==> trades[j].price != trades[i].price
  }

  /** After a snapshot each side holds exactly the snapshot's levels, a
      later level with the same price winning, and nothing from before. */
  lemma SnapshotLevels<S>(st: BookState<S>, msg: Data<S>)
    requires msg.kind.Snapshot? && Loadable(msg)
    ensures Step(st, msg).bids.Keys == Prices(msg.bids)
    ensures Step(st, msg).asks.Keys == Prices(msg.asks)
    ensures forall i :: 0 <= i < |msg.bids| && LastAt(msg.bids, i) ==>
      Step(st, msg).bids[msg.bids[i].price] == msg.bids[i].size
    ensures forall i :: 0 <= i < |msg.asks| && LastAt(msg.asks, i) ==>
      Step(st, msg).asks[msg.asks[i].price] == msg.asks[i].size
  {
    forall i | 0 <= i < |msg.bids| && LastAt(msg.bids, i)
      ensures Step(st, msg).bids[msg.bids[i].price] == msg.bids[i].size
    {
      ExtendLastWins(map[], msg.bids, i);
    }
    forall i | 0 <= i < |msg.asks| && LastAt(msg.asks, i)
      ensures Step(st, msg).asks[msg.asks[i].price] == msg.asks[i].size
    {
      ExtendLastWins(map[], msg.asks, i);
    }
  }

  /** A snapshot leaves the best bid at the maximum bid key and the best
      ask at the minimum ask key. */
  lemma SnapshotSyncs<S>(st: BookState<S>, msg: Data<S>)
    requires msg.kind.Snapshot? && Loadable(msg)
    ensures Synced(Step(st, msg))
  {
    LoadedBest(Bid, msg.bids);
    LoadedBest(Ask, msg.asks);
  }

  /** The book after a snapshot does not depend on the book before it, so
      taking the same snapshot twice gives the same book as taking it once. */
  lemma SnapshotReplaces<S>(st1: BookState<S>, st2: BookState<S>, msg: Data<S>)
    requires msg.kind.Snapshot? && Loadable(msg)
    ensures Step(st1, msg) == Step(st2, msg)
    ensures Step(Step(st1, msg), msg) == Step(st1, msg)
  {
  }

  /** Any message keeps a synced book synced. */
  lemma StepKeepsSynced<S>(st: BookState<S>, msg: Data<S>)
    requires Loadable(msg) && Synced(st)
    ensures Synced(Step(st, msg))
  {
    match msg.kind
    case Snapshot => SnapshotSyncs(st, msg);
    case Change =>
      ApplyAllKeepsBest(Ask, SideBook(st.asks, st.bestAsk), msg.asks);
      ApplyAllKeepsBest(Bid, SideBook(st.bids, st.bestBid), msg.bids);
    case Other(_) =>
  }

  /** A "change" message never raises the best ask and never lowers the
      best bid. */
  lemma DiffOnlyImproves<S>(st: BookState<S>, msg: Data<S>)
    requires msg.kind.Change?
    ensures Step(st, msg).bestAsk <= st.bestAsk
    ensures Step(st, msg).bestBid >= st.bestBid
  {
    ApplyAllOnlyImproves(Ask, SideBook(st.asks, st.bestAsk), msg.asks);
    ApplyAllOnlyImproves(Bid, SideBook(st.bids, st.bestBid), msg.bids);
  }

  /** A message of an unsupported type, or a "change" message none of whose
      levels is "new", only records its change id. */
  lemma QuietMessages<S>(st: BookState<S>, msg: Data<S>)
    requires msg.kind.Other? || (
      && msg.kind.Change?
      && (forall i :: 0 <= i < |msg.asks| ==> !msg.asks[i].action.New?)
      && (forall i :: 0 <= i < |msg.bids| ==> !msg.bids[i].action.New?))
    ensures Step(st, msg) == st.(changeId := msg.changeId)
  {
    if msg.kind.Change? {
      ApplyAllIgnoresOthers(Ask, SideBook(st.asks, st.bestAsk), msg.asks);
      ApplyAllIgnoresOthers(Bid, SideBook(st.bids, st.bestBid), msg.bids);
    }
  }

  /** The gap check has no effect on the book: the update is the same
      whatever previous change id the message names. */
  lemma GapDoesNotBlock<S>(st: BookState<S>, msg: Data<S>, prev: Option<nat>)
    requires Loadable(msg)
    ensures Step(st, msg) == Step(st, msg.(prevChangeId := prev))
  {
  }

  /** After every message the stored change id is that message's own. */
  lemma RunChangeId<S>(st: BookState<S>, feed: seq<Data<S>>)
    requires AllLoadable(feed) && feed != []
    ensures Run(st, feed).changeId == feed[|feed| - 1].changeId
  {
  }

  /** Message `i` of a feed is flagged exactly when it names a previous
      change id that differs from the non-zero id of message `i - 1`; the
      first message of a session is never flagged. */
  lemma GapAgainstPredecessor<S>(feed: seq<Data<S>>, i: nat)
    requires AllLoadable(feed) && i < |feed|
    ensures i == 0 ==> !GapAt(feed, i)
    ensures i > 0 ==>
      (GapAt(feed, i) <==>
       feed[i].prevChangeId.Some? && feed[i - 1].changeId > 0 &&
       feed[i].prevChangeId.value != feed[i - 1].changeId)
  {
    if i > 0 {
      RunChangeId(Initial(), feed[..i]);
    }
  }

  /** Once the first message is a snapshot, the book stays synced after
      every later message, so the size lookups after each message succeed. */
  lemma {:induction false} FeedStaysSynced<S>(feed: seq<Data<S>>, n: nat)
    requires AllLoadable(feed) && feed != [] && feed[0].kind.Snapshot?
    requires 0 < n <= |feed|
    ensures Synced(After(feed, n))
  {
    assert feed[..n][..n - 1] == feed[..n - 1];
    if n == 1 {
      SnapshotSyncs(Initial(), feed[0]);
    } else {
      FeedStaysSynced(feed, n - 1);
      StepKeepsSynced(After(feed, n - 1), feed[n - 1]);
    }
  }

  /** The book of one instrument, updated in place message by message. */
  class Book<S> {
    var bids: map<nat, S>
    var asks: map<nat, S>
    var bestBid: nat
    var bestAsk: nat
    var changeId: nat

    function State(): BookState<S>
      reads this
    {
      BookState(bids, asks, bestBid, bestAsk, changeId)
    }

    constructor ()
      ensures State() == Initial()
    {
      bids, asks := map[], map[];
      bestBid, bestAsk := 0, 0;
      changeId := 0;
    }

    /** Clears both maps, fills them from the snapshot's levels and caches
        the highest bid key and the lowest ask key. */
    method LoadSnapshot(data: Data<S>)
      requires data.bids != [] && data.asks != []
      modifies this
      ensures bids == Extend(map[], data.bids) && asks == Extend(map[], data.asks)
      ensures IsBest(Bid, bids, bestBid) && IsBest(Ask, asks, bestAsk)
      ensures bestBid == BestPrice(Bid, data.bids) && bestAsk == BestPrice(Ask, data.asks)
      ensures changeId == old(changeId)
    {
      bids := map[];
      bids := Extend(bids, data.bids);
      asks := map[];
      asks := Extend(asks, data.asks);
      assert data.bids[0].price in bids && data.asks[0].price in asks;
      bestBid := BestKey(Bid, bids);
      bestAsk := BestKey(Ask, asks);
      LoadedBest(Bid, data.bids);
      LoadedBest(Ask, data.asks);
      BestIsUnique(Bid, bids, bestBid, BestPrice(Bid, data.bids));
      BestIsUnique(Ask, asks, bestAsk, BestPrice(Ask, data.asks));
    }

    /** One ask level of a "change" message; only "new" does anything. */
    method ApplyAskEntry(t: Trade<S>)
      modifies this
      ensures SideBook(asks, bestAsk) == Apply(Ask, old(SideBook(asks, bestAsk)), t)
      ensures bids == old(bids) && bestBid == old(bestBid) && changeId == old(changeId)
    {
      match t.action
      case New =>
        asks := asks[t.price := t.size];
        if t.price < bestAsk {
          bestAsk := t.price;
        }
      case Change =>
      case Delete =>
      case Unknown(_) =>
    }

    /** One bid level of a "change" message; only "new" does anything. */
    method ApplyBidEntry(t: Trade<S>)
      modifies this
      ensures SideBook(bids, bestBid) == Apply(Bid, old(SideBook(bids, bestBid)), t)
      ensures asks == old(asks) && bestAsk == old(bestAsk) && changeId == old(changeId)
    {
      match t.action
      case New =>
        bids := bids[t.price := t.size];
        if t.price > bestBid {
          bestBid := t.price;
        }
      case Change =>
      case Delete =>
      case Unknown(_) =>
    }

    /** Every ask level of a "change" message, then every bid level. */
    method ApplyDiff(data: Data<S>)
      modifies this
      ensures SideBook(asks, bestAsk) == ApplyAll(Ask, old(SideBook(asks, bestAsk)), data.asks)
      ensures SideBook(bids, bestBid) == ApplyAll(Bid, old(SideBook(bids, bestBid)), data.bids)
      ensures changeId == old(changeId)
    {
      for i := 0 to |data.asks|
        invariant SideBook(asks, bestAsk) == ApplyAll(Ask, old(SideBook(asks, bestAsk)), data.asks[..i])
        invariant bids == old(bids) && bestBid == old(bestBid) && changeId == old(changeId)
      {
        assert data.asks[..i + 1][..i] == data.asks[..i];
        ApplyAskEntry(data.asks[i]);
      }
      assert data.asks[..|data.asks|] == data.asks;
      for i := 0 to |data.bids|
        invariant SideBook(asks, bestAsk) == ApplyAll(Ask, old(SideBook(asks, bestAsk)), data.asks)
        invariant SideBook(bids, bestBid) == ApplyAll(Bid, old(SideBook(bids, bestBid)), data.bids[..i])
        invariant changeId == old(changeId)
      {
        assert data.bids[..i + 1][..i] == data.bids[..i];
        ApplyBidEntry(data.bids[i]);
      }
      assert data.bids[..|data.bids|] == data.bids;
    }

    /** One book message: check the change-id chain, store the new id,
        then update the book by message type. Returns whether a gap was
        seen; the update happens either way. */
    method Ingest(data: Data<S>) returns (gap: bool)
      requires Loadable(data)
      modifies this
      ensures gap == GapDetected(old(changeId), data.prevChangeId)
      ensures State() == Step(old(State()), data)
    {
      gap := false;
      match data.prevChangeId {
        case Some(prev) =>
          if changeId > 0 && prev != changeId {
            gap := true;
          }
        case None =>
      }
      changeId := data.changeId;
      match data.kind {
        case Snapshot => LoadSnapshot(data);
        case Change => ApplyDiff(data);
        case Other(_) =>
      }
    }

    /** The sizes resting at the best bid and the best ask. */
    method BestSizes() returns (bidSize: S, askSize: S)
      requires bestBid in bids && bestAsk in asks
      ensures (bidSize, askSize) == Top(State())
    {
      bidSize := bids[bestBid];
      askSize := asks[bestAsk];
    }
  }

  /** Whether message `i` of a session is reported as a gap. */
  function GapAt<S>(feed: seq<Data<S>>, i: nat): bool
    requires AllLoadable(feed) && i < |feed|
  {
    GapDetected(After(feed, i).changeId, feed[i].prevChangeId)
  }

  /** Both best keys are present after the first `n` messages, so the two
      size lookups that follow message `n` succeed. */
  predicate FindsBest<S>(feed: seq<Data<S>>, n: nat)
    requires AllLoadable(feed) && n <= |feed|
  {
    After(feed, n).bestBid in After(feed, n).bids && After(feed, n).bestAsk in After(feed, n).asks
  }

  /** The size lookups succeed after every message of a session. */
  predicate LookupsSucceed<S>(feed: seq<Data<S>>)
  {
    AllLoadable(feed) && forall n :: 0 < n <= |feed| ==> FindsBest(feed, n)
  }

  /** A session that opens with a snapshot never fails a size lookup. */
  lemma OpeningSnapshotLooksUp<S>(feed: seq<Data<S>>)
    requires AllLoadable(feed) && feed != [] && feed[0].kind.Snapshot?
    ensures LookupsSucceed(feed)
  {
    forall n | 0 < n <= |feed|
      ensures FindsBest(feed, n)
    {
      FeedStaysSynced(feed, n);
    }
  }

  /** A session need not open with a snapshot: a first "change" message
      whose new bid and new ask sit at key 0 leaves both best keys (still 0)
      present, so the lookups succeed. */
  lemma ChangeFirstLooksUp()
    ensures LookupsSucceed([Data(Kind.Change, None, 7, [Trade(New, 0, 4)], [Trade(New, 0, 9)])])
  {
    var feed := [Data(Kind.Change, None, 7, [Trade(New, 0, 4)], [Trade(New, 0, 9)])];
    AfterStep(feed, 0);
  }

  /** The sizes at the best bid and ask after the first `n` messages. */
  function TopAfter<S>(feed: seq<Data<S>>, n: nat): (S, S)
    requires AllLoadable(feed) && 0 < n <= |feed| && FindsBest(feed, n)
  {
    Top(After(feed, n))
  }

  /** A session of three messages in which the third names a previous
      change id that was never seen: it is reported as a gap, and its new
      ask is applied all the same. */
  lemma GapStillApplied()
    ensures var feed := [
      Data(Snapshot, None, 100, [Trade(New, 1000, 5)], [Trade(New, 1010, 3)]),
      Data(Kind.Change, Some(100), 101, [], [Trade(New, 1020, 2)]),
      Data(Kind.Change, Some(105), 106, [], [Trade(New, 1005, 1)])];
      && AllLoadable(feed)
      && !GapAt(feed, 1) && GapAt(feed, 2)
      && After(feed, 2).bestAsk == 1010
      && After(feed, 3).bestAsk == 1005 && After(feed, 3).asks[1005] == 1
      && After(feed, 3).changeId == 106
  {
    var feed := [
      Data(Snapshot, None, 100, [Trade(New, 1000, 5)], [Trade(New, 1010, 3)]),
      Data(Kind.Change, Some(100), 101, [], [Trade(New, 1020, 2)]),
      Data(Kind.Change, Some(105), 106, [], [Trade(New, 1005, 1)])];
    AfterStep(feed, 0);
    AfterStep(feed, 1);
    AfterStep(feed, 2);
  }

  /** The message loop over the book messages that follow the subscription
      confirmation: each message is ingested, then the sizes at the best bid
      and ask are looked up, which needs both best keys present after every
      message (`OpeningSnapshotLooksUp` gives this for a session that opens
      with a snapshot). Reports, per message, whether a gap was seen
      and the sizes found. */
  method Replay<S>(feed: seq<Data<S>>) returns (gaps: seq<bool>, tops: seq<(S, S)>)
    requires LookupsSucceed(feed)
    ensures |gaps| == |feed| && |tops| == |feed|
    ensures forall i :: 0 <= i < |feed| ==> gaps[i] == GapAt(feed, i)
    ensures forall i :: 0 <= i < |feed| ==> tops[i] == TopAfter(feed, i + 1)
  {
    var book := new Book<S>();
    gaps, tops := [], [];
    for i := 0 to |feed|
      invariant |gaps| == i && |tops| == i
      invariant book.State() == After(feed, i)
      invariant forall j :: 0 <= j < i ==> gaps[j] == GapAt(feed, j)
      invariant forall j :: 0 <= j < i ==> tops[j] == TopAfter(feed, j + 1)
    {
      AfterStep(feed, i);
      var gap := book.Ingest(feed[i]);
      assert FindsBest(feed, i + 1);
      var bidSize, askSize := book.BestSizes();
      gaps, tops := gaps + [gap], tops + [(bidSize, askSize)];
    }
  }

}
