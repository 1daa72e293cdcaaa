/**
 One side of the order book: a map from price key to resting size, and
 the cached best key of that side (the highest bid, the lowest ask).
 */
module Ledger {
  import opened Feed

  datatype Side = Bid | Ask

  /** `price` is strictly better than `best` on `side`. */
  predicate Improves(side: Side, price: nat, best: nat)
  {
    match side
    case Bid => price > best
    case Ask => price < best
  }

  /** `best` is a key of `levels` and no key of `levels` is better:
      the maximum key of the bids, the minimum key of the asks. */
  ghost predicate IsBest<S>(side: Side, levels: map<nat, S>, best: nat)
  {
    best in levels && forall k :: k in levels ==> !Improves(side, k, best)
  }

  /** A side has at most one best key. */
  lemma BestIsUnique<S>(side: Side, levels: map<nat, S>, a: nat, b: nat)
    requires IsBest(side, levels, a) && IsBest(side, levels, b)
    ensures a == b
  {
  }

  /** The price keys that `trades` mention. */
  function Prices<S>(trades: seq<Trade<S>>): set<nat>
  {
    set i | 0 <= i < |trades| :: trades[i].price
  }

  /** `m` with every level of `trades` inserted in order, so that a later
      level with the same price overwrites an earlier one. */
  function Extend<S>(m: map<nat, S>, trades: seq<Trade<S>>): (r: map<nat, S>)
    ensures r.Keys == m.Keys + Prices(trades)
    ensures forall k :: k in m && k !in Prices(trades) ==> r[k] == m[k]
  {
    if trades == [] then m
    else
      var n := |trades| - 1;
      assert Prices(trades) == Prices(trades[..n]) + {trades[n].price} by {
        assert forall i :: 0 <= i < n ==> trades[..n][i] == trades[i];
      }
      Extend(m, trades[..n])[trades[n].price := trades[n].size]
  }

  /** The size that `Extend` leaves at a price is the one of the last
      level carrying that price. */
  lemma {:induction false} ExtendLastWins<S>(m: map<nat, S>, trades: seq<Trade<S>>, i: nat)
    requires i < |trades|
    requires forall j :: i < j < |trades| ==> trades[j].price != trades[i].price
    ensures trades[i].price in Extend(m, trades)
    ensures Extend(m, trades)[trades[i].price] == trades[i].size
  {
    var n := |trades| - 1;
    var last := trades[n];
    assert Extend(m, trades) == Extend(m, trades[..n])[last.price := last.size];
    if i < n {
      ExtendLastWins(m, trades[..n], i);
      assert trades[..n][i] == trades[i];
    }
  }

  /** The best price among the levels of a non-empty message side. */
  function BestPrice<S>(side: Side, trades: seq<Trade<S>>): (r: nat)
    requires trades != []
    ensures r in Prices(trades)
    ensures forall i :: 0 <= i < |trades| ==> !Improves(side, trades[i].price, r)
  {
    var n := |trades| - 1;
    if n == 0 then trades[0].price
    else
      var b := BestPrice(side, trades[..n]);
      assert forall i :: 0 <= i < n ==> trades[..n][i] == trades[i];
      if Improves(side, trades[n].price, b) then trades[n].price else b
  }

  /** Loading a side from scratch: the best price of the levels is the
      best key of the map they build. */
  lemma LoadedBest<S>(side: Side, trades: seq<Trade<S>>)
    requires trades != []
    ensures IsBest(side, Extend(map[], trades), BestPrice(side, trades))
  {
    var levels, b := Extend(map[], trades), BestPrice(side, trades);
    forall k | k in levels
      ensures !Improves(side, k, b)
    {
      var i :| 0 <= i < |trades| && trades[i].price == k;
    }
  }

  /** One side of the book: its levels and its cached best key. */
  datatype SideBook<S> = SideBook(levels: map<nat, S>, best: nat)

  /** One level of a "change" message applied to its side: "new" stores
      the size at the price and moves the best key when the price beats
      it; every other action leaves the side as it was. */
  function Apply<S>(side: Side, sb: SideBook<S>, t: Trade<S>): (r: SideBook<S>)
    ensures t.action.New? ==>
      && r.levels.Keys == sb.levels.Keys + {t.price}
      && r.levels[t.price] == t.size
      && (forall k :: k in sb.levels && k != t.price ==> r.levels[k] == sb.levels[k])
    ensures t.action.New? && Improves(side, t.price, sb.best) ==> r.best == t.price
    ensures !(t.action.New? && Improves(side, t.price, sb.best)) ==> r.best == sb.best
    ensures !t.action.New? ==> r == sb
  {
    match t.action
    case New =>
      SideBook(sb.levels[t.price := t.size],
               if Improves(side, t.price, sb.best) then t.price else sb.best)
    case _ => sb
  }

  /** The levels of one side of a "change" message applied in order. */
  function ApplyAll<S>(side: Side, sb: SideBook<S>, trades: seq<Trade<S>>): SideBook<S>
  {
    if trades == [] then sb
    else
      var n := |trades| - 1;
      Apply(side, ApplyAll(side, sb, trades[..n]), trades[n])
  }

  /** Applying a level keeps the cached best equal to the best key. */
  lemma ApplyKeepsBest<S>(side: Side, sb: SideBook<S>, t: Trade<S>)
    requires IsBest(side, sb.levels, sb.best)
    ensures IsBest(side, Apply(side, sb, t).levels, Apply(side, sb, t).best)
  {
  }

  /** Applying a whole message side keeps the cached best equal to the
      best key, so the best key is always present in the map. */
  lemma {:induction false} ApplyAllKeepsBest<S>(side: Side, sb: SideBook<S>, trades: seq<Trade<S>>)
    requires IsBest(side, sb.levels, sb.best)
    ensures IsBest(side, ApplyAll(side, sb, trades).levels, ApplyAll(side, sb, trades).best)
  {
    if trades != [] {
      var n := |trades| - 1;
      ApplyAllKeepsBest(side, sb, trades[..n]);
      ApplyKeepsBest(side, ApplyAll(side, sb, trades[..n]), trades[n]);
    }
  }

  /** While a message is applied the best only ever gets better: the best
      ask never increases and the best bid never decreases. */
  lemma {:induction false} ApplyAllOnlyImproves<S>(side: Side, sb: SideBook<S>, trades: seq<Trade<S>>)
    ensures side == Ask ==> ApplyAll(side, sb, trades).best <= sb.best
    ensures side == Bid ==> ApplyAll(side, sb, trades).best >= sb.best
  {
    if trades != [] {
      ApplyAllOnlyImproves(side, sb, trades[..|trades| - 1]);
    }
  }

  /** Levels whose action is not "new" change nothing. */
  lemma {:induction false} ApplyAllIgnoresOthers<S>(side: Side, sb: SideBook<S>, trades: seq<Trade<S>>)
    requires forall i :: 0 <= i < |trades| ==> !trades[i].action.New?
    ensures ApplyAll(side, sb, trades) == sb
  {
    if trades != [] {
      ApplyAllIgnoresOthers(side, sb, trades[..|trades| - 1]);
    }
  }

  /** The best key of a non-empty map, found by one pass over its keys:
      `keys().max()` for the bids, `keys().min()` for the asks. */
  method BestKey<S>(side: Side, levels: map<nat, S>) returns (k: nat)
    requires levels.Keys != {}
    ensures IsBest(side, levels, k)
  {
    var todo := levels.Keys;
    k :| k in todo;
    todo := todo - {k};
    while todo != {}
      invariant todo <= levels.Keys
      invariant k in levels
      invariant forall j :: j in levels && j !in todo ==> !Improves(side, j, k)
      decreases todo
    {
      var j :| j in todo;
      if Improves(side, j, k) {
        k := j;
      }
      todo := todo - {j};
    }
  }

}
