/**
 * Trade records on their own: replaying them one by one, and the FIFO matching that the
 * performance metrics perform on the finished list.
 */
module Ledger {
  import opened Basics
  import opened Market

  datatype Action = BUY | SELL
  datatype Record = Record(date: int, symbol: Symbol, action: Action, price: real, quantity: int,
                           cost: real, amount: real, reason: string)

  /** Cash effect of one record. */
  function Flow(r: Record): real {
    if r.action == BUY then -(r.amount + r.cost) else r.amount - r.cost
  }

  function Outlay(r: Record): real { r.amount + r.cost }

  // ----- replay: the open buys after a list of records -----

  function Find(open: seq<Record>, s: Symbol): (i: int)
    ensures -1 <= i < |open|
    ensures i >= 0 ==> open[i].symbol == s
    ensures i < 0 ==> forall j :: 0 <= j < |open| ==> open[j].symbol != s
  {
    if open == [] then -1
    else if open[|open|-1].symbol == s then |open| - 1
    else Find(open[..|open|-1], s)
  }

  /** A sale closes the open buy of its symbol: same quantity, strictly later date. */
  predicate Closes(sale: Record, buy: Record) {
    sale.symbol == buy.symbol && sale.quantity == buy.quantity && buy.date < sale.date
  }

  /** Amounts are price times quantity. */
  predicate WellPriced(r: Record) {
    r.amount == r.price * r.quantity as real
  }

  function ReplayStep(open: seq<Record>, r: Record): Option<seq<Record>> {
    var i := Find(open, r.symbol);
    if !WellPriced(r) then None
    else if r.action == BUY then (if i >= 0 then None else Some(open + [r]))
    else if i >= 0 && Closes(r, open[i]) then Some(RemoveAt(open, i)) else None
  }

  /** The open buys in purchase order, or None once a record does not fit. */
  function Replay(rs: seq<Record>): Option<seq<Record>> {
    if rs == [] then Some([]) else
      var open := Replay(rs[..|rs|-1]);
      if open.None? then None else ReplayStep(open.value, rs[|rs|-1])
  }

  lemma ReplayAppend(rs: seq<Record>, r: Record)
    requires Replay(rs).Some?
    ensures Replay(rs + [r]) == ReplayStep(Replay(rs).value, r)
  {
    assert (rs + [r])[..|rs|] == rs;
  }

  lemma {:induction false} ReplayPrefix(rs: seq<Record>, n: nat)
    requires Replay(rs).Some? && n <= |rs|
    ensures Replay(rs[..n]).Some?
  {
    if n < |rs| {
      ReplayPrefix(rs[..|rs|-1], n);
      assert rs[..|rs|-1][..n] == rs[..n];
    } else {
      assert rs[..n] == rs;
    }
  }

  ghost predicate OnePerSymbol(open: seq<Record>) {
    forall i, j :: 0 <= i < j < |open| ==> open[i].symbol != open[j].symbol
  }

  predicate OpenBuyRecord(r: Record) { r.action == BUY && WellPriced(r) }

  /** The open buys have distinct symbols and are BUY records of the list. */
  lemma {:induction false} ReplayOpen(rs: seq<Record>)
    requires Replay(rs).Some?
    ensures forall o :: o in Replay(rs).value ==> OpenBuyRecord(o)
    ensures OnePerSymbol(Replay(rs).value)
  {
    hide ReplayStep, OnePerSymbol, OpenBuyRecord;
    if rs == [] {
      NoneOpen();
    } else {
      var front, r := rs[..|rs|-1], rs[|rs|-1];
      ReplayOpen(front);
      OpenStep(Replay(front).value, r);
    }
  }

  lemma NoneOpen()
    ensures OnePerSymbol([])
  {
  }

  lemma OpenStep(open: seq<Record>, r: Record)
    requires OnePerSymbol(open) && (forall o :: o in open ==> OpenBuyRecord(o))
    requires ReplayStep(open, r).Some?
    ensures OnePerSymbol(ReplayStep(open, r).value)
    ensures forall o :: o in ReplayStep(open, r).value ==> OpenBuyRecord(o)
  {
    hide Find, WellPriced, Closes, OnePerSymbol;
    if r.action == BUY {
      OpenAfterBuy(open, r, r.symbol);
    } else {
      OpenAfterSale(open, Find(open, r.symbol), r.symbol);
    }
  }

  // ----- what replay means, symbol by symbol -----

  /** The records of one symbol, in order. */
  function Of(rs: seq<Record>, s: Symbol): seq<Record> {
    if rs == [] then []
    else Of(rs[..|rs|-1], s) + if rs[|rs|-1].symbol == s then [rs[|rs|-1]] else []
  }

  /** BUY, SELL, BUY, ... where each SELL closes the BUY before it. */
  ghost predicate Alternates(t: seq<Record>) {
    && (forall i :: 0 <= i < |t| ==> (t[i].action == BUY <==> i % 2 == 0))
    && (forall i, j :: 0 <= i < j < |t| && j == i + 1 && i % 2 == 0 ==> Closes(t[j], t[i]))
  }

  lemma AlternatesAppend(t: seq<Record>, r: Record)
    requires Alternates(t)
    requires if |t| % 2 == 0 then r.action == BUY else r.action == SELL && Closes(r, t[|t|-1])
    ensures Alternates(t + [r])
  {
  }

  /** The last record of a symbol's trail is the open buy, exactly when one is open. */
  ghost predicate Tracks(t: seq<Record>, open: seq<Record>, s: Symbol) {
    match OpenBuy(open, s)
    case Some(buy) => |t| % 2 == 1 && t[|t|-1] == buy
    case None => |t| % 2 == 0
  }

  lemma EmptyAlternates(s: Symbol)
    ensures Alternates([]) && Tracks([], [], s)
  {
  }

  /** In records that replay, each symbol alternates, and its last BUY is open exactly when no SELL follows it. */
  lemma {:induction false} ReplayAlternates(rs: seq<Record>, s: Symbol)
    requires Replay(rs).Some?
    ensures Alternates(Of(rs, s)) && Tracks(Of(rs, s), Replay(rs).value, s)
  {
    hide ReplayStep, Alternates, Tracks, WellPriced;
    if rs == [] {
      EmptyAlternates(s);
    } else {
      var front, r := rs[..|rs|-1], rs[|rs|-1];
      ReplayAlternates(front, s);
      ReplayOpen(front);
      TrackStep(Of(front, s), Replay(front).value, r, s);
      assert Of(front, s) + [] == Of(front, s);
    }
  }

  lemma TrackStep(t: seq<Record>, open: seq<Record>, r: Record, s: Symbol)
    requires Alternates(t) && Tracks(t, open, s)
    requires OnePerSymbol(open) && ReplayStep(open, r).Some?
    ensures r.symbol == s ==> Alternates(t + [r])
    ensures Tracks(if r.symbol == s then t + [r] else t, ReplayStep(open, r).value, s)
  {
    hide ReplayStep, OpenBuy, Alternates;
    OpenAfterStep(open, r, s);
    if r.symbol == s {
      AlternatesAppend(t, r);
    }
  }

  /** The open buy of a symbol, if any. */
  function OpenBuy(open: seq<Record>, s: Symbol): Option<Record> {
    var i := Find(open, s);
    if i >= 0 then Some(open[i]) else None
  }

  lemma FindUnique(open: seq<Record>, i: nat)
    requires OnePerSymbol(open) && i < |open|
    ensures Find(open, open[i].symbol) == i
  {
  }

  lemma OpenAfterBuy(open: seq<Record>, r: Record, s: Symbol)
    requires OnePerSymbol(open) && Find(open, r.symbol) < 0
    ensures OnePerSymbol(open + [r])
    ensures OpenBuy(open + [r], s) == if s == r.symbol then Some(r) else OpenBuy(open, s)
  {
    hide Find;
    var next, i := open + [r], Find(open, s);
    FindUnique(next, |open|);
    if i >= 0 { FindUnique(next, i); }
  }

  lemma OpenAfterSale(open: seq<Record>, j: nat, s: Symbol)
    requires OnePerSymbol(open) && j < |open|
    ensures OnePerSymbol(RemoveAt(open, j))
    ensures OpenBuy(RemoveAt(open, j), s) == if s == open[j].symbol then None else OpenBuy(open, s)
  {
    hide Find;
    var next, i := RemoveAt(open, j), Find(open, s);
    if i >= 0 {
      if i < j { FindUnique(next, i); }
      if i > j { FindUnique(next, i - 1); }
      FindUnique(open, i);
    }
    FindUnique(open, j);
  }

  /** A BUY opens its symbol, a SELL closes it, every other symbol keeps its open buy. */
  lemma OpenAfterStep(open: seq<Record>, r: Record, s: Symbol)
    requires OnePerSymbol(open) && ReplayStep(open, r).Some?
    ensures OpenBuy(ReplayStep(open, r).value, s)
         == if s != r.symbol then OpenBuy(open, s) else if r.action == BUY then Some(r) else None
    ensures s == r.symbol ==> if r.action == BUY then OpenBuy(open, s).None?
                              else OpenBuy(open, s).Some? && Closes(r, OpenBuy(open, s).value)
  {
    hide Find, WellPriced, RemoveAt, OnePerSymbol, Closes;
    if r.action == BUY {
      OpenAfterBuy(open, r, s);
    } else {
      OpenAfterSale(open, Find(open, r.symbol), s);
    }
  }

  // ----- FIFO matching over the finished list -----

  function Buys(rs: seq<Record>, s: Symbol): seq<Record> {
    if rs == [] then []
    else Buys(rs[..|rs|-1], s) + if rs[|rs|-1].symbol == s && rs[|rs|-1].action == BUY then [rs[|rs|-1]] else []
  }

  function Sales(rs: seq<Record>, s: Symbol): nat {
    if rs == [] then 0
    else Sales(rs[..|rs|-1], s) + if rs[|rs|-1].symbol == s && rs[|rs|-1].action == SELL then 1 else 0
  }

  /** FIFO: the n-th sale of a symbol takes the n-th buy of that symbol in the whole list. */
  function Mate(rs: seq<Record>, i: nat): Option<Record>
    requires i < |rs|
  {
    var n := Sales(rs[..i], rs[i].symbol);
    var buys := Buys(rs, rs[i].symbol);
    if n < |buys| then Some(buys[n]) else None
  }

  function Pnl(sale: Record, buy: Record): real {
    (sale.price - buy.price) * sale.quantity as real - sale.cost - buy.cost
  }

  /** Profit of the record at i: zero for a BUY or an unmatched SELL. */
  function PnlAt(rs: seq<Record>, i: nat): real
    requires i < |rs|
  {
    if rs[i].action == SELL && Mate(rs, i).Some? then Pnl(rs[i], Mate(rs, i).value) else 0.0
  }

  function RealisedUpTo(rs: seq<Record>, n: nat): real
    requires n <= |rs|
  {
    if n == 0 then 0.0 else RealisedUpTo(rs, n-1) + PnlAt(rs, n-1)
  }

  function Realised(rs: seq<Record>): real { RealisedUpTo(rs, |rs|) }

  lemma {:induction false} BuysPrefix(rs: seq<Record>, n: nat, s: Symbol)
    requires n <= |rs|
    ensures Buys(rs[..n], s) <= Buys(rs, s)
  {
    if n < |rs| {
      BuysPrefix(rs[..|rs|-1], n, s);
      assert rs[..|rs|-1][..n] == rs[..n];
    } else {
      assert rs[..n] == rs;
    }
  }

  /** Buys outnumber sales by one exactly while a buy is open, and the newest buy is the open one. */
  ghost predicate Counted(buys: seq<Record>, sales: nat, open: seq<Record>, s: Symbol) {
    match OpenBuy(open, s)
    case Some(buy) => |buys| == sales + 1 && buys[|buys|-1] == buy
    case None => |buys| == sales
  }

  lemma {:induction false} ReplayCounts(rs: seq<Record>, s: Symbol)
    requires Replay(rs).Some?
    ensures Counted(Buys(rs, s), Sales(rs, s), Replay(rs).value, s)
  {
    hide ReplayStep, Counted, WellPriced;
    if rs == [] {
      EmptyCounted(s);
    } else {
      var front, r := rs[..|rs|-1], rs[|rs|-1];
      ReplayCounts(front, s);
      ReplayOpen(front);
      CountStep(Buys(front, s), Sales(front, s), Replay(front).value, r, s);
    }
  }

  lemma EmptyCounted(s: Symbol)
    ensures Counted([], 0, [], s)
  {
  }

  lemma CountStep(buys: seq<Record>, sales: nat, open: seq<Record>, r: Record, s: Symbol)
    requires Counted(buys, sales, open, s) && ReplayStep(open, r).Some?
    requires OnePerSymbol(open)
    ensures Counted(buys + if r.symbol == s && r.action == BUY then [r] else [],
                    sales + if r.symbol == s && r.action == SELL then 1 else 0, ReplayStep(open, r).value, s)
  {
    hide ReplayStep, OpenBuy;
    OpenAfterStep(open, r, s);
    assert buys + [] == buys;
  }

  lemma ReplayAt(rs: seq<Record>, i: nat)
    requires Replay(rs).Some? && i < |rs|
    ensures Replay(rs[..i]).Some? && ReplayStep(Replay(rs[..i]).value, rs[i]).Some?
  {
    hide ReplayStep;
    ReplayPrefix(rs, i);
    ReplayPrefix(rs, i+1);
    assert rs[..i+1][..i] == rs[..i] && rs[..i+1][i] == rs[i];
  }

  /** FIFO pairs every sale with exactly the buy that opened the position it closes. */
  lemma FifoFindsOpeningBuy(rs: seq<Record>, i: nat)
    requires Replay(rs).Some? && i < |rs| && rs[i].action == SELL
    ensures Replay(rs[..i]).Some?
    ensures var open := Replay(rs[..i]).value;
            && Find(open, rs[i].symbol) >= 0
            && Mate(rs, i) == Some(open[Find(open, rs[i].symbol)])
            && Closes(rs[i], Mate(rs, i).value)
  {
    hide Find, Buys, Sales, WellPriced, Replay;
    ReplayAt(rs, i);
    ReplayCounts(rs[..i], rs[i].symbol);
    BuysPrefix(rs, i, rs[i].symbol);
  }

  /** Along any prefix, the cash flow is the realised profit less what the open buys cost. */
  lemma {:induction false} FlowIsRealisedLessOpen(rs: seq<Record>, n: nat)
    requires Replay(rs).Some? && n <= |rs|
    ensures Replay(rs[..n]).Some?
    ensures Sum(rs[..n], Flow) == RealisedUpTo(rs, n) - Sum(Replay(rs[..n]).value, Outlay)
  {
    hide ReplayStep, PnlAt, Flow, Outlay;
    ReplayPrefix(rs, n);
    if n > 0 {
      var m := n - 1;
      FlowIsRealisedLessOpen(rs, m);
      ReplayPrefix(rs, m);
      assert rs[..n][..m] == rs[..m] && rs[..n][m] == rs[m];
      FlowStep(rs, m);
    }
  }

  /** One record moves exactly its cash flow between realised profit and open outlay. */
  lemma FlowStep(rs: seq<Record>, m: nat)
    requires Replay(rs).Some? && m < |rs| && Replay(rs[..m]).Some?
    requires ReplayStep(Replay(rs[..m]).value, rs[m]).Some?
    ensures Flow(rs[m]) == PnlAt(rs, m) - Sum(ReplayStep(Replay(rs[..m]).value, rs[m]).value, Outlay)
                           + Sum(Replay(rs[..m]).value, Outlay)
  {
    var open, r := Replay(rs[..m]).value, rs[m];
    hide Replay, Mate, Sum, Find, Closes, WellPriced, Pnl;
    if r.action == BUY {
      SumConcat(open, [r], Outlay);
      SumSingle(r, Outlay);
    } else {
      hide Flow, Outlay;
      var i := Find(open, r.symbol);
      FifoFindsOpeningBuy(rs, m);
      SumRemoveAt(open, i, Outlay);
      ReplayOpen(rs[..m]);
      assert open[i] in open && OpenBuyRecord(open[i]);
      PnlIsFlowPlusOutlay(r, open[i]);
    }
  }

  lemma PnlIsFlowPlusOutlay(sale: Record, buy: Record)
    requires sale.action == SELL && WellPriced(sale) && WellPriced(buy) && Closes(sale, buy)
    ensures Flow(sale) == Pnl(sale, buy) + Outlay(buy)
  {
    var q := sale.quantity as real;
    assert (sale.price - buy.price) * q == sale.price * q - buy.price * q;
  }
}
