/** The selling half of a trading day step by step: release, retry, check, sell. */
module DayRules {
  import opened Basics
  import opened Market
  import opened Backtest
  import opened BacktestInvariant
  import opened SellRules
  import opened BuyRules

  function OneOrNone(sig: Option<Signal>): seq<Signal> {
    if sig.Some? then [sig.value] else []
  }

  /** The pending sales, in the order of the positions. */
  function PendingOf(ps: seq<Position>): seq<Signal> {
    if ps == [] then []
    else OneOrNone(ps[0].pendingSell) + PendingOf(ps[1..])
  }

  /** The signals among some answers, in order. */
  function Fired(answers: seq<Option<Signal>>): seq<Signal> {
    if answers == [] then []
    else OneOrNone(answers[0]) + Fired(answers[1..])
  }

  lemma {:induction false} PendingOfAppend(ps: seq<Position>, p: Position)
    ensures PendingOf(ps + [p]) == PendingOf(ps) + OneOrNone(p.pendingSell)
  {
    hide OneOrNone;
    if ps == [] {
      assert [p][1..] == [] && PendingOf([]) == [];
      assert [] + OneOrNone(p.pendingSell) == OneOrNone(p.pendingSell) == OneOrNone(p.pendingSell) + [];
    } else {
      assert (ps + [p])[1..] == ps[1..] + [p];
      PendingOfAppend(ps[1..], p);
    }
  }

  lemma {:induction false} FiredAppend(answers: seq<Option<Signal>>, a: Option<Signal>)
    ensures Fired(answers + [a]) == Fired(answers) + OneOrNone(a)
  {
    hide OneOrNone;
    if answers == [] {
      assert [a][1..] == [] && Fired([]) == [];
      assert [] + OneOrNone(a) == OneOrNone(a) == OneOrNone(a) + [];
    } else {
      assert (answers + [a])[1..] == answers[1..] + [a];
      FiredAppend(answers[1..], a);
    }
  }

  lemma {:induction false} PendingSignalsAre(ps: seq<Position>)
    ensures PendingSignals(ps) == PendingOf(ps)
  {
    if ps != [] {
      PendingSignalsAre(ps[..|ps|-1]);
      PendingOfAppend(ps[..|ps|-1], ps[|ps|-1]);
      assert ps == ps[..|ps|-1] + [ps[|ps|-1]];
    }
  }

  /** One sell order on a portfolio: nothing for a symbol that is not held. */
  ghost predicate SellStep(st: State, st': State, sig: Signal, d: int, k: KLine, cfg: Config) {
    && ((forall p :: p in st.positions ==> p.symbol != sig.symbol) ==> st' == st)
    && forall i, n: int :: 0 <= i < |st.positions| && st.positions[i].symbol == sig.symbol && Cut(BarsOf(k, sig.symbol), d, n) ==>
         SoldAs(st, st', i, sig, BarsOf(k, sig.symbol), n, cfg)
  }

  /** The orders are carried out one after the other. */
  ghost predicate SoldInTurn(states: seq<State>, sigs: seq<Signal>, d: int, k: KLine, cfg: Config) {
    && |states| == |sigs| + 1
    && forall i :: 0 <= i < |sigs| ==> SellStep(states[i], states[i+1], sigs[i], d, k, cfg)
  }

  lemma SellIsStep(st: State, sig: Signal, d: int, k: KLine, cfg: Config)
    requires Distinct(st.positions)
    ensures SellStep(st, ExecuteSell(st, sig, d, k, cfg), sig, d, k, cfg)
  {
    hide ExecuteSell, SoldAs, Cut;
    if forall p :: p in st.positions ==> p.symbol != sig.symbol {
      SellNothing(st, sig, d, k, cfg);
    }
    forall i, n: int | 0 <= i < |st.positions| && st.positions[i].symbol == sig.symbol && Cut(BarsOf(k, sig.symbol), d, n)
      ensures SoldAs(st, ExecuteSell(st, sig, d, k, cfg), i, sig, BarsOf(k, sig.symbol), n, cfg)
    {
      SellIs(st, sig, d, k, cfg, i, n);
    }
    assert forall i :: 0 <= i < |st.positions| && st.positions[i].symbol == sig.symbol ==> st.positions[i] in st.positions;
  }

  lemma {:induction false} SellStates(st: State, sigs: seq<Signal>, d: int, k: KLine, cfg: Config) returns (states: seq<State>)
    requires Distinct(st.positions)
    ensures SoldInTurn(states, sigs, d, k, cfg)
    ensures states[0] == st && states[|sigs|] == ExecuteSells(st, sigs, d, k, cfg)
    ensures Distinct(states[|sigs|].positions)
  {
    hide SellStep, ExecuteSell, Distinct;
    if sigs == [] {
      states := [st];
    } else {
      var front, sig := sigs[..|sigs|-1], sigs[|sigs|-1];
      var before := SellStates(st, front, d, k, cfg);
      var mid := ExecuteSells(st, front, d, k, cfg);
      SellIsStep(mid, sig, d, k, cfg);
      SellAt(mid, sig, d, k, cfg, sig.symbol);
      states := before + [ExecuteSell(mid, sig, d, k, cfg)];
      assert forall i :: 0 <= i < |front| ==> front[i] == sigs[i];
    }
  }

  /** Every position is checked, in order, with the answers and the tracked positions as stated. */
  ghost predicate CheckedEach(ps: seq<Position>, qs: seq<Position>, answers: seq<Option<Signal>>, d: int, day: int, k: KLine, cfg: Config) {
    && |ps| == |qs| == |answers|
    && forall i, n: int :: 0 <= i < |ps| && Cut(BarsOf(k, ps[i].symbol), d, n) ==>
         CheckedAs(ps[i], qs[i], answers[i], BarsOf(k, ps[i].symbol), n, d, day, cfg)
  }

  lemma CheckedAppend(ps: seq<Position>, qs: seq<Position>, answers: seq<Option<Signal>>,
                      p: Position, d: int, day: int, k: KLine, cfg: Config)
    requires CheckedEach(ps, qs, answers, d, day, k, cfg)
    ensures var r := CheckSell(p, d, day, k, cfg);
            CheckedEach(ps + [p], qs + [r.0], answers + [r.1], d, day, k, cfg)
  {
    var r := CheckSell(p, d, day, k, cfg);
    forall n: int | Cut(BarsOf(k, p.symbol), d, n)
      ensures CheckedAs(p, r.0, r.1, BarsOf(k, p.symbol), n, d, day, cfg)
    {
      CheckIs(p, d, day, k, cfg, n);
    }
    hide CheckSell, CheckedAs, Cut, BarsOf;
  }

  lemma CheckAllStep(ps: seq<Position>, p: Position, d: int, day: int, k: KLine, cfg: Config)
    ensures var before, r := CheckAll(ps, d, day, k, cfg), CheckSell(p, d, day, k, cfg);
            CheckAll(ps + [p], d, day, k, cfg) == (before.0 + [r.0], before.1 + OneOrNone(r.1))
  {
    hide CheckSell;
    assert (ps + [p])[..|ps|] == ps;
  }

  lemma {:induction false} CheckAllIs(ps: seq<Position>, d: int, day: int, k: KLine, cfg: Config) returns (answers: seq<Option<Signal>>)
    ensures CheckedEach(ps, CheckAll(ps, d, day, k, cfg).0, answers, d, day, k, cfg)
    ensures CheckAll(ps, d, day, k, cfg).1 == Fired(answers)
  {
    if ps == [] {
      answers := [];
    } else {
      hide *;
      var front, p := ps[..|ps|-1], ps[|ps|-1];
      assert ps == front + [p];
      var before := CheckAllIs(front, d, day, k, cfg);
      var r := CheckSell(p, d, day, k, cfg);
      CheckAllStep(front, p, d, day, k, cfg);
      CheckedAppend(front, CheckAll(front, d, day, k, cfg).0, before, p, d, day, k, cfg);
      FiredAppend(before, r.1);
      answers := before + [r.1];
    }
  }

  /** What the sales of a day are: four stages, each given by what came before. */
  ghost predicate SalesOfDay(st: State, after: State, d: int, day: int, k: KLine, cfg: Config,
                             retried: seq<State>, checked: seq<Position>, answers: seq<Option<Signal>>,
                             ordered: seq<Signal>, sold: seq<State>)
  {
    && SoldInTurn(retried, PendingOf(st.positions), d, k, cfg)
    && |retried[0].positions| == |st.positions|
    && (forall i :: 0 <= i < |st.positions| ==> retried[0].positions[i] == st.positions[i].(pendingSell := None))
    && retried[0] == State(st.cash + st.frozen, 0.0, retried[0].positions, st.records, st.snapshots)
    && var mid := retried[|retried|-1];
    && CheckedEach(mid.positions, checked, answers, d, day, k, cfg)
    && multiset(ordered) == multiset(Fired(answers))
    && (forall i, j :: 0 <= i < j < |ordered| ==> ordered[i].priority <= ordered[j].priority)
    && (forall rank: int :: Only(ordered, OfPriority(rank)) == Only(Fired(answers), OfPriority(rank)))
    && SoldInTurn(sold, ordered, d, k, cfg)
    && sold[0] == mid.(positions := checked) && sold[|sold|-1] == after
  }

  /**
   * Before the buys of a day: the frozen cash is released, the pending sales are taken off their positions and tried
   * again in order, then every position left is checked, and the signals are acted on by priority.
   */
  lemma DaySalesAre(st: State, d: int, day: int, k: KLine, cfg: Config)
    returns (retried: seq<State>, checked: seq<Position>, answers: seq<Option<Signal>>, ordered: seq<Signal>, sold: seq<State>)
    requires Distinct(st.positions)
    ensures SalesOfDay(st, AfterSales(st, d, day, k, cfg), d, day, k, cfg, retried, checked, answers, ordered, sold)
  {
    var u := Unfreeze(st);
    var start := u.(positions := ClearPending(u.positions));
    ClearedDistinct(st.positions);
    PendingSignalsAre(st.positions);
    hide SoldInTurn, PendingSignals, PendingOf, ExecuteSells, CheckAll, CheckedEach, Fired;
    retried := SellStates(start, PendingSignals(st.positions), d, k, cfg);
    var mid := RetryPending(u, d, k, cfg);
    assert mid == retried[|retried|-1];
    answers := CheckAllIs(mid.positions, d, day, k, cfg);
    checked := CheckAll(mid.positions, d, day, k, cfg).0;
    CheckedDistinct(mid.positions, d, day, k, cfg);
    ordered := StableSort(Fired(answers), MoreUrgent);
    SignalsByPriority(Fired(answers));
    hide StableSort, Only, Distinct;
    sold := SellStates(mid.(positions := checked), ordered, d, k, cfg);
  }

  lemma ClearedDistinct(ps: seq<Position>)
    requires Distinct(ps)
    ensures Distinct(ClearPending(ps))
  {
    assert forall i :: 0 <= i < |ps| ==> ClearPending(ps)[i].symbol == ps[i].symbol;
  }

  lemma CheckedDistinct(ps: seq<Position>, d: int, day: int, k: KLine, cfg: Config)
    requires Distinct(ps)
    ensures Distinct(CheckAll(ps, d, day, k, cfg).0)
  {
    CheckAllPositions(ps, d, day, k, cfg);
    forall i | 0 <= i < |ps| ensures CheckAll(ps, d, day, k, cfg).0[i].symbol == ps[i].symbol {
      CheckSellKeepsHolding(ps[i], d, day, k, cfg);
    }
    hide CheckAll, CheckSell;
  }
}
