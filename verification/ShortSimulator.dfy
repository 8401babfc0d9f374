/** The short-side position simulator: risk sizing, a ratcheting stop, closing with fees
    and funding, and the confirmation counter of a breached stop. */
module ShortSimulator {
  import opened Wrappers
  import opened Reals

  datatype Config = Config(
    feePct: real,
    funding8h: real,
    slAtrMult: real,
    trailingAtrMult: real,
    beEnabled: bool,
    beActivationAtrMult: real,
    beBufferAtrMult: real,
    riskPct: real,
    maxPositionPct: real,
    slConfirmTicks: nat)

  datatype Intent = OpenShort | CloseShort | Other

  /** What a bar's signal asks for. `sell` is the older way to ask for a close. */
  datatype Signal = Signal(intent: Intent, sell: bool, stopDistance: Option<real>, stopPrice: Option<real>)

  /** `lowestLow` is the lowest low seen while the short is open. */
  datatype Position = Position(entryPrice: real, stopLoss: real, lowestLow: real, qty: real, entryTime: int,
                               initialStop: real)

  datatype Trigger = StopLoss | TrailingStop | BySignal

  datatype Trade = Trade(entryTime: int, exitTime: int, entryPrice: real, exitPrice: real, pnl: real, pnlPct: real,
                         trigger: Trigger)

  datatype Bar = Bar(open: real, low: real, atr: real, time: int, signal: Signal)

  /** The fields the methods update. */
  datatype State = State(balance: real, position: Option<Position>, breachBars: nat, trades: seq<Trade>)

  // ----- Opening

  function StopDistance(cfg: Config, entryPrice: real, atr: real, signal: Signal): real {
    if signal.stopDistance.Some? && signal.stopDistance.value > 0.0 then signal.stopDistance.value
    else if signal.stopPrice.Some? && signal.stopPrice.value > 0.0 then signal.stopPrice.value - entryPrice
    else if atr > 0.0 then atr * cfg.slAtrMult
    else 0.0
  }

  function Size(cfg: Config, balance: real, entryPrice: real, distance: real): real
    requires entryPrice > 0.0 && distance > 0.0
  {
    var qty := (balance * cfg.riskPct) / distance;
    var cap := balance * cfg.maxPositionPct;
    if cfg.maxPositionPct > 0.0 && qty * entryPrice > cap then cap / entryPrice else qty
  }

  function TryOpen(cfg: Config, s: State, entryPrice: real, bar: Bar): State {
    if s.position.Some? || entryPrice <= 0.0 then s
    else
      var distance := StopDistance(cfg, entryPrice, bar.atr, bar.signal);
      if distance <= 0.0 then s
      else
        var qty := Size(cfg, s.balance, entryPrice, distance);
        if qty <= 0.0 then s
        else
          var stop := entryPrice + distance;
          s.(position := Some(Position(entryPrice, stop, entryPrice, qty, bar.time, stop)), breachBars := 0)
  }

  /** Sizing: at the stop the position loses at most the risk budget, exactly the budget
      when no cap applies, and its notional never exceeds the cap. */
  lemma SizeIsBounded(cfg: Config, balance: real, entryPrice: real, distance: real)
    requires entryPrice > 0.0 && distance > 0.0
    ensures var qty := Size(cfg, balance, entryPrice, distance);
            && qty * distance <= balance * cfg.riskPct
            && (cfg.maxPositionPct > 0.0 ==> qty * entryPrice <= balance * cfg.maxPositionPct)
            && (qty * distance == balance * cfg.riskPct
                || (cfg.maxPositionPct > 0.0 && qty * entryPrice == balance * cfg.maxPositionPct))
  {
    var risk, cap := balance * cfg.riskPct, balance * cfg.maxPositionPct;
    var free := risk / distance;
    assert free * distance == risk;
    if cfg.maxPositionPct > 0.0 && free * entryPrice > cap {
      var capped := cap / entryPrice;
      assert capped * entryPrice == cap;
      ProductLeInverse(capped, free, entryPrice);
      ProductLe(capped, free, distance);
    }
  }

  /** Where the stop of a new short is: a distance the signal gives counts from the entry, a
      price it gives is taken as it is, and without either the distance is a multiple of the
      average range. Opening changes nothing else but the breach counter. */
  lemma OpenedStop(cfg: Config, s: State, entryPrice: real, bar: Bar)
    requires s.position.None? && TryOpen(cfg, s, entryPrice, bar).position.Some?
    ensures var t, signal := TryOpen(cfg, s, entryPrice, bar), bar.signal;
            var p := t.position.value;
            && (if signal.stopDistance.Some? && signal.stopDistance.value > 0.0 then
                  p.stopLoss == entryPrice + signal.stopDistance.value
                else if signal.stopPrice.Some? && signal.stopPrice.value > 0.0 then p.stopLoss == signal.stopPrice.value
                else bar.atr > 0.0 && p.stopLoss == entryPrice + bar.atr * cfg.slAtrMult)
            && p.stopLoss == p.initialStop > entryPrice > 0.0 && p.entryPrice == p.lowestLow == entryPrice
            && p.entryTime == bar.time && p.qty > 0.0
            && p.qty * (p.stopLoss - entryPrice) <= s.balance * cfg.riskPct
            && (cfg.maxPositionPct > 0.0 ==> p.qty * entryPrice <= s.balance * cfg.maxPositionPct)
            && (p.qty * (p.stopLoss - entryPrice) == s.balance * cfg.riskPct
                || (cfg.maxPositionPct > 0.0 && p.qty * entryPrice == s.balance * cfg.maxPositionPct))
            && t == State(s.balance, Some(p), 0, s.trades)
  {
    hide Size;
    SizeIsBounded(cfg, s.balance, entryPrice, StopDistance(cfg, entryPrice, bar.atr, bar.signal));
  }

  /** With money in the account, a short opens exactly when none is open, the price is
      positive, the stop is above it and there is a risk budget. */
  lemma OpensIff(cfg: Config, s: State, entryPrice: real, bar: Bar)
    requires s.balance > 0.0
    ensures var signal := bar.signal;
            TryOpen(cfg, s, entryPrice, bar) != s <==>
            && s.position.None? && entryPrice > 0.0 && cfg.riskPct > 0.0
            && if signal.stopDistance.Some? && signal.stopDistance.value > 0.0 then true
               else if signal.stopPrice.Some? && signal.stopPrice.value > 0.0 then signal.stopPrice.value > entryPrice
               else bar.atr > 0.0 && cfg.slAtrMult > 0.0
  {
    hide Size;
    var distance := StopDistance(cfg, entryPrice, bar.atr, bar.signal);
    if bar.atr > 0.0 {
      SignOfProduct(bar.atr, cfg.slAtrMult);
    }
    if entryPrice > 0.0 && distance > 0.0 {
      SizeSign(cfg, s.balance, entryPrice, distance);
    }
  }

  lemma SignOfProduct(x: real, y: real)
    requires x > 0.0
    ensures x * y > 0.0 <==> y > 0.0
  {
  }

  lemma SizeSign(cfg: Config, balance: real, entryPrice: real, distance: real)
    requires balance > 0.0 && entryPrice > 0.0 && distance > 0.0
    ensures Size(cfg, balance, entryPrice, distance) > 0.0 <==> cfg.riskPct > 0.0
  {
    SignOfProduct(balance, cfg.riskPct);
    SignOfProduct(balance, cfg.maxPositionPct);
    var risk, cap := balance * cfg.riskPct, balance * cfg.maxPositionPct;
    QuotientSign(risk, distance);
    QuotientSign(cap, entryPrice);
    SignOfProduct(entryPrice, risk / distance);
  }

  lemma QuotientSign(x: real, n: real)
    requires n > 0.0
    ensures x / n > 0.0 <==> x > 0.0
  {
  }

  // ----- The stop

  /** The stop a bar would allow, given the lowest low so far. */
  function Candidate(cfg: Config, entryPrice: real, lowest: real, atr: real): real {
    var trailing := lowest + atr * cfg.trailingAtrMult;
    if cfg.beEnabled && atr > 0.0 && lowest <= entryPrice - atr * cfg.beActivationAtrMult then
      Min(trailing, entryPrice - atr * cfg.beBufferAtrMult)
    else trailing
  }

  function Trail(cfg: Config, p: Position, low: real, atr: real): Position {
    var lowest := Min(p.lowestLow, low);
    var candidate := Candidate(cfg, p.entryPrice, lowest, atr);
    p.(lowestLow := lowest, stopLoss := if candidate < p.stopLoss then candidate else p.stopLoss)
  }

  // ----- Closing

  /** Hours are counted from the bar times, which are in seconds. */
  function HoldHours(p: Position, time: int): real {
    if time - p.entryTime < 0 then 0.0 else (time - p.entryTime) as real / 3600.0
  }

  function NetPnl(cfg: Config, p: Position, exitPrice: real, time: int): real {
    (p.entryPrice - exitPrice) * p.qty
    - (p.entryPrice + exitPrice) * p.qty * cfg.feePct
    - p.entryPrice * p.qty * cfg.funding8h * (HoldHours(p, time) / 8.0)
  }

  function Settled(p: Position, exitPrice: real, time: int, trigger: Trigger, net: real): Trade {
    var cost := p.entryPrice * p.qty;
    Trade(p.entryTime, time, p.entryPrice, exitPrice, net, if cost > 0.0 then net / cost * 100.0 else 0.0, trigger)
  }

  function Close(cfg: Config, s: State, exitPrice: real, time: int, trigger: Trigger): State {
    match s.position
    case None => s
    case Some(p) =>
      var net := NetPnl(cfg, p, exitPrice, time);
      State(s.balance + net, None, 0, s.trades + [Settled(p, exitPrice, time, trigger, net)])
  }

  /** A short in cash terms: the entry is received and the exit paid, each less its fee,
      and funding is paid on the entry notional for the time held. */
  lemma CloseIsCashFlow(cfg: Config, p: Position, exitPrice: real, time: int)
    ensures NetPnl(cfg, p, exitPrice, time)
         == p.entryPrice * p.qty * (1.0 - cfg.feePct) - exitPrice * p.qty * (1.0 + cfg.feePct)
            - p.entryPrice * p.qty * cfg.funding8h * (if time < p.entryTime then 0.0
                                                      else (time - p.entryTime) as real / 28800.0)
  {
  }

  // ----- One bar

  function OnBar(cfg: Config, s0: State, bar: Bar): State {
    var s := if s0.position.None? && bar.signal.intent.OpenShort? then TryOpen(cfg, s0, bar.open, bar) else s0;
    if s.position.None? then s else Manage(cfg, s, bar)
  }

  /** An open short at a bar: stopped out at a gap through the stop, closed on a signal,
      or trailed. */
  function Manage(cfg: Config, s: State, bar: Bar): State
    requires s.position.Some?
  {
    var p := s.position.value;
    if p.stopLoss > 0.0 && bar.open >= p.stopLoss then
      Close(cfg, s, bar.open, bar.time, if p.stopLoss < p.initialStop then TrailingStop else StopLoss)
    else if bar.signal.intent.CloseShort? || bar.signal.sell then Close(cfg, s, bar.open, bar.time, BySignal)
    else s.(position := Some(Trail(cfg, p, bar.low, bar.atr)))
  }

  /** What a bar does to a short that was open before it: a price at or above the stop, or a
      signal, closes it at the open of the bar; the recorded trade says which it was and what
      it earned. Otherwise nothing is recorded. */
  lemma HeldBar(cfg: Config, s: State, bar: Bar)
    requires s.position.Some?
    ensures var p, t := s.position.value, OnBar(cfg, s, bar);
            var stopped := p.stopLoss > 0.0 && bar.open >= p.stopLoss;
            if stopped || bar.signal.intent == CloseShort || bar.signal.sell then
              && t.position == None && t.breachBars == 0 && |t.trades| == |s.trades| + 1
              && t.trades[..|s.trades|] == s.trades
              && var trade := t.trades[|s.trades|];
                 && trade.entryTime == p.entryTime && trade.exitTime == bar.time
                 && trade.entryPrice == p.entryPrice && trade.exitPrice == bar.open
                 && trade.pnl == NetPnl(cfg, p, bar.open, bar.time) == t.balance - s.balance
                 && (p.entryPrice * p.qty > 0.0 ==> trade.pnlPct * (p.entryPrice * p.qty) == 100.0 * trade.pnl)
                 && (p.entryPrice * p.qty <= 0.0 ==> trade.pnlPct == 0.0)
                 && trade.trigger == (if !stopped then BySignal else if p.stopLoss < p.initialStop then TrailingStop
                                      else StopLoss)
            else
              && t.position.Some? && t == s.(position := t.position)
              && t.position.value == p.(lowestLow := t.position.value.lowestLow, stopLoss := t.position.value.stopLoss)
  {
    hide NetPnl, Candidate;
    var p := s.position.value;
    if p.entryPrice * p.qty > 0.0 {
      RatioBack(NetPnl(cfg, p, bar.open, bar.time), p.entryPrice * p.qty);
    }
  }

  lemma RatioBack(x: real, n: real)
    requires n > 0.0
    ensures x / n * 100.0 * n == 100.0 * x
  {
  }

  /** A bar without a short does nothing, unless its signal asks for one: then the short is
      opened at the open of the bar and treated as held on that bar. */
  lemma FlatBar(cfg: Config, s: State, bar: Bar)
    requires s.position.None?
    ensures var entered := TryOpen(cfg, s, bar.open, bar);
            OnBar(cfg, s, bar) ==
            if bar.signal.intent != OpenShort || entered.position.None? then s else OnBar(cfg, entered, bar)
  {
    hide Size, StopDistance, Trail, Close;
  }

  function UpdateBreach(s: State, price: real): State {
    match s.position
    case None => s.(breachBars := 0)
    case Some(p) => s.(breachBars := if p.stopLoss > 0.0 && price >= p.stopLoss then s.breachBars + 1 else 0)
  }

  // ----- The simulator object

  class ShortPositionSimulator {
    const cfg: Config
    var balance: real
    var position: Option<Position>
    var breachBars: nat
    var trades: seq<Trade>

    constructor (cfg: Config, initialBalance: real)
      ensures this.cfg == cfg && Now() == State(initialBalance, None, 0, [])
    {
      this.cfg := cfg;
      balance, position, breachBars, trades := initialBalance, None, 0, [];
    }

    ghost function Now(): State
      reads this
    {
      State(balance, position, breachBars, trades)
    }

    method UpdateSlBreach(price: real)
      modifies this`breachBars
      ensures Now() == UpdateBreach(old(Now()), price)
    {
      match position
      case None => breachBars := 0;
      case Some(p) =>
        if p.stopLoss > 0.0 && price >= p.stopLoss {
          breachBars := breachBars + 1;
        } else {
          breachBars := 0;
        }
    }

    method Sized(entryPrice: real, distance: real) returns (qty: real)
      requires entryPrice > 0.0 && distance > 0.0
      ensures qty == Size(cfg, balance, entryPrice, distance)
    {
      var risk := balance * cfg.riskPct;
      qty := risk / distance;
      var notional := qty * entryPrice;
      if cfg.maxPositionPct > 0.0 {
        var maxNotional := balance * cfg.maxPositionPct;
        if notional > maxNotional {
          notional := maxNotional;
          qty := notional / entryPrice;
        }
      }
    }

    method Open(entryPrice: real, bar: Bar) returns (ok: bool)
      modifies this`position, this`breachBars
      ensures Now() == TryOpen(cfg, old(Now()), entryPrice, bar)
      ensures ok == (old(position).None? && position.Some?)
    {
      hide StopDistance, Size;
      if position.Some? || entryPrice <= 0.0 {
        return false;
      }
      var distance := StopDistance(cfg, entryPrice, bar.atr, bar.signal);
      if distance <= 0.0 {
        return false;
      }
      var qty := Sized(entryPrice, distance);
      if qty <= 0.0 {
        return false;
      }
      var stop := entryPrice + distance;
      position := Some(Position(entryPrice, stop, entryPrice, qty, bar.time, stop));
      breachBars := 0;
      ok := true;
    }

    method CloseAt(exitPrice: real, time: int, trigger: Trigger)
      modifies this
      ensures Now() == Close(cfg, old(Now()), exitPrice, time, trigger)
    {
      match position
      case None =>
      case Some(p) =>
        var pnl := (p.entryPrice - exitPrice) * p.qty;
        var fee := (p.entryPrice + exitPrice) * p.qty * cfg.feePct;
        var hours := HoldHours(p, time);
        var funding := p.entryPrice * p.qty * cfg.funding8h * (hours / 8.0);
        var net := pnl - fee - funding;
        assert net == NetPnl(cfg, p, exitPrice, time);
        var cost := p.entryPrice * p.qty;
        var trade := Trade(p.entryTime, time, p.entryPrice, exitPrice, net,
                           if cost > 0.0 then net / cost * 100.0 else 0.0, trigger);
        assert trade == Settled(p, exitPrice, time, trigger, net);
        hide NetPnl, Settled;
        balance := balance + net;
        trades := trades + [trade];
        position := None;
        breachBars := 0;
    }

    method TrailStop(low: real, atr: real)
      requires position.Some?
      modifies this`position
      ensures position == Some(Trail(cfg, old(position).value, low, atr))
    {
      var p := position.value;
      var lowest := Min(p.lowestLow, low);
      var candidate := lowest + atr * cfg.trailingAtrMult;
      if cfg.beEnabled && atr > 0.0 {
        var activation := p.entryPrice - atr * cfg.beActivationAtrMult;
        if lowest <= activation {
          candidate := Min(candidate, p.entryPrice - atr * cfg.beBufferAtrMult);
        }
      }
      assert candidate == Candidate(cfg, p.entryPrice, lowest, atr);
      hide Candidate;
      p := p.(lowestLow := lowest);
      if candidate < p.stopLoss {
        p := p.(stopLoss := candidate);
      }
      position := Some(p);
    }

    method Process(bar: Bar)
      modifies this
      ensures Now() == OnBar(cfg, old(Now()), bar)
    {
      hide TryOpen, Close, Trail;
      if position.None? && bar.signal.intent.OpenShort? {
        var _ := Open(bar.open, bar);
      }
      if position.None? {
        return;
      }
      var p := position.value;
      if p.stopLoss > 0.0 && bar.open >= p.stopLoss {
        CloseAt(bar.open, bar.time, if p.stopLoss < p.initialStop then TrailingStop else StopLoss);
      } else if bar.signal.intent.CloseShort? || bar.signal.sell {
        CloseAt(bar.open, bar.time, BySignal);
      } else {
        TrailStop(bar.low, bar.atr);
      }
    }
  }

  // ----- Runs

  function Run(cfg: Config, s: State, bars: seq<Bar>): State
    decreases |bars|
  {
    if bars == [] then s else OnBar(cfg, Run(cfg, s, bars[..|bars| - 1]), bars[|bars| - 1])
  }

  function PnlSum(trades: seq<Trade>): real
    decreases |trades|
  {
    if trades == [] then 0.0 else PnlSum(trades[..|trades| - 1]) + trades[|trades| - 1].pnl
  }

  lemma PnlAppend(trades: seq<Trade>, trade: Trade)
    ensures PnlSum(trades + [trade]) == PnlSum(trades) + trade.pnl
  {
    assert (trades + [trade])[..|trades|] == trades;
  }

  lemma BarConserves(cfg: Config, s: State, bar: Bar)
    ensures OnBar(cfg, s, bar).balance - PnlSum(OnBar(cfg, s, bar).trades) == s.balance - PnlSum(s.trades)
  {
    hide NetPnl, Size, StopDistance, Trail;
    var t := OnBar(cfg, s, bar);
    if t.trades != s.trades {
      PnlAppend(s.trades, t.trades[|t.trades| - 1]);
    }
  }

  /** Over every sequence of bars the balance is the initial balance plus all recorded
      results. */
  lemma {:induction false} BalanceIsRecorded(cfg: Config, initial: real, bars: seq<Bar>)
    ensures var s := Run(cfg, State(initial, None, 0, []), bars); s.balance == initial + PnlSum(s.trades)
    decreases |bars|
  {
    if bars != [] {
      hide OnBar;
      BalanceIsRecorded(cfg, initial, bars[..|bars| - 1]);
      BarConserves(cfg, Run(cfg, State(initial, None, 0, []), bars[..|bars| - 1]), bars[|bars| - 1]);
    }
  }

  /** What every open position satisfies. */
  predicate Sound(p: Position) {
    p.qty > 0.0 && p.entryPrice > 0.0 && p.initialStop > p.entryPrice && p.stopLoss <= p.initialStop
      && p.lowestLow <= p.entryPrice
  }

  /** Every reachable position is sound, and while one stays open its stop and its lowest
      low never rise and its other terms never change. */
  lemma {:induction false} StopNeverRises(cfg: Config, initial: real, bars: seq<Bar>)
    ensures var s := Run(cfg, State(initial, None, 0, []), bars);
            && (s.position.Some? ==> Sound(s.position.value))
            && (bars != [] ==>
                  var before := Run(cfg, State(initial, None, 0, []), bars[..|bars| - 1]);
                  before.position.Some? && s.position.Some? ==>
                    var p, q := before.position.value, s.position.value;
                    && q.stopLoss <= p.stopLoss && q.lowestLow <= p.lowestLow
                    && q == p.(stopLoss := q.stopLoss, lowestLow := q.lowestLow))
    decreases |bars|
  {
    if bars != [] {
      hide Size, NetPnl, Candidate;
      StopNeverRises(cfg, initial, bars[..|bars| - 1]);
    }
  }

  // ----- The ratchet in closed form

  /** The bars a short lives through without being closed. */
  datatype Mark = Mark(low: real, atr: real)

  function Trailed(cfg: Config, p: Position, marks: seq<Mark>): Position
    decreases |marks|
  {
    if marks == [] then p
    else
      var last := marks[|marks| - 1];
      Trail(cfg, Trailed(cfg, p, marks[..|marks| - 1]), last.low, last.atr)
  }

  function LowestLow(start: real, marks: seq<Mark>): real
    decreases |marks|
  {
    if marks == [] then start else Min(LowestLow(start, marks[..|marks| - 1]), marks[|marks| - 1].low)
  }

  /** The stop that bar `k` allows: built from the lowest low up to and including it. */
  function CandidateAt(cfg: Config, p: Position, marks: seq<Mark>, k: nat): real
    requires k < |marks|
  {
    Candidate(cfg, p.entryPrice, LowestLow(p.lowestLow, marks[..k + 1]), marks[k].atr)
  }

  /** Breakeven is on, and by bar `k` the lowest low has come down from the entry by the
      activation multiple of the bar's range. */
  predicate FarEnough(cfg: Config, p: Position, marks: seq<Mark>, k: nat)
    requires k < |marks|
  {
    && cfg.beEnabled && marks[k].atr > 0.0
    && LowestLow(p.lowestLow, marks[..k + 1]) <= p.entryPrice - marks[k].atr * cfg.beActivationAtrMult
  }

  /** `stop` is the least of the starting stop, the trailing bounds of all bars, and the
      breakeven bounds of those bars on which the lowest low had come far enough. */
  ghost predicate IsLeastStop(cfg: Config, p: Position, marks: seq<Mark>, stop: real) {
    && stop <= p.stopLoss
    && (forall k :: 0 <= k < |marks| ==>
          stop <= LowestLow(p.lowestLow, marks[..k + 1]) + marks[k].atr * cfg.trailingAtrMult)
    && (forall k :: 0 <= k < |marks| && FarEnough(cfg, p, marks, k) ==>
          stop <= p.entryPrice - marks[k].atr * cfg.beBufferAtrMult)
    && (|| stop == p.stopLoss
        || (exists k :: 0 <= k < |marks|
              && stop == LowestLow(p.lowestLow, marks[..k + 1]) + marks[k].atr * cfg.trailingAtrMult)
        || (exists k :: 0 <= k < |marks| && FarEnough(cfg, p, marks, k)
              && stop == p.entryPrice - marks[k].atr * cfg.beBufferAtrMult))
  }

  /** The lowest low is one of the lows, or the start, and no low is below it. */
  lemma {:induction false} LowestLowIsLeast(start: real, marks: seq<Mark>)
    ensures LowestLow(start, marks) <= start && forall k :: 0 <= k < |marks| ==> LowestLow(start, marks) <= marks[k].low
    ensures LowestLow(start, marks) == start || exists k :: 0 <= k < |marks| && LowestLow(start, marks) == marks[k].low
    decreases |marks|
  {
    if marks != [] {
      LowestLowIsLeast(start, marks[..|marks| - 1]);
    }
  }

  lemma CandidateBounds(cfg: Config, p: Position, marks: seq<Mark>, k: nat, stop: real)
    requires k < |marks|
    ensures var lowest, atr := LowestLow(p.lowestLow, marks[..k + 1]), marks[k].atr;
            var even := FarEnough(cfg, p, marks, k);
            && (stop <= CandidateAt(cfg, p, marks, k) ==>
                  stop <= lowest + atr * cfg.trailingAtrMult
                  && (even ==> stop <= p.entryPrice - atr * cfg.beBufferAtrMult))
            && (stop == CandidateAt(cfg, p, marks, k) ==>
                  stop == lowest + atr * cfg.trailingAtrMult
                  || (even && stop == p.entryPrice - atr * cfg.beBufferAtrMult))
  {
    hide LowestLow;
  }

  /** The least of the starting stop and the candidates is the least of all bounds. */
  lemma LeastOfCandidates(cfg: Config, p: Position, marks: seq<Mark>, stop: real)
    requires stop <= p.stopLoss && forall k :: 0 <= k < |marks| ==> stop <= CandidateAt(cfg, p, marks, k)
    requires stop == p.stopLoss || exists k :: 0 <= k < |marks| && stop == CandidateAt(cfg, p, marks, k)
    ensures IsLeastStop(cfg, p, marks, stop)
  {
    hide LowestLow, CandidateAt, FarEnough;
    forall k | 0 <= k < |marks|
      ensures stop <= LowestLow(p.lowestLow, marks[..k + 1]) + marks[k].atr * cfg.trailingAtrMult
      ensures FarEnough(cfg, p, marks, k) ==> stop <= p.entryPrice - marks[k].atr * cfg.beBufferAtrMult
    {
      assert stop <= CandidateAt(cfg, p, marks, k);
      CandidateBounds(cfg, p, marks, k, stop);
    }
    if stop != p.stopLoss {
      var k :| 0 <= k < |marks| && stop == CandidateAt(cfg, p, marks, k);
      CandidateBounds(cfg, p, marks, k, stop);
      assert marks[k] == marks[k];
    }
  }

  /** The ratchet: after any bars the stop is exactly the least of the initial stop and the
      bounds of all bars, each built from the lowest low so far. */
  lemma StopIsLeast(cfg: Config, p: Position, marks: seq<Mark>)
    ensures var q := Trailed(cfg, p, marks);
            && q.entryPrice == p.entryPrice
            && q.lowestLow == LowestLow(p.lowestLow, marks)
            && IsLeastStop(cfg, p, marks, q.stopLoss)
  {
    hide Trailed, IsLeastStop, CandidateAt;
    CandidatesRatchet(cfg, p, marks);
    LeastOfCandidates(cfg, p, marks, Trailed(cfg, p, marks).stopLoss);
  }

  lemma {:induction false} CandidatesRatchet(cfg: Config, p: Position, marks: seq<Mark>)
    ensures var q := Trailed(cfg, p, marks);
            && q.entryPrice == p.entryPrice
            && q.lowestLow == LowestLow(p.lowestLow, marks)
            && q.stopLoss <= p.stopLoss
            && (forall k :: 0 <= k < |marks| ==> q.stopLoss <= CandidateAt(cfg, p, marks, k))
            && (q.stopLoss == p.stopLoss || exists k :: 0 <= k < |marks| && q.stopLoss == CandidateAt(cfg, p, marks, k))
    decreases |marks|
  {
    if marks != [] {
      hide Candidate;
      var n := |marks| - 1;
      CandidatesRatchet(cfg, p, marks[..n]);
      assert marks[..n + 1] == marks;
      forall k | 0 <= k < n ensures CandidateAt(cfg, p, marks, k) == CandidateAt(cfg, p, marks[..n], k) {
        assert marks[..n][..k + 1] == marks[..k + 1];
      }
      var before, q := Trailed(cfg, p, marks[..n]), Trailed(cfg, p, marks);
      assert q.stopLoss == Min(before.stopLoss, CandidateAt(cfg, p, marks, n));
    }
  }

  function Marks(bars: seq<Bar>): (marks: seq<Mark>)
    ensures |marks| == |bars|
    ensures forall i :: 0 <= i < |bars| ==> marks[i] == Mark(bars[i].low, bars[i].atr)
  {
    seq(|bars|, i requires 0 <= i < |bars| => Mark(bars[i].low, bars[i].atr))
  }

  lemma {:induction false} TradesGrow(cfg: Config, s: State, bars: seq<Bar>)
    ensures s.trades <= Run(cfg, s, bars).trades
    decreases |bars|
  {
    if bars != [] {
      hide TryOpen, NetPnl, Settled, Trail;
      TradesGrow(cfg, s, bars[..|bars| - 1]);
      OpenKeepsTrades(cfg, Run(cfg, s, bars[..|bars| - 1]), bars[|bars| - 1]);
    }
  }

  lemma OpenKeepsTrades(cfg: Config, s: State, bar: Bar)
    ensures TryOpen(cfg, s, bar.open, bar).trades == s.trades
  {
    hide Size, StopDistance;
  }

  /** As long as no trade is recorded, an open short is simply trailed from bar to bar, so
      `StopIsLeast` gives its stop. */
  lemma {:induction false} HeldIsTrailed(cfg: Config, s: State, bars: seq<Bar>)
    requires s.position.Some? && Run(cfg, s, bars).trades == s.trades
    ensures Run(cfg, s, bars).position == Some(Trailed(cfg, s.position.value, Marks(bars)))
    ensures IsLeastStop(cfg, s.position.value, Marks(bars), Run(cfg, s, bars).position.value.stopLoss)
    decreases |bars|
  {
    hide NetPnl, Settled, Trail, IsLeastStop;
    StopIsLeast(cfg, s.position.value, Marks(bars));
    if bars != [] {
      var front := bars[..|bars| - 1];
      TradesGrow(cfg, s, front);
      TradesGrow(cfg, Run(cfg, s, front), [bars[|bars| - 1]]);
      assert [bars[|bars| - 1]][..0] == [];
      HeldIsTrailed(cfg, s, front);
      assert Marks(bars)[..|bars| - 1] == Marks(front);
    }
  }

  lemma OpeningBar(cfg: Config, s: State, bar: Bar)
    requires s.position.None? && OnBar(cfg, s, bar).position.Some?
    ensures var entered := TryOpen(cfg, s, bar.open, bar);
            && entered.position.Some? && entered.trades == s.trades && bar.signal.intent.OpenShort?
            && entered.position.value.stopLoss == entered.position.value.initialStop
            && entered.position.value.lowestLow == entered.position.value.entryPrice == bar.open
            && OnBar(cfg, s, bar) == OnBar(cfg, entered, bar)
  {
    hide Size, StopDistance, Trail, Close;
  }

  /** The ratchet from the opening on: a short that a bar opens, and that is still open
      after more bars, has the least of its initial stop and the candidates of all its
      bars, the opening bar included. */
  lemma OpenedShortStop(cfg: Config, s: State, bars: seq<Bar>)
    requires s.position.None? && bars != []
    requires OnBar(cfg, s, bars[0]).position.Some? && Run(cfg, s, bars).trades == s.trades
    ensures var entered := TryOpen(cfg, s, bars[0].open, bars[0]);
            && entered.position.Some? && Run(cfg, s, bars).position.Some?
            && entered.position.value.stopLoss == entered.position.value.initialStop
            && Run(cfg, s, bars).position.value.initialStop == entered.position.value.initialStop
            && IsLeastStop(cfg, entered.position.value, Marks(bars), Run(cfg, s, bars).position.value.stopLoss)
  {
    hide OnBar, TryOpen, Trail, IsLeastStop, Run;
    var entered := TryOpen(cfg, s, bars[0].open, bars[0]);
    OpeningBar(cfg, s, bars[0]);
    SameFromFirst(cfg, s, entered, bars);
    HeldIsTrailed(cfg, entered, bars);
    TrailedKeepsInitial(cfg, entered.position.value, Marks(bars));
  }

  /** Two states that the first bar takes to the same state go on alike. */
  lemma {:induction false} SameFromFirst(cfg: Config, s: State, t: State, bars: seq<Bar>)
    requires bars != [] && OnBar(cfg, s, bars[0]) == OnBar(cfg, t, bars[0])
    ensures Run(cfg, s, bars) == Run(cfg, t, bars)
    decreases |bars|
  {
    hide OnBar;
    if |bars| > 1 {
      SameFromFirst(cfg, s, t, bars[..|bars| - 1]);
    } else {
      assert bars[..0] == [];
    }
  }

  lemma {:induction false} TrailedKeepsInitial(cfg: Config, p: Position, marks: seq<Mark>)
    ensures Trailed(cfg, p, marks).initialStop == p.initialStop
    decreases |marks|
  {
    hide Candidate;
    if marks != [] {
      TrailedKeepsInitial(cfg, p, marks[..|marks| - 1]);
    }
  }

  // ----- Confirmation of a breached stop

  /** What the replay feeds the simulator: a price for the breach counter, or a bar, which
      may move the stop, open a short or close it. */
  datatype Tick = Price(price: real) | Candle(bar: Bar)

  function OnTick(cfg: Config, s: State, tick: Tick): State {
    match tick
    case Price(price) => UpdateBreach(s, price)
    case Candle(bar) => OnBar(cfg, s, bar)
  }

  function Replay(cfg: Config, s: State, ticks: seq<Tick>): State
    decreases |ticks|
  {
    if ticks == [] then s else OnTick(cfg, Replay(cfg, s, ticks[..|ticks| - 1]), ticks[|ticks| - 1])
  }

  /** The price is at or above the stop in force. */
  predicate IsBreach(s: State, price: real) {
    s.position.Some? && s.position.value.stopLoss > 0.0 && price >= s.position.value.stopLoss
  }

  /** A bar that entered a short or closed one. */
  predicate Restarts(before: State, after: State) {
    (before.position.None? && after.position.Some?) || |after.trades| > |before.trades|
  }

  /** For each price since the last opening or closing, whether it breached the stop then
      in force. */
  function Breaches(cfg: Config, s: State, ticks: seq<Tick>): seq<bool>
    decreases |ticks|
  {
    if ticks == [] then []
    else
      var front, last := ticks[..|ticks| - 1], ticks[|ticks| - 1];
      var before := Replay(cfg, s, front);
      match last
      case Price(price) => Breaches(cfg, s, front) + [IsBreach(before, price)]
      case Candle(_) => if Restarts(before, Replay(cfg, s, ticks)) then [] else Breaches(cfg, s, front)
  }

  /** The stop has been breached often enough in a row. */
  predicate SlConfirmed(cfg: Config, s: State) { s.breachBars >= ConfirmTicks(cfg) }

  function ConfirmTicks(cfg: Config): nat { if cfg.slConfirmTicks < 1 then 1 else cfg.slConfirmTicks }

  /** The last `n` of them are all true. */
  predicate EndsTrue(flags: seq<bool>, n: nat) {
    n <= |flags| && forall i :: |flags| - n <= i < |flags| ==> flags[i]
  }

  /** How many at the end are true. */
  function TrueRun(flags: seq<bool>): (n: nat)
    ensures n <= |flags|
    decreases |flags|
  {
    if flags == [] || !flags[|flags| - 1] then 0 else TrueRun(flags[..|flags| - 1]) + 1
  }

  lemma {:induction false} TrueRunIs(flags: seq<bool>, n: nat)
    ensures TrueRun(flags) >= n <==> EndsTrue(flags, n)
    decreases |flags|
  {
    if n > 0 && flags != [] && flags[|flags| - 1] {
      var front := flags[..|flags| - 1];
      TrueRunIs(front, n - 1);
      if EndsTrue(front, n - 1) {
        forall i | |flags| - n <= i < |flags| ensures flags[i] {
          assert i < |front| ==> flags[i] == front[i];
        }
      }
      if EndsTrue(flags, n) {
        forall i | |front| - (n - 1) <= i < |front| ensures front[i] {
          assert front[i] == flags[i];
        }
      }
    }
  }

  lemma TrueRunAppend(flags: seq<bool>, flag: bool)
    ensures TrueRun(flags + [flag]) == if flag then TrueRun(flags) + 1 else 0
  {
    assert (flags + [flag])[..|flags|] == flags;
  }

  /** What a bar does to the counter: an opening or a closing starts it over, any other bar
      leaves it alone. */
  lemma BarAndCounter(cfg: Config, s: State, bar: Bar)
    ensures OnBar(cfg, s, bar).breachBars == if Restarts(s, OnBar(cfg, s, bar)) then 0 else s.breachBars
  {
    hide Size, StopDistance, Trail, NetPnl, Settled;
  }

  /** The counter is the length of the run of breaching prices at the end. */
  lemma {:induction false} CounterIsRun(cfg: Config, initial: real, ticks: seq<Tick>)
    ensures var start := State(initial, None, 0, []);
            Replay(cfg, start, ticks).breachBars == TrueRun(Breaches(cfg, start, ticks))
    decreases |ticks|
  {
    var start := State(initial, None, 0, []);
    if ticks != [] {
      hide OnBar, Restarts, TrueRun;
      var n := |ticks| - 1;
      CounterIsRun(cfg, initial, ticks[..n]);
      var before := Replay(cfg, start, ticks[..n]);
      NoFlags();
      match ticks[n] {
        case Price(price) => TrueRunAppend(Breaches(cfg, start, ticks[..n]), IsBreach(before, price));
        case Candle(bar) => BarAndCounter(cfg, before, bar);
      }
    } else {
      NoFlags();
    }
  }

  lemma NoFlags()
    ensures TrueRun([]) == 0
  {
  }

  /** A breach is confirmed exactly when the last so many prices, at least one, have each
      been at or above the stop in force at the time, without an opening or a closing
      since: whatever bars moved the stop in between. */
  lemma ConfirmedMeansConsecutive(cfg: Config, initial: real, ticks: seq<Tick>)
    ensures var start := State(initial, None, 0, []);
            SlConfirmed(cfg, Replay(cfg, start, ticks)) <==>
            EndsTrue(Breaches(cfg, start, ticks), if cfg.slConfirmTicks < 1 then 1 else cfg.slConfirmTicks)
  {
    hide EndsTrue, Replay, Breaches;
    CounterIsRun(cfg, initial, ticks);
    TrueRunIs(Breaches(cfg, State(initial, None, 0, []), ticks), ConfirmTicks(cfg));
  }
}
