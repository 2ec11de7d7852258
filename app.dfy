/** The TradingView webhook handler: one process-wide position flag that a
    BUY, SELL or EXIT signal moves, placing a buy or sell bracket order only
    when the flag changes to LONG or SHORT. */
module Webhook {

  /** `CURRENT_POSITION`: "LONG", "SHORT" or None. It is a single global, not
      kept per symbol. */
  datatype Position = Long | Short | Flat

  /** One call of the order function: side ("buy" or "sell"), the symbol and
      the price exactly as the request carried them. */
  datatype OrderCall = OrderCall(side: string, symbol: string, price: real)

  /** The handler's JSON reply. */
  datatype Response = Response(status: string)

  /** The position after one signal and the order calls it made. */
  datatype Step = Step(position: Position, calls: seq<OrderCall>)

  /** One webhook request, after the body has been parsed. */
  datatype Request = Request(signal: string, symbol: string, price: real)

  /** The position an order on `side` leaves the flag in. */
  function PositionOf(side: string): Position
  {
    if side == "buy" then Long else Short
  }

  /** The effect of one signal on the position: BUY opens a long with one buy
      order unless already long, SELL opens a short with one sell order unless
      already short (without closing a long first), EXIT clears the flag
      without any order, and anything else, lower-case "buy" included, does
      nothing. At most one order is placed, and an order always leaves the
      flag on its own side. */
  function Transition(pos: Position, req: Request): (s: Step)
    ensures |s.calls| <= 1
    ensures s.calls != [] ==> s.position == PositionOf(s.calls[0].side) != pos
    ensures s.calls != [] ==> s.calls[0].symbol == req.symbol && s.calls[0].price == req.price
    ensures s.calls == [] ==> s.position == pos || (req.signal == "EXIT" && s.position == Flat)
  {
    if req.signal == "BUY" && pos != Long then
      Step(Long, [OrderCall("buy", req.symbol, req.price)])
    else if req.signal == "SELL" && pos != Short then
      Step(Short, [OrderCall("sell", req.symbol, req.price)])
    else if req.signal == "EXIT" then
      Step(Flat, [])
    else
      Step(pos, [])
  }

  /** BUY from any position but long places exactly one buy order and goes
      long; SELL from any position but short places exactly one sell order
      (and nothing to close the long) and goes short. */
  lemma OpensOnChange(pos: Position, req: Request)
    ensures req.signal == "BUY" && pos != Long ==>
      Transition(pos, req) == Step(Long, [OrderCall("buy", req.symbol, req.price)])
    ensures req.signal == "SELL" && pos != Short ==>
      Transition(pos, req) == Step(Short, [OrderCall("sell", req.symbol, req.price)])
  {
  }

  /** A signal places an order exactly when it is BUY while not long or SELL
      while not short; every other signal, a repeat included, places none. */
  lemma OrderIff(pos: Position, req: Request)
    ensures Transition(pos, req).calls != [] <==>
      (req.signal == "BUY" && pos != Long) || (req.signal == "SELL" && pos != Short)
  {
  }

  /** EXIT always clears the flag and places nothing; a signal other than
      BUY, SELL and EXIT changes nothing. */
  lemma ExitAndUnknown(pos: Position, req: Request)
    ensures req.signal == "EXIT" ==> Transition(pos, req) == Step(Flat, [])
    ensures req.signal !in {"BUY", "SELL", "EXIT"} ==> Transition(pos, req) == Step(pos, [])
  {
  }

  /** A second BUY or SELL right after the first places no order and leaves
      the flag alone, whatever symbol and price it carries: the flag is one
      global, so a BUY for another symbol is ignored too. */
  lemma RepeatIgnored(pos: Position, first: Request, second: Request)
    requires first.signal == second.signal
    requires first.signal == "BUY" || first.signal == "SELL"
    ensures var s1 := Transition(pos, first);
      var s2 := Transition(s1.position, second);
      s2.calls == [] && s2.position == s1.position
  {
  }

  /** The position and the order calls after a whole sequence of requests. */
  function Run(pos: Position, reqs: seq<Request>): Step
    decreases |reqs|
  {
    if reqs == [] then Step(pos, [])
    else
      var s := Transition(pos, reqs[0]);
      var t := Run(s.position, reqs[1..]);
      Step(t.position, s.calls + t.calls)
  }

  /** Each order moves the flag away from where the previous one left it,
      starting from `pos`. */
  predicate Alternates(pos: Position, calls: seq<OrderCall>)
    decreases |calls|
  {
    calls == [] ||
    (PositionOf(calls[0].side) != pos && Alternates(PositionOf(calls[0].side), calls[1..]))
  }

  /** The position the last of `calls` leaves, or `pos` when there is none. */
  function LastPosition(pos: Position, calls: seq<OrderCall>): Position
  {
    if calls == [] then pos else PositionOf(calls[|calls| - 1].side)
  }

  /** Between EXITs, orders alternate: no two consecutive orders are on the
      same side, the first differs from the starting position, every order
      is a "buy" or a "sell", and the flag ends on the side of the last order
      (or where it started if none was placed). */
  lemma {:induction false} RunWithoutExitAlternates(pos: Position, reqs: seq<Request>)
    requires forall i :: 0 <= i < |reqs| ==> reqs[i].signal != "EXIT"
    ensures var r := Run(pos, reqs);
      && Alternates(pos, r.calls)
      && r.position == LastPosition(pos, r.calls)
      && forall i :: 0 <= i < |r.calls| ==> r.calls[i].side in {"buy", "sell"}
    decreases |reqs|
  {
    if reqs != [] {
      var s := Transition(pos, reqs[0]);
      assert reqs[0].signal != "EXIT";
      RunWithoutExitAlternates(s.position, reqs[1..]);
      var t := Run(s.position, reqs[1..]);
      if s.calls != [] {
        assert s.calls + t.calls == [s.calls[0]] + t.calls;
        assert (s.calls + t.calls)[1..] == t.calls;
        assert s.calls[0].side in {"buy", "sell"};
      } else {
        assert s.calls + t.calls == t.calls;
      }
    }
  }

  /** The same BUY or SELL delivered twice in a row places at most one order,
      and exactly one when the flag was not already on that side. */
  lemma DuplicateDeliveryOrdersOnce(pos: Position, req: Request)
    requires req.signal == "BUY" || req.signal == "SELL"
    ensures var target := if req.signal == "BUY" then Long else Short;
      |Run(pos, [req, req]).calls| == (if pos == target then 0 else 1)
  {
    var s := Transition(pos, req);
    var t := Transition(s.position, req);
    assert [req, req][1..] == [req];
    assert Run(s.position, [req]) == Step(t.position, t.calls + []);
  }

  /** The Flask application's state: the position flag and, standing for the
      order function, the log of every order call made so far. */
  class Server {
    var currentPosition: Position
    var orderCalls: seq<OrderCall>

    /** A fresh process: no position, no order placed. */
    constructor ()
      ensures currentPosition == Flat && orderCalls == []
    {
      currentPosition := Flat;
      orderCalls := [];
    }

    /** `webhook`: act on one parsed request, update the global flag, record
        the order call if one is made, and always answer {"status": "ok"}. */
    method HandleWebhook(signal: string, symbol: string, price: real) returns (response: Response)
      modifies this
      ensures response == Response("ok")
      ensures var s := Transition(old(currentPosition), Request(signal, symbol, price));
        currentPosition == s.position && orderCalls == old(orderCalls) + s.calls
    {
      if signal == "BUY" && currentPosition != Long {
        orderCalls := orderCalls + [OrderCall("buy", symbol, price)];
        currentPosition := Long;
      } else if signal == "SELL" && currentPosition != Short {
        orderCalls := orderCalls + [OrderCall("sell", symbol, price)];
        currentPosition := Short;
      } else if signal == "EXIT" {
        currentPosition := Flat;
      }
      return Response("ok");
    }
  }
}
