/**
 * Client code that drives a `Server` through typical sessions, using nothing
 * but the handlers' contracts.
 */
module Scenarios {
  import opened Wrappers
  import opened Numbers
  import opened Orders
  import opened Sessions
  import opened SessionServer

  function PizzaPayload(): OrderPayload {
    OrderPayload(None, Some("Ann"), Some("Pizza"), Some(2), Some(Finite(12.5)), None, None, None)
  }

  function PizzaOrder(): Order {
    Order("o1", Some("Ann"), "Pizza", Some(2), Some(12.5), None, false, "stamp")
  }

  /** The pizza payload passes every check and is stored with its price unchanged. */
  lemma PizzaAccepted()
    ensures Admit(PizzaPayload(), "o1", "stamp") == Success(PizzaOrder())
  {
    assert !JsText.IsWhitespace('P') && !JsText.IsWhitespace('a');
    assert JsText.TrimStart("Pizza") == "Pizza";
    assert JsText.TrimEnd("Pizza") == "Pizza";
    JsText.Utf16LengthOfBmp("Pizza");
    Round2OfCents(12.5);
  }

  /**
   * Create a session, join A then B, and let A add two pizzas at 12.5: both
   * receive one `orders` message holding the one unordered order at 12.50.
   */
  method TwoClientsSeeNewOrder(t: int) returns (out: seq<Delivery>)
    ensures |out| == 2 && Recipients(out) == {1, 2}
    ensures forall i :: 0 <= i < |out| ==>
      && out[i].msg.OrdersMsg?
      && |out[i].msg.orders| == 1
      && out[i].msg.orders[0].item == "Pizza"
      && out[i].msg.orders[0].quantity == Some(2)
      && out[i].msg.orders[0].price == Some(12.5)
      && !out[i].msg.orders[0].isOrdered
  {
    var server := new Server();
    var code := server.CreateSession("K3X9QZ", t);
    var _ := server.Join(1, code, t + 1);
    var _ := server.Join(2, code, t + 2);
    var joined := server.sessions[code];
    assert joined.orders == [] && joined.clients == {1, 2} && server.Active(1);
    PizzaAccepted();
    out := server.AddOrder(1, PizzaPayload(), "o1", "stamp", {1, 2});
    var msg := OrdersMsg([PizzaOrder()], DefaultTaxPercent);
    assert server.sessions[code] == joined.(orders := [PizzaOrder()]);
    assert Fanout(out, {1, 2}, msg);
    FanoutSize(out, {1, 2}, msg);
  }

  /**
   * A session created at `t` is still there one second before the timeout;
   * a sweep one second after it tells its open client and deletes it, and a
   * later lookup no longer finds it.
   */
  method SessionExpiresAfterTimeout(t: int) returns (before: LookupReply, notices: seq<Delivery>, after: LookupReply)
    ensures before == Exists
    ensures notices == [Delivery(7, SessionExpiredMsg(SessionExpiredText))]
    ensures after == NotFound
  {
    var server := new Server();
    var code := server.CreateSession("K3X9QZ", t);
    var _ := server.Join(7, code, t);
    before := server.LookupSession(code, t + SessionTimeout - 1000);
    var closing;
    notices, closing := server.CleanupSessions(t + SessionTimeout + 1000, {7});
    assert closing == {7} by {
      assert 7 in server.binding;
    }
    FanoutSize(notices, closing, SessionExpiredMsg(SessionExpiredText));
    assert notices[0].to in closing;
    after := server.LookupSession(code, t + SessionTimeout + 2000);
  }

  /**
   * `set_tax` with a value that does not parse sends an error to the
   * requester only; the rate stays 13.
   */
  method UnparsableTaxIsRefused(t: int) returns (out: seq<Delivery>, tax: real)
    ensures out == [Delivery(1, ErrorMsg(TaxError))]
    ensures tax == DefaultTaxPercent
  {
    var server := new Server();
    var _ := server.Join(1, "K3X9QZ", t);
    var _ := server.Join(2, "K3X9QZ", t);
    out := server.SetTax(1, NaN, {1, 2});
    tax := server.sessions["K3X9QZ"].taxPercent;
  }

  /**
   * A connection that joins one code, then another, then closes, stays in
   * the first session's clients; only the last session loses it.
   */
  method RejoinLeavesOldMembership(t: int) returns (inFirst: bool, inSecond: bool)
    ensures inFirst && !inSecond
  {
    var server := new Server();
    var _ := server.Join(1, "FIRST1", t);
    var _ := server.Join(1, "SECOND", t);
    server.Close(1);
    inFirst := 1 in server.sessions["FIRST1"].clients;
    inSecond := 1 in server.sessions["SECOND"].clients;
  }

  /** Mutations from a connection that never joined change nothing and send nothing. */
  method UnjoinedConnectionIsIgnored(t: int) returns (out: seq<Delivery>, orders: seq<Order>)
    ensures out == [] && orders == []
  {
    var server := new Server();
    var _ := server.Join(1, "K3X9QZ", t);
    out := server.AddOrder(9, PizzaPayload(), "o1", "stamp", {1, 9});
    orders := server.sessions["K3X9QZ"].orders;
  }
}
