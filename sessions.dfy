/**
 * A session record, the messages the server sends, the broadcast loop that
 * sends one message to every open client of a session, the tax check, and
 * the expiry rule.
 */
module Sessions {
  import opened Wrappers
  import opened Numbers
  import opened Orders

  /** A client connection, identified by a number. */
  type Conn = nat

  /** A session code, as the client sends it in `join` or the HTTP path. */
  type Code = string

  /** Four hours, in milliseconds. */
  const SessionTimeout: int := 4 * 60 * 60 * 1000
  const DefaultTaxPercent: real := 13.0
  const MaxTaxPercent: nat := 50

  const TaxError: string := "Invalid tax percent. Must be between 0 and 50"
  const OrderNotFound: string := "Order not found"
  const SessionExpiredText: string := "Session has expired"

  /** One session: its orders in insertion order, its client set, creation time (ms) and tax rate. */
  datatype Session = Session(orders: seq<Order>, clients: set<Conn>, createdAt: int, taxPercent: real)

  /** The record both `join` on an unknown code and `POST /api/sessions` store. */
  function NewSession(now: int): Session {
    Session([], {}, now, DefaultTaxPercent)
  }

  /** `now - createdAt > SESSION_TIMEOUT`: strictly older than the timeout. */
  predicate IsExpired(s: Session, now: int) {
    now - s.createdAt > SessionTimeout
  }

  /** The invariant every stored session keeps: tax in [0, 50] in hundredths, every order well formed. */
  predicate SessionWellFormed(s: Session) {
    && 0.0 <= s.taxPercent <= MaxTaxPercent as real
    && IsCents(s.taxPercent)
    && forall i :: 0 <= i < |s.orders| ==> OrderWellFormed(s.orders[i])
  }

  /** A fresh session is well formed whatever its clients. */
  lemma NewSessionWellFormed(now: int, clients: set<Conn>)
    ensures SessionWellFormed(NewSession(now).(clients := clients))
  {
    assert (13.0 * 100.0).Floor == 1300;
  }

  /**
   * `set_tax` on its parsed value: NaN, negative and above-50 values are
   * refused with the tax error; any other value is stored rounded to
   * hundredths, which keeps it in [0, 50].
   */
  function CheckTax(n: Number): (r: Result<real>)
    ensures r.Failure? <==> Rejected(n, MaxTaxPercent)
    ensures r.Failure? ==> r.error == TaxError
    ensures r.Success? ==> n.Finite? && r.value == Round2(n.value)
    ensures r.Success? ==> 0.0 <= r.value <= MaxTaxPercent as real && IsCents(r.value)
  {
    if Rejected(n, MaxTaxPercent) then Failure(TaxError)
    else
      Round2InRange(n.value, MaxTaxPercent);
      Success(Round2(n.value))
  }

  /** What the server writes to a connection. */
  datatype OutMsg =
    | OrdersMsg(orders: seq<Order>, taxPercent: real)
    | ErrorMsg(message: string)
    | SessionExpiredMsg(message: string)

  /** The `orders` message carrying a session's full state. */
  function Snapshot(s: Session): OutMsg {
    OrdersMsg(s.orders, s.taxPercent)
  }

  /** One `send` call: a message to a connection. */
  datatype Delivery = Delivery(to: Conn, msg: OutMsg)

  function Recipients(out: seq<Delivery>): set<Conn> {
    set i | 0 <= i < |out| :: out[i].to
  }

  /** `out` sends `msg`, exactly once, to each connection of `targets`, and to no one else. */
  predicate Fanout(out: seq<Delivery>, targets: set<Conn>, msg: OutMsg) {
    && (forall i :: 0 <= i < |out| ==> out[i].msg == msg)
    && Recipients(out) == targets
    && (forall i, j :: 0 <= i < j < |out| ==> out[i].to != out[j].to)
  }

  /** Two fan-outs of one message to disjoint sets make one fan-out to their union. */
  lemma FanoutAppend(a: seq<Delivery>, b: seq<Delivery>, ta: set<Conn>, tb: set<Conn>, msg: OutMsg)
    requires Fanout(a, ta, msg) && Fanout(b, tb, msg) && ta !! tb
    ensures Fanout(a + b, ta + tb, msg)
  {
    var ab := a + b;
    forall i | 0 <= i < |ab| ensures ab[i].to in ta + tb {
      if i < |a| { assert ab[i].to == a[i].to; } else { assert ab[i].to == b[i - |a|].to; }
    }
    forall c | c in ta + tb ensures c in Recipients(ab) {
      if c in ta {
        var i :| 0 <= i < |a| && a[i].to == c;
        assert ab[i].to == c;
      } else {
        var i :| 0 <= i < |b| && b[i].to == c;
        assert ab[|a| + i].to == c;
      }
    }
    forall i, j | 0 <= i < j < |ab| ensures ab[i].to != ab[j].to {
      if j < |a| {
      } else if i >= |a| {
        assert ab[i].to == b[i - |a|].to && ab[j].to == b[j - |a|].to;
      } else {
        assert ab[i].to == a[i].to && a[i].to in ta;
        assert ab[j].to == b[j - |a|].to && b[j - |a|].to in tb;
      }
    }
  }

  /**
   * `clients.forEach(c => { if (c.readyState === OPEN) c.send(msg) })`:
   * every client that is open gets the message once; closed ones are skipped.
   */
  method Broadcast(clients: set<Conn>, open: set<Conn>, msg: OutMsg) returns (out: seq<Delivery>)
    ensures Fanout(out, clients * open, msg)
    ensures |out| == |clients * open|
  {
    out := [];
    var pending := clients;
    while pending != {}
      invariant pending <= clients
      invariant Fanout(out, (clients - pending) * open, msg)
      decreases pending
    {
      var c :| c in pending;
      if c in open {
        assert Recipients([Delivery(c, msg)]) == {c} by {
          assert [Delivery(c, msg)][0].to == c;
        }
        FanoutAppend(out, [Delivery(c, msg)], (clients - pending) * open, {c}, msg);
        out := out + [Delivery(c, msg)];
      }
      pending := pending - {c};
    }
    FanoutSize(out, clients * open, msg);
  }

  /** A fan-out sends as many messages as it has targets. */
  lemma {:induction false} FanoutSize(out: seq<Delivery>, targets: set<Conn>, msg: OutMsg)
    requires Fanout(out, targets, msg)
    ensures |out| == |targets|
  {
    if out != [] {
      var last := out[|out| - 1];
      var init := out[..|out| - 1];
      assert Fanout(init, targets - {last.to}, msg) by {
        forall c | c in targets - {last.to} ensures c in Recipients(init) {
          var i :| 0 <= i < |out| && out[i].to == c;
          assert i < |out| - 1;
          assert init[i].to == c;
        }
        forall i | 0 <= i < |init| ensures init[i].to != last.to && init[i].to in targets {
          assert init[i] == out[i];
        }
      }
      FanoutSize(init, targets - {last.to}, msg);
    } else {
      assert forall c :: c in targets ==> c in Recipients(out);
    }
  }
}
