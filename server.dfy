/**
 * The server's state and its event handlers: the session map, the session
 * code each connection last joined, the five message handlers, the `close`
 * handler, the expiry sweeper and the two HTTP store operations.
 *
 * What the environment decides is passed in: the current time, the fresh
 * order id, the ISO timestamp, the generated session code, and which
 * connections are OPEN at the moment of sending.
 */
module SessionServer {
  import opened Wrappers
  import opened Numbers
  import opened Orders
  import opened Sessions

  /** The answer of `GET /api/sessions/:sessionId`. */
  datatype LookupReply =
    | Exists      // 200 `{ exists: true }`
    | Expired     // 404 `{ exists: false, reason: 'expired' }`
    | NotFound    // 404 `{ exists: false, reason: 'not_found' }`

  /** The sessions a sweep at `now` keeps: exactly those that have not expired, unchanged. */
  function Surviving(m: map<Code, Session>, now: int): (r: map<Code, Session>)
    ensures forall k :: k in r <==> k in m && !IsExpired(m[k], now)
    ensures forall k :: k in r ==> r[k] == m[k]
  {
    map k | k in m && !IsExpired(m[k], now) :: m[k]
  }

  /**
   * Expiry is monotone in time, so a sweep at `now` followed by one at `later`
   * leaves the same store as the later sweep alone.
   */
  lemma SweepsCompose(m: map<Code, Session>, now: int, later: int)
    requires now <= later
    ensures Surviving(Surviving(m, now), later) == Surviving(m, later)
  {
  }

  /** The clients of the sessions among `keys` that have expired at `now`. */
  function ExpiredClients(m: map<Code, Session>, keys: set<Code>, now: int): set<Conn> {
    set k, c | k in keys && k in m && IsExpired(m[k], now) && c in m[k].clients :: c
  }

  /** The store part-way through a sweep: sessions still pending are kept, the rest only if unexpired. */
  function Swept(m: map<Code, Session>, pending: set<Code>, now: int): map<Code, Session> {
    map k | k in m && (k in pending || !IsExpired(m[k], now)) :: m[k]
  }

  /** Visiting one pending key deletes it exactly when it has expired. */
  lemma SweptStep(m: map<Code, Session>, pending: set<Code>, k: Code, now: int)
    requires k in pending && pending <= m.Keys
    ensures Swept(m, pending - {k}, now) ==
      if IsExpired(m[k], now) then Swept(m, pending, now) - {k} else Swept(m, pending, now)
  {
  }

  /** Visiting one more key adds its clients exactly when its session has expired. */
  lemma ExpiredClientsStep(m: map<Code, Session>, done: set<Code>, k: Code, now: int)
    requires k in m
    ensures ExpiredClients(m, done + {k}, now) ==
      ExpiredClients(m, done, now) + (if IsExpired(m[k], now) then m[k].clients else {})
  {
  }

  /** The closed set grows by the expired session's clients that are still open. */
  lemma ClosingStep(m: map<Code, Session>, done: set<Code>, k: Code, now: int, open: set<Conn>, closing: set<Conn>)
    requires k in m && closing == ExpiredClients(m, done, now) * open
    ensures ExpiredClients(m, done + {k}, now) * open ==
      closing + (if IsExpired(m[k], now) then m[k].clients * (open - closing) else {})
  {
    ExpiredClientsStep(m, done, k, now);
  }

  /**
   * The loop of `cleanupSessions` over the store `m`: visits every entry,
   * tells the still-open clients of each expired session and closes them,
   * and drops the expired entries. Returns the messages sent, the
   * connections closed and the remaining store.
   */
  method Sweep(m: map<Code, Session>, now: int, open: set<Conn>)
    returns (out: seq<Delivery>, closing: set<Conn>, kept: map<Code, Session>)
    ensures kept == Surviving(m, now)
    ensures closing == ExpiredClients(m, m.Keys, now) * open
    ensures Fanout(out, closing, SessionExpiredMsg(SessionExpiredText))
  {
    var msg := SessionExpiredMsg(SessionExpiredText);
    kept := m;
    var pending := m.Keys;
    ghost var done: set<Code> := {};
    out, closing := [], {};
    assert Fanout(out, closing, msg) by {
      assert Recipients(out) == {};
    }
    while pending != {}
      invariant pending <= m.Keys && done == m.Keys - pending
      invariant kept == Swept(m, pending, now)
      invariant closing == ExpiredClients(m, done, now) * open
      invariant Fanout(out, closing, msg)
      decreases pending
    {
      var k :| k in pending;
      var s := m[k];
      ClosingStep(m, done, k, now, open, closing);
      SweptStep(m, pending, k, now);
      if now - s.createdAt > SessionTimeout {
        var told := Broadcast(s.clients, open - closing, msg);
        FanoutAppend(out, told, closing, s.clients * (open - closing), msg);
        out := out + told;
        closing := closing + s.clients * (open - closing);
        kept := kept - {k};
      }
      pending := pending - {k};
      done := done + {k};
    }
  }

  /** Every session in the store satisfies the session invariant. */
  predicate StoreWellFormed(m: map<Code, Session>) {
    forall k :: k in m ==> SessionWellFormed(m[k])
  }

  /** Storing a well-formed session into a well-formed store keeps it well formed. */
  lemma StoreKeepsWellFormed(m: map<Code, Session>, code: Code, s: Session)
    requires StoreWellFormed(m) && SessionWellFormed(s)
    ensures StoreWellFormed(m[code := s])
  {
  }

  class Server {
    /** `sessions`: the store, keyed by session code. */
    var sessions: map<Code, Session>
    /** Each connection's `sessionId` variable; a connection without an entry has never joined. */
    var binding: map<Conn, Code>

    /** Every stored session keeps its tax and orders in range. */
    ghost predicate Valid()
      reads this
    {
      StoreWellFormed(sessions)
    }

    /** The guard `sessionId && sessions.has(sessionId)`: joined under a non-empty code whose session still exists. */
    predicate Active(c: Conn)
      reads this
    {
      c in binding && binding[c] != "" && binding[c] in sessions
    }

    constructor ()
      ensures Valid() && sessions == map[] && binding == map[]
    {
      sessions := map[];
      binding := map[];
    }

    /**
     * `join`: bind the connection to the code, create the session with no
     * orders, tax 13 and the current time if the code is unknown, add the
     * connection to its clients and send the snapshot to this connection
     * only. A known session keeps its orders, tax and age. Joining again
     * under another code leaves the connection in the old session's clients.
     */
    method Join(c: Conn, code: Code, now: int) returns (out: seq<Delivery>)
      requires Valid()
      modifies this
      ensures Valid()
      ensures binding == old(binding)[c := code]
      ensures code in old(sessions) ==>
        sessions == old(sessions)[code := old(sessions)[code].(clients := old(sessions)[code].clients + {c})]
      ensures code !in old(sessions) ==>
        sessions == old(sessions)[code := NewSession(now).(clients := {c})]
      ensures out == [Delivery(c, Snapshot(sessions[code]))]
    {
      binding := binding[c := code];
      if code !in sessions {
        sessions := sessions[code := NewSession(now)];
        NewSessionWellFormed(now, {});
      }
      var s := sessions[code];
      assert s.clients == {} ==> s.clients + {c} == {c};
      sessions := sessions[code := s.(clients := s.clients + {c})];
      out := [Delivery(c, Snapshot(sessions[code]))];
    }

    /**
     * `add_order`: on a rejected payload, the error goes to the sender and
     * nothing changes; otherwise the new order is appended and the full
     * snapshot goes to every open client of the session. A connection that
     * is not active changes nothing and is sent nothing.
     */
    method AddOrder(c: Conn, p: OrderPayload, freshId: string, stamp: string, open: set<Conn>)
      returns (out: seq<Delivery>)
      requires Valid()
      modifies this
      ensures Valid()
      ensures binding == old(binding)
      ensures !old(Active(c)) ==> sessions == old(sessions) && out == []
      ensures old(Active(c)) ==>
        var code := binding[c];
        var s := old(sessions)[code];
        match Admit(p, freshId, stamp)
        case Failure(e) => sessions == old(sessions) && out == [Delivery(c, ErrorMsg(e))]
        case Success(o) =>
          && sessions == old(sessions)[code := s.(orders := s.orders + [o])]
          && Fanout(out, s.clients * open, Snapshot(sessions[code]))
    {
      if !Active(c) {
        return [];
      }
      var code := binding[c];
      var s := sessions[code];
      var admitted := Admit(p, freshId, stamp);
      if admitted.Failure? {
        return [Delivery(c, ErrorMsg(admitted.error))];
      }
      AdmitWellFormed(p, freshId, stamp);
      s := s.(orders := s.orders + [admitted.value]);
      sessions := sessions[code := s];
      out := Broadcast(s.clients, open, Snapshot(s));
    }

    /**
     * `remove_order`: keep the orders whose id differs, then broadcast, even
     * when nothing was removed; never an error.
     */
    method RemoveOrder(c: Conn, orderId: Option<string>, open: set<Conn>) returns (out: seq<Delivery>)
      requires Valid()
      modifies this
      ensures Valid()
      ensures binding == old(binding)
      ensures !old(Active(c)) ==> sessions == old(sessions) && out == []
      ensures old(Active(c)) ==>
        var code := binding[c];
        var s := old(sessions)[code];
        && sessions == old(sessions)[code := s.(orders := RemoveById(s.orders, orderId))]
        && Fanout(out, s.clients * open, Snapshot(sessions[code]))
    {
      if !Active(c) {
        return [];
      }
      var code := binding[c];
      var s := sessions[code];
      RemoveKeepsWellFormed(s.orders, orderId);
      s := s.(orders := RemoveById(s.orders, orderId));
      sessions := sessions[code := s];
      out := Broadcast(s.clients, open, Snapshot(s));
    }

    /**
     * `toggle_order_status`: flip the first order with the id and broadcast;
     * with no such order, "Order not found" goes to the sender only.
     */
    method ToggleOrderStatus(c: Conn, orderId: Option<string>, open: set<Conn>) returns (out: seq<Delivery>)
      requires Valid()
      modifies this
      ensures Valid()
      ensures binding == old(binding)
      ensures !old(Active(c)) ==> sessions == old(sessions) && out == []
      ensures old(Active(c)) ==>
        var code := binding[c];
        var s := old(sessions)[code];
        match Toggle(s.orders, orderId)
        case None => sessions == old(sessions) && out == [Delivery(c, ErrorMsg(OrderNotFound))]
        case Some(toggled) =>
          && sessions == old(sessions)[code := s.(orders := toggled)]
          && Fanout(out, s.clients * open, Snapshot(sessions[code]))
    {
      if !Active(c) {
        return [];
      }
      var code := binding[c];
      var s := sessions[code];
      var toggled := Toggle(s.orders, orderId);
      if toggled.None? {
        return [Delivery(c, ErrorMsg(OrderNotFound))];
      }
      ToggleKeepsWellFormed(s.orders, orderId);
      s := s.(orders := toggled.value);
      StoreKeepsWellFormed(sessions, code, s);
      sessions := sessions[code := s];
      out := Broadcast(s.clients, open, Snapshot(s));
    }

    /**
     * `set_tax`: a refused value sends the tax error to the sender and leaves
     * the rate as it was; an accepted one is stored rounded and broadcast
     * with the unchanged orders.
     */
    method SetTax(c: Conn, proposed: Number, open: set<Conn>) returns (out: seq<Delivery>)
      requires Valid()
      modifies this
      ensures Valid()
      ensures binding == old(binding)
      ensures !old(Active(c)) ==> sessions == old(sessions) && out == []
      ensures old(Active(c)) ==>
        var code := binding[c];
        var s := old(sessions)[code];
        match CheckTax(proposed)
        case Failure(e) => sessions == old(sessions) && out == [Delivery(c, ErrorMsg(e))]
        case Success(t) =>
          && sessions == old(sessions)[code := s.(taxPercent := t)]
          && Fanout(out, s.clients * open, OrdersMsg(s.orders, t))
    {
      if !Active(c) {
        return [];
      }
      var code := binding[c];
      var s := sessions[code];
      var checked := CheckTax(proposed);
      if checked.Failure? {
        return [Delivery(c, ErrorMsg(checked.error))];
      }
      s := s.(taxPercent := checked.value);
      sessions := sessions[code := s];
      out := Broadcast(s.clients, open, Snapshot(s));
    }

    /**
     * The `close` handler: remove the connection from the session it last
     * joined, if that session still exists. No session is ever deleted here,
     * however few clients remain.
     */
    method Close(c: Conn)
      requires Valid()
      modifies this
      ensures Valid()
      ensures binding == old(binding)
      ensures sessions.Keys == old(sessions).Keys
      ensures !old(Active(c)) ==> sessions == old(sessions)
      ensures old(Active(c)) ==>
        var s := old(sessions)[binding[c]];
        sessions == old(sessions)[binding[c] := s.(clients := s.clients - {c})]
    {
      if Active(c) {
        var code := binding[c];
        var s := sessions[code];
        sessions := sessions[code := s.(clients := s.clients - {c})];
      }
    }

    /**
     * `cleanupSessions`: every session older than the timeout has its open
     * clients sent `session_expired` and closed, and is then deleted; the
     * others stay as they are. A client closed for one session is no longer
     * OPEN when a later expired session is visited, so it is told once.
     * Returns the messages sent and the connections closed.
     */
    method CleanupSessions(now: int, open: set<Conn>) returns (out: seq<Delivery>, closing: set<Conn>)
      requires Valid()
      modifies this
      ensures Valid()
      ensures binding == old(binding)
      ensures sessions == Surviving(old(sessions), now)
      ensures closing == ExpiredClients(old(sessions), old(sessions).Keys, now) * open
      ensures Fanout(out, closing, SessionExpiredMsg(SessionExpiredText))
    {
      out, closing, sessions := Sweep(sessions, now, open);
      assert Valid() by {
        forall k | k in sessions ensures SessionWellFormed(sessions[k]) {
          assert sessions[k] == old(sessions)[k];
        }
      }
    }

    /**
     * `POST /api/sessions`: store a fresh session under the generated code
     * and return it. A session already under that code is replaced, orders
     * and clients included.
     */
    method CreateSession(generated: Code, now: int) returns (code: Code)
      requires Valid()
      modifies this
      ensures Valid()
      ensures code == generated
      ensures sessions == old(sessions)[code := NewSession(now)]
      ensures binding == old(binding)
    {
      code := generated;
      NewSessionWellFormed(now, {});
      sessions := sessions[code := NewSession(now)];
    }

    /**
     * `GET /api/sessions/:sessionId`: an unknown code is not found; an expired
     * one is deleted and reported expired; a live one is reported to exist
     * and nothing changes.
     */
    method LookupSession(code: Code, now: int) returns (r: LookupReply)
      requires Valid()
      modifies this
      ensures Valid()
      ensures binding == old(binding)
      ensures code !in old(sessions) ==> r == NotFound && sessions == old(sessions)
      ensures code in old(sessions) && IsExpired(old(sessions)[code], now) ==>
        r == LookupReply.Expired && sessions == old(sessions) - {code}
      ensures code in old(sessions) && !IsExpired(old(sessions)[code], now) ==>
        r == Exists && sessions == old(sessions)
    {
      if code !in sessions {
        return NotFound;
      }
      if now - sessions[code].createdAt > SessionTimeout {
        sessions := sessions - {code};
        return LookupReply.Expired;
      }
      return Exists;
    }
  }
}
