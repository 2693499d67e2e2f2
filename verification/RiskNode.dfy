/** The risk node as objects: the breaker, the blacklist cache and the interceptor with its paths
    (cmd/risk_node/interceptor/risk.go). */
module RiskNode {
  import opened Options
  import opened CircuitBreaker

  class BreakerObject {
    var state: State
    var failures: nat
    var lastChange: int
    const cooldown: int

    function Value(): Breaker
      reads this
    {
      Breaker(state, failures, lastChange)
    }

    constructor (cooldown: int, now: int)
      ensures Value() == Fresh(now) && this.cooldown == cooldown
    {
      this.cooldown := cooldown;
      state, failures, lastChange := Closed, 0, now;
    }

    method RecordSuccess()
      modifies this
      ensures Value() == Succeeded(old(Value()))
    {
      if state == HalfOpen {
        state := Closed;
      }
      failures := 0;
    }

    method RecordFailure(now: int)
      modifies this
      ensures Value() == Failed(old(Value()), now)
    {
      failures := failures + 1;
      if failures >= 3 && state != Open {
        state := Open;
        lastChange := now;
      }
    }

    method CanAttempt(now: int) returns (ok: bool)
      modifies this
      ensures (Value(), ok) == Attempted(old(Value()), cooldown, now)
    {
      if state == Closed {
        return true;
      }
      if state == Open {
        if now - lastChange > cooldown {
          state := HalfOpen;
          return true;
        }
        return false;
      }
      return true;
    }
  }

  function SymbolsOf(members: Option<seq<(string, int)>>): set<string> {
    match members
    case Some(ms) => set m | m in ms :: m.0
    case None => {}
  }

  lemma {:induction false} SymbolsSnoc(ms: seq<(string, int)>, i: nat)
    requires i < |ms|
    ensures SymbolsOf(Some(ms[..i + 1])) == SymbolsOf(Some(ms[..i])) + {ms[i].0}
  {
    assert ms[..i + 1] == ms[..i] + [ms[i]];
  }

  // What comes before and after the first colon, if there is one.
  function Parse(s: string): Option<(string, string)> {
    if s == "" then None
    else if s[0] == ':' then Some(("", s[1..]))
    else match Parse(s[1..])
      case Some((a, b)) => Some(([s[0]] + a, b))
      case None => None
  }

  lemma {:induction false} ParseIs(s: string, a: string, b: string)
    requires s == a + ":" + b && ':' !in a
    ensures Parse(s) == Some((a, b))
  {
    if a == "" {
      assert s[1..] == b;
    } else {
      assert s[1..] == a[1..] + ":" + b && a == [a[0]] + a[1..];
      ParseIs(s[1..], a[1..], b);
    }
  }

  lemma {:induction false} ParseFails(s: string)
    requires ':' !in s
    ensures Parse(s) == None
  {
    if s != "" {
      ParseFails(s[1..]);
    }
  }

  method SplitMsg(s: string) returns (r: Option<(string, string)>)
    ensures r == None <==> ':' !in s
    ensures r.Some? ==> s == r.value.0 + ":" + r.value.1 && ':' !in r.value.0
  {
    for i := 0 to |s|
      invariant ':' !in s[..i]
    {
      if s[i] == ':' {
        return Some((s[..i], s[i + 1..]));
      }
    }
    assert s[..|s|] == s;
    return None;
  }

  class RiskNode {
    const cb: BreakerObject
    var items: Cache
    const ttl: int

    function Value(): Node
      reads this, cb
    {
      Node(cb.Value(), items)
    }

    function Config(): Settings {
      Settings(cb.cooldown, ttl)
    }

    constructor (cooldown: int, ttl: int, now: int)
      ensures fresh(cb) && Value() == Node(Fresh(now), map[]) && Config() == Settings(cooldown, ttl)
    {
      cb := new BreakerObject(cooldown, now);
      items, this.ttl := map[], ttl;
    }

    method CacheSet(symbol: string, blacklisted: bool, now: int)
      modifies this`items
      ensures items == old(items)[symbol := Entry(blacklisted, now)]
    {
      items := items[symbol := Entry(blacklisted, now)];
    }

    // The members of the blacklist with the times at which they are stored, unless the query fails.
    method SyncBlacklist(members: Option<seq<(string, int)>>)
      modifies this`items
      ensures items.Keys == old(items).Keys + SymbolsOf(members)
      ensures forall s | s in SymbolsOf(members) :: items[s].blacklisted && (s, items[s].checked) in members.value
      ensures forall s | s in items && s !in SymbolsOf(members) :: items[s] == old(items)[s]
    {
      if members == None {
        return;
      }
      for i := 0 to |members.value|
        invariant items.Keys == old(items).Keys + SymbolsOf(Some(members.value[..i]))
        invariant forall s | s in SymbolsOf(Some(members.value[..i])) ::
                    items[s].blacklisted && (s, items[s].checked) in members.value
        invariant forall s | s in items && s !in SymbolsOf(Some(members.value[..i])) :: items[s] == old(items)[s]
      {
        SymbolsSnoc(members.value, i);
        CacheSet(members.value[i].0, true, members.value[i].1);
      }
      assert members.value[..|members.value|] == members.value;
    }

    // One message of the update channel; a message of any other form changes nothing.
    method OnBlacklistUpdate(payload: string, now: int)
      modifies this`items
      ensures items == match Parse(payload)
                       case Some((op, symbol)) =>
                         if op == "ADD" then old(items)[symbol := Entry(true, now)]
                         else if op == "REMOVE" then old(items)[symbol := Entry(false, now)]
                         else old(items)
                       case None => old(items)
    {
      var parts := SplitMsg(payload);
      if parts.Some? {
        ParseIs(payload, parts.value.0, parts.value.1);
        if parts.value.0 == "ADD" {
          CacheSet(parts.value.1, true, now);
        } else if parts.value.0 == "REMOVE" {
          CacheSet(parts.value.1, false, now);
        }
      } else {
        ParseFails(payload);
      }
    }

    // calls lists the backend and handler calls in the order in which they are made. A request that
    // is not an order goes straight to the handler.
    method RiskInterceptor(req: Option<Request>) returns (o: Option<Outcome>, calls: seq<Call>)
      modifies this, cb
      ensures match req
              case Some(r) => o.Some? && (Value(), o.value, calls) == Handle(old(Value()), Config(), r)
              case None => o == None && calls == [HandlerCall] && Value() == old(Value())
    {
      if req == None {
        return None, [HandlerCall];
      }
      var outcome;
      outcome, calls := CheckOrder(req.value);
      o := Some(outcome);
    }

    method CheckOrder(r: Request) returns (o: Outcome, calls: seq<Call>)
      modifies this, cb
      ensures (Value(), o, calls) == Handle(old(Value()), Config(), r)
    {
      calls := [];
      var admitted := cb.CanAttempt(r.asked);
      if !admitted {
        return NotAdmitted, calls;
      }
      var blacklisted := false;
      if r.symbol in items && r.looked - items[r.symbol].checked <= ttl {
        blacklisted := items[r.symbol].blacklisted;
      } else {
        calls := [MembershipQuery];
        if r.membership == None {
          cb.RecordFailure(r.done);
          return QueryFailed, calls;
        }
        blacklisted := r.membership.value;
        items := items[r.symbol := Entry(blacklisted, r.stored)];
      }
      if blacklisted {
        cb.RecordSuccess();
        return Blacklisted, calls;
      }
      calls := calls + [ScriptCall];
      var reply := r.bySha;
      if reply == NoScript {
        calls := calls + [ScriptCall];
        reply := r.byText;
      }
      if reply == ScriptError || reply == NoScript {
        cb.RecordFailure(r.done);
        return ScriptFailed, calls;
      }
      if reply == NotText {
        cb.RecordFailure(r.done);
        return BadReply, calls;
      }
      cb.RecordSuccess();
      if reply.text != "APPROVED" {
        return Refused(reply.text), calls;
      }
      calls := calls + [HandlerCall];
      return Approved, calls;
    }
  }
}
