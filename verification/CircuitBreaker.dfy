/** The circuit breaker and the requests it guards (cmd/risk_node/interceptor/risk.go). Times are
    integers; the answers of the backend are inputs of a request. */
module CircuitBreaker {
  import opened Options

  datatype State = Closed | Open | HalfOpen
  datatype Breaker = Breaker(state: State, failures: nat, lastChange: int)

  const THRESHOLD := 3

  function Fresh(now: int): Breaker { Breaker(Closed, 0, now) }

  function Succeeded(b: Breaker): Breaker {
    b.(state := if b.state == HalfOpen then Closed else b.state, failures := 0)
  }

  function Failed(b: Breaker, now: int): Breaker {
    if b.failures + 1 >= THRESHOLD && b.state != Open then Breaker(Open, b.failures + 1, now)
    else b.(failures := b.failures + 1)
  }

  // Whether a call may go ahead; an open breaker becomes half open once it has cooled down.
  function Attempted(b: Breaker, cooldown: int, now: int): (Breaker, bool) {
    match b.state
    case Closed => (b, true)
    case Open => if now - b.lastChange > cooldown then (b.(state := HalfOpen), true) else (b, false)
    case HalfOpen => (b, true)
  }

  // ----- any interleaving

  datatype Action = Attempt(at: int) | Succeed | Fail(at: int)

  function Step(b: Breaker, cooldown: int, a: Action): Breaker {
    match a
    case Attempt(at) => Attempted(b, cooldown, at).0
    case Succeed => Succeeded(b)
    case Fail(at) => Failed(b, at)
  }

  function Run(now: int, cooldown: int, acts: seq<Action>): Breaker {
    if acts == [] then Fresh(now) else Step(Run(now, cooldown, acts[..|acts| - 1]), cooldown, acts[|acts| - 1])
  }

  // However attempts and outcomes interleave, a closed breaker has fewer failures than trip it.
  lemma {:induction false} ClosedIsBelowThreshold(now: int, cooldown: int, acts: seq<Action>)
    ensures var b := Run(now, cooldown, acts); b.state == Closed ==> b.failures < THRESHOLD
  {
    if acts != [] {
      ClosedIsBelowThreshold(now, cooldown, acts[..|acts| - 1]);
    }
  }

  // The failures reported since the last success was.
  function FailuresSince(acts: seq<Action>): nat {
    if acts == [] then 0
    else
      var before := FailuresSince(acts[..|acts| - 1]);
      match acts[|acts| - 1]
      case Attempt(_) => before
      case Succeed => 0
      case Fail(_) => before + 1
  }

  lemma {:induction false} FailuresAreSince(now: int, cooldown: int, acts: seq<Action>)
    ensures Run(now, cooldown, acts).failures == FailuresSince(acts)
  {
    if acts != [] {
      FailuresAreSince(now, cooldown, acts[..|acts| - 1]);
    }
  }

  // However attempts and outcomes interleave, a failed probe opens the breaker again exactly when
  // at least two failures have been reported since the last success.
  lemma {:induction false} ProbeReopensIff(now: int, cooldown: int, acts: seq<Action>, at: int)
    requires Run(now, cooldown, acts).state == HalfOpen
    ensures Run(now, cooldown, acts + [Fail(at)]).state == Open <==> FailuresSince(acts) >= 2
  {
    FailuresAreSince(now, cooldown, acts);
    RunSnoc(now, cooldown, acts, Fail(at));
  }

  // They need not have been: of four calls that were admitted, three fail and trip the breaker, and
  // the late success of the fourth clears them. The next failed probe leaves the breaker half open.
  lemma {:induction false} LateSuccessDisarmsProbe(now: int, cooldown: int) returns (acts: seq<Action>)
    requires cooldown >= 0
    ensures var probe := now + cooldown + 1;
            acts == [Attempt(now)] + [Attempt(now)] + [Attempt(now)] + [Attempt(now)]
                    + [Fail(now)] + [Fail(now)] + [Fail(now)] + [Succeed] + [Attempt(probe)] + [Fail(probe)]
    ensures Run(now, cooldown, acts) == Breaker(HalfOpen, 1, now)
  {
    var probe := now + cooldown + 1;
    acts := [];
    acts := Next(now, cooldown, acts, Attempt(now));
    acts := Next(now, cooldown, acts, Attempt(now));
    acts := Next(now, cooldown, acts, Attempt(now));
    acts := Next(now, cooldown, acts, Attempt(now));
    acts := Next(now, cooldown, acts, Fail(now));
    acts := Next(now, cooldown, acts, Fail(now));
    acts := Next(now, cooldown, acts, Fail(now));
    acts := Next(now, cooldown, acts, Succeed);
    acts := Next(now, cooldown, acts, Attempt(probe));
    acts := Next(now, cooldown, acts, Fail(probe));
  }

  lemma {:induction false} Next(now: int, cooldown: int, acts: seq<Action>, a: Action) returns (more: seq<Action>)
    ensures more == acts + [a]
    ensures Run(now, cooldown, more) == Step(Run(now, cooldown, acts), cooldown, a)
  {
    more := acts + [a];
    RunSnoc(now, cooldown, acts, a);
  }

  lemma {:induction false} RunSnoc(now: int, cooldown: int, acts: seq<Action>, a: Action)
    ensures Run(now, cooldown, acts + [a]) == Step(Run(now, cooldown, acts), cooldown, a)
  {
    assert (acts + [a])[..|acts|] == acts;
  }

  // ----- one request

  datatype Entry = Entry(blacklisted: bool, checked: int)
  type Cache = map<string, Entry>

  // What the script call answers; NoScript asks for the script to be sent along.
  datatype Reply = ScriptError | NoScript | NotText | Text(text: string)

  // The inputs of one request: its symbol, the answers it would get, and the times at which it
  // asks the breaker, looks at the cache, stores in it and records its outcome.
  datatype Request = Request(
    symbol: string, membership: Option<bool>, bySha: Reply, byText: Reply,
    asked: int, looked: int, stored: int, done: int)

  datatype Outcome =
    | NotAdmitted | QueryFailed | Blacklisted | ScriptFailed | BadReply | Refused(reason: string) | Approved

  datatype Call = MembershipQuery | ScriptCall | HandlerCall

  datatype Node = Node(breaker: Breaker, cache: Cache)
  datatype Settings = Settings(cooldown: int, ttl: int)

  function Cached(c: Cache, symbol: string, now: int, ttl: int): Option<bool> {
    if symbol in c && now - c[symbol].checked <= ttl then Some(c[symbol].blacklisted) else None
  }

  predicate IsFailure(o: Outcome) { o == QueryFailed || o == ScriptFailed || o == BadReply }

  function ScriptReply(r: Request): Reply {
    if r.bySha == NoScript then r.byText else r.bySha
  }

  // The verdict of an admitted request, given what the cache or the backend says of its symbol.
  function Verdict(r: Request, blacklisted: Option<bool>): Outcome {
    match blacklisted
    case None => QueryFailed
    case Some(true) => Blacklisted
    case Some(false) =>
      match ScriptReply(r)
      case ScriptError => ScriptFailed
      case NoScript => ScriptFailed
      case NotText => BadReply
      case Text(s) => if s == "APPROVED" then Approved else Refused(s)
  }

  // The calls of an admitted request, in order.
  function CallsFor(r: Request, hit: Option<bool>, known: Option<bool>, o: Outcome): seq<Call> {
    var looked := if hit.None? then [MembershipQuery] else [];
    if known != Some(false) then looked
    else
      var scripted := if r.bySha == NoScript then looked + [ScriptCall] + [ScriptCall] else looked + [ScriptCall];
      if o == Approved then scripted + [HandlerCall] else scripted
  }

  function Handle(n: Node, g: Settings, r: Request): (Node, Outcome, seq<Call>) {
    var (b, admitted) := Attempted(n.breaker, g.cooldown, r.asked);
    if !admitted then (n.(breaker := b), NotAdmitted, [])
    else
      var hit := Cached(n.cache, r.symbol, r.looked, g.ttl);
      var known := if hit.Some? then hit else r.membership;
      var o := Verdict(r, known);
      (Node(if IsFailure(o) then Failed(b, r.done) else Succeeded(b),
            if hit.None? && known.Some? then n.cache[r.symbol := Entry(known.value, r.stored)] else n.cache),
       o,
       CallsFor(r, hit, known, o))
  }

  // ----- requests one after another, and updates of the cache between them

  // The outcomes recorded so far, each with its time.
  datatype Recorded = Recorded(failure: bool, at: int)

  function Trailing(h: seq<Recorded>): nat {
    if h == [] || !h[|h| - 1].failure then 0 else Trailing(h[..|h| - 1]) + 1
  }

  datatype Session = Session(node: Node, attempts: seq<Recorded>)

  function Serve(s: Session, g: Settings, r: Request): Session {
    var (n, o, _) := Handle(s.node, g, r);
    Session(n, if o == NotAdmitted then s.attempts else s.attempts + [Recorded(IsFailure(o), r.done)])
  }

  // What comes to the node: an order to check, a request that is none, or word from the backend
  // on whether a symbol is blacklisted.
  datatype Turn = Order(r: Request) | Other | Told(symbol: string, blacklisted: bool, at: int)

  function Noted(c: Cache, symbol: string, blacklisted: bool, at: int): Cache {
    c[symbol := Entry(blacklisted, at)]
  }

  function Take(s: Session, g: Settings, t: Turn): Session {
    match t
    case Order(r) => Serve(s, g, r)
    case Other => s
    case Told(symbol, blacklisted, at) =>
      s.(node := s.node.(cache := Noted(s.node.cache, symbol, blacklisted, at)))
  }

  function ServeAll(now: int, g: Settings, ts: seq<Turn>): Session {
    if ts == [] then Session(Node(Fresh(now), map[]), [])
    else Take(ServeAll(now, g, ts[..|ts| - 1]), g, ts[|ts| - 1])
  }

  // Between requests the breaker is closed with the current run of failures, or it is open since
  // the last of at least three failures in a row.
  predicate AtRest(s: Session) {
    && s.node.breaker.failures == Trailing(s.attempts)
    && (if Trailing(s.attempts) < THRESHOLD then s.node.breaker.state == Closed
        else s.node.breaker.state == Open && s.node.breaker.lastChange == s.attempts[|s.attempts| - 1].at)
  }

  lemma {:induction false} TrailingSnoc(h: seq<Recorded>, x: Recorded)
    ensures Trailing(h + [x]) == if x.failure then Trailing(h) + 1 else 0
  {
    assert (h + [x])[..|h|] == h;
  }

  // An admitted request records its outcome with the breaker, one that is not changes nothing.
  lemma {:induction false} HandleRecords(n: Node, g: Settings, r: Request)
    ensures var (b, admitted) := Attempted(n.breaker, g.cooldown, r.asked);
            var (after, o, calls) := Handle(n, g, r);
            && (o != NotAdmitted <==> admitted)
            && (admitted ==> after.breaker == if IsFailure(o) then Failed(b, r.done) else Succeeded(b))
            && (!admitted ==> after == n && calls == [])
            && (HandlerCall in calls <==> o == Approved)
  {
  }

  lemma {:induction false} ServeRests(s: Session, g: Settings, r: Request)
    requires AtRest(s)
    ensures AtRest(Serve(s, g, r))
  {
    HandleRecords(s.node, g, r);
    var (_, o, _) := Handle(s.node, g, r);
    TrailingSnoc(s.attempts, Recorded(IsFailure(o), r.done));
  }

  lemma {:induction false} ServeAllRests(now: int, g: Settings, ts: seq<Turn>)
    ensures AtRest(ServeAll(now, g, ts))
  {
    if ts != [] {
      ServeAllRests(now, g, ts[..|ts| - 1]);
      if ts[|ts| - 1].Order? {
        ServeRests(ServeAll(now, g, ts[..|ts| - 1]), g, ts[|ts| - 1].r);
      }
    }
  }

  // Of requests one after another, with any updates of the cache between them, the next is admitted
  // exactly unless the last three or more recorded attempts failed and the cooldown since the last
  // has not passed. A request that is not admitted calls nothing and records nothing; one that is
  // records one outcome, after which the breaker is open if and only if that makes three failures
  // in a row or more: it trips on exactly the third, and a probe alone decides whether it closes.
  lemma {:induction false} AdmissionRule(now: int, g: Settings, ts: seq<Turn>, r: Request)
    ensures var s := ServeAll(now, g, ts);
            var (_, o, calls) := Handle(s.node, g, r);
            var t := Serve(s, g, r);
            && (o != NotAdmitted <==>
                  Trailing(s.attempts) < THRESHOLD || r.asked - s.attempts[|s.attempts| - 1].at > g.cooldown)
            && (o == NotAdmitted ==> calls == [] && t == s)
            && (o != NotAdmitted ==> t.attempts == s.attempts + [Recorded(IsFailure(o), r.done)])
            && (t.node.breaker.state == Open <==> Trailing(t.attempts) >= THRESHOLD)
            && t.node.breaker.state != HalfOpen
            && (HandlerCall in calls <==> o == Approved)
  {
    var s := ServeAll(now, g, ts);
    ServeAllRests(now, g, ts);
    ServeRests(s, g, r);
    HandleRecords(s.node, g, r);
  }

  // ----- which answers let an order through

  // The cache knows the symbol by an entry that is not too old.
  predicate FreshEntry(c: Cache, r: Request, ttl: int) {
    r.symbol in c && r.looked - c[r.symbol].checked <= ttl
  }

  // What is known of the symbol: from a fresh entry, or else from the membership answer.
  predicate KnownAs(c: Cache, r: Request, ttl: int, blacklisted: bool) {
    if FreshEntry(c, r, ttl) then c[r.symbol].blacklisted == blacklisted else r.membership == Some(blacklisted)
  }

  // The script answers this: by digest, or by text when the digest is unknown.
  predicate ScriptAnswers(r: Request, a: Reply) {
    if r.bySha == NoScript then r.byText == a else r.bySha == a
  }

  // The script fails, or its answer is no text.
  predicate NoText(r: Request) {
    ScriptAnswers(r, ScriptError) || ScriptAnswers(r, NoScript) || ScriptAnswers(r, NotText)
  }

  // Of an admitted request, by the answers that it gets: the calls it makes, its outcome, and what
  // is kept of it.
  lemma {:induction false} AdmittedBy(n: Node, g: Settings, r: Request)
    ensures var admitted := Attempted(n.breaker, g.cooldown, r.asked).1;
            var (after, o, calls) := Handle(n, g, r);
            var hit := FreshEntry(n.cache, r, g.ttl);
            var clear, listed := KnownAs(n.cache, r, g.ttl, false), KnownAs(n.cache, r, g.ttl, true);
            && (o == NotAdmitted <==> !admitted)
            && (MembershipQuery in calls <==> admitted && !hit)
            && (ScriptCall in calls <==> admitted && clear)
            && (HandlerCall in calls <==> admitted && clear && ScriptAnswers(r, Text("APPROVED")))
            && (o == Approved <==> HandlerCall in calls)
            && (o == Blacklisted <==> admitted && listed)
            && (forall reason | reason != "APPROVED" ::
                  o == Refused(reason) <==> admitted && clear && ScriptAnswers(r, Text(reason)))
            && (IsFailure(o) <==>
                  && admitted
                  && ((!hit && r.membership == None) || (clear && NoText(r))))
            && after.cache == if admitted && !hit && r.membership.Some?
                              then n.cache[r.symbol := Entry(r.membership.value, r.stored)] else n.cache
  {
  }

  // When the digest is unknown the script is sent along in a second call.
  lemma {:induction false} ScriptIsSentAlong(n: Node, g: Settings, r: Request)
    requires Attempted(n.breaker, g.cooldown, r.asked).1 && KnownAs(n.cache, r, g.ttl, false)
    requires r.bySha == NoScript
    ensures var calls := Handle(n, g, r).2; exists i :: 0 <= i < |calls| - 1 && calls[i] == calls[i + 1] == ScriptCall
  {
    var calls := Handle(n, g, r).2;
    var i := if FreshEntry(n.cache, r, g.ttl) then 0 else 1;
    assert calls[i] == calls[i + 1] == ScriptCall;
  }

  // Nothing else is called twice, and the handler is called last.
  lemma {:induction false} CallsInOrder(n: Node, g: Settings, r: Request, i: nat, j: nat)
    requires i < j < |Handle(n, g, r).2|
    ensures var calls := Handle(n, g, r).2;
            && calls[i] != HandlerCall && calls[j] != MembershipQuery
            && (calls[i] == ScriptCall && calls[j] == ScriptCall ==> r.bySha == NoScript)
  {
  }

  // Over any session: an order reaches the handler if and only if it is admitted, its symbol is known
  // as not blacklisted, and the script answers exactly APPROVED; and a recorded attempt counts as a
  // failure if and only if the query failed or the script gave no text.
  lemma {:induction false} HandlerIffApproved(now: int, g: Settings, ts: seq<Turn>, r: Request)
    ensures var s := ServeAll(now, g, ts);
            var (_, o, calls) := Handle(s.node, g, r);
            var t := Serve(s, g, r);
            var admitted := Trailing(s.attempts) < THRESHOLD || r.asked - s.attempts[|s.attempts| - 1].at > g.cooldown;
            var clear := KnownAs(s.node.cache, r, g.ttl, false);
            && (HandlerCall in calls <==> admitted && clear && ScriptAnswers(r, Text("APPROVED")))
            && (ScriptCall in calls <==> admitted && clear)
            && (MembershipQuery in calls <==> admitted && !FreshEntry(s.node.cache, r, g.ttl))
            && (KnownAs(s.node.cache, r, g.ttl, true) ==> ScriptCall !in calls && HandlerCall !in calls)
            && (admitted ==>
                  && t.attempts == s.attempts + [Recorded(IsFailure(o), r.done)]
                  && (IsFailure(o) <==>
                        || (!FreshEntry(s.node.cache, r, g.ttl) && r.membership == None)
                        || (clear && NoText(r))))
  {
    var s := ServeAll(now, g, ts);
    AdmissionRule(now, g, ts, r);
    AdmittedBy(s.node, g, r);
  }

  // Word from the backend replaces what the cache has of its symbol and nothing else.
  lemma {:induction false} ToldIsNoted(s: Session, g: Settings, symbol: string, blacklisted: bool, at: int)
    ensures var t := Take(s, g, Told(symbol, blacklisted, at));
            && t.attempts == s.attempts && t.node.breaker == s.node.breaker
            && symbol in t.node.cache && t.node.cache[symbol] == Entry(blacklisted, at)
            && t.node.cache - {symbol} == s.node.cache - {symbol}
  {
  }
}
