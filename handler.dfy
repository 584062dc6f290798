// The node's HTTP handlers: transaction submission, ballots, agreement
// reports and the read-only ledger queries, with the rule that closes a
// ballot and commits its transaction.

module Handlers {
  import opened Wrappers
  import opened Json
  import opened Keypairs
  import opened Transactions
  import opened Nodes
  import opened Store

  // ---------------------------------------------------------------- paths

  /** `str.split(sep)`: always at least one part; empty parts are kept. */
  function Split(s: string, sep: char): (r: seq<string>)
    ensures |r| >= 1
  {
    if s == [] then [[]]
    else
      var rest := Split(s[1..], sep);
      if s[0] == sep then [[]] + rest else [[s[0]] + rest[0]] + rest[1..]
  }

  /** `sep.join(parts)`. */
  function Join(parts: seq<string>, sep: char): string
    requires |parts| >= 1
  {
    if |parts| == 1 then parts[0] else parts[0] + [sep] + Join(parts[1..], sep)
  }

  /** Splitting loses nothing: joining the parts gives the text back, and no part holds the separator. */
  lemma {:induction false} SplitJoin(s: string, sep: char)
    ensures Join(Split(s, sep), sep) == s
    ensures forall i :: 0 <= i < |Split(s, sep)| ==> sep !in Split(s, sep)[i]
  {
    if s != [] {
      SplitJoin(s[1..], sep);
      var rest := Split(s[1..], sep);
      if s[0] == sep {
        assert Split(s, sep)[1..] == rest;
        assert s == [] + [sep] + s[1..];
      } else {
        var r := Split(s, sep);
        if |rest| == 1 {
          assert r == [[s[0]] + rest[0]];
        } else {
          assert r[1..] == rest[1..];
          assert Join(rest, sep) == rest[0] + [sep] + Join(rest[1..], sep);
        }
        forall i | 0 <= i < |r|
          ensures sep !in r[i]
        {
          if i > 0 { assert r[i] == rest[i]; }
        }
      }
    }
  }

  /** Splitting a text that starts with a separator-free part. */
  lemma {:induction false} SplitAfter(a: string, b: string, sep: char)
    requires sep !in a
    ensures Split(a + [sep] + b, sep) == [a] + Split(b, sep)
    ensures Split(a, sep) == [a]
  {
    if a != [] {
      SplitAfter(a[1..], b, sep);
      assert (a + [sep] + b)[1..] == a[1..] + [sep] + b;
      assert [a[0]] + a[1..] == a;
      assert a[0] != sep;
    }
  }

  /** `parsed.path[1:].split('/')`. */
  function Segments(path: string): seq<string> {
    Split(if |path| == 0 then [] else path[1..], '/')
  }

  // ---------------------------------------------------------------- messages

  /**
   * A request as the handlers see it: the method, the path, the query's
   * `limit` already read as an integer, and the body text.
   */
  datatype Request = Request(command: string, path: string, limit: Option<int>, postData: string)

  /** `getpeername()`'s host and `getsockname()`'s host and port. */
  datatype Socket = Socket(peerHost: string, localHost: string, localPort: int)

  /** What a response carries. */
  datatype Payload =
    | Empty
    | Listing(entries: seq<Envelope>)
    | Found(value: Value)
    | Info(name: string, endpoint: string)
    | Message(text: string)

  /** A response; `Unhandled` is an exception that escapes the handler. */
  datatype Reply = Respond(code: int, payload: Payload) | NoReply | Unhandled

  /** A request the node sends to every sibling. */
  datatype Outgoing = Quiet | Broadcast(request: Request)

  /** The state the handlers act on: the ballot, the siblings and the store. */
  datatype World = World(slot: Slot, peers: seq<Node>, data: map<string, Value>)

  predicate WorldValid(w: World) {
    SlotValid(w.slot) && ValidData(w.data)
  }

  /** What a handler leaves: the new state, the reply and what it broadcasts. */
  datatype Effect = Effect(world: World, reply: Reply, out: Outgoing)

  function Endpoint(host: string, port: string): string {
    "http://" + host + ":" + port
  }

  /** Python's `s[:limit]`, negative limits counting from the end. */
  function SliceTo<T>(s: seq<T>, limit: Option<int>): seq<T> {
    match limit
    case None => s
    case Some(l) =>
      if l >= 0 then (if l <= |s| then s[..l] else s)
      else (if |s| + l >= 0 then s[..|s| + l] else [])
  }

  /** A listing is the newest part of the history: a prefix of it, as long as the limit allows. */
  lemma SliceToPrefix<T>(s: seq<T>, limit: Option<int>)
    ensures var r := SliceTo(s, limit);
      && r == s[..|r|]
      && (limit.None? ==> r == s)
      && (limit.Some? && limit.value >= 0 ==> |r| == if limit.value <= |s| then limit.value else |s|)
      && (limit.Some? && limit.value < 0 ==> |r| == if |s| + limit.value >= 0 then |s| + limit.value else 0)
  {
  }

  // ---------------------------------------------------------------- the threshold

  /** `math.ceil(n * 0.5)` on an integer `n`. */
  function Threshold(n: nat): nat {
    (n + 1) / 2
  }

  /** `Threshold(n)` is half of `n` rounded up. */
  lemma ThresholdIsHalfUp(n: nat)
    ensures n <= 2 * Threshold(n) <= n + 1
  {
  }

  /**
   * With `n` siblings, `agreed` votes exceed the threshold exactly when they
   * are a strict majority of the `n + 1` nodes, the node itself included.
   */
  lemma {:induction false} ExceedsThresholdIffMajority(n: nat, agreed: nat)
    ensures agreed > Threshold(n) <==> 2 * agreed > n + 1
  {
    ThresholdIsHalfUp(n);
  }

  // ---------------------------------------------------------------- handlers as transitions

  /**
   * `handle_ping`: a POST registers the caller under its advertised name,
   * at its peer host and advertised port, and answers with this node's name
   * and endpoint. A body that is not an object with `port` and `name`
   * aborts.
   */
  function PingStep(w: World, name: string, req: Request, sock: Socket): Effect {
    if req.command != "POST" then Effect(w, Respond(405, Empty), Quiet)
    else match Parse(req.postData)
      case Some(Obj(d)) =>
        if !Has(d, "port") || !Has(d, "name") then Effect(w, Unhandled, Quiet)
        else
          var node := Node(Field(d, "name"), Endpoint(sock.peerHost, PyStr(Field(d, "port"))));
          Effect(w.(peers := Added(w.peers, node)),
                 Respond(200, Info(name, Endpoint(sock.localHost, IntText(sock.localPort)))), Quiet)
      case _ => Effect(w, Unhandled, Quiet)
  }

  /** `handle_transactions`: a GET lists the newest `limit` records of the address. */
  function TransactionsReply(w: World, req: Request): Reply
    requires ValidData(w.data)
  {
    var paths := Segments(req.path);
    if req.command != "GET" then Respond(405, Empty)
    else if |paths| < 2 then Respond(400, Empty)
    else Respond(200, Listing(SliceTo(HistoryIn(w.data, Str(paths[1])), req.limit)))
  }

  /** `_handle_transaction_get`: the record stored under the id, or 404. */
  function TransactionGetReply(w: World, req: Request): Reply {
    var paths := Segments(req.path);
    if |paths| < 2 then Respond(400, Empty)
    else match Lookup(w.data, TxKey(Str(paths[1])))
      case None => Respond(404, Empty)
      case Some(v) => Respond(200, Found(v))
  }

  /** The ballot a leader sends: `ballot.to_json()` posted to `/ballot`. */
  function BallotRequest(t: Tx): Request {
    Request("POST", "/ballot", None, ToJson(t))
  }

  /**
   * `_handle_transaction_post`: an invalid transaction gets 401; a valid one
   * joins the pool while a ballot is open, and otherwise opens the ballot
   * with the node's own agree vote and is broadcast to the siblings.
   */
  function PostStep(c: Scheme, w: World, postData: string): Effect
    requires ValidData(w.data)
  {
    match Validate(c, postData)
    case Aborted => Effect(w, Unhandled, Quiet)
    case Invalid => Effect(w, Respond(401, Message("failed to validate")), Quiet)
    case Valid(t) =>
      if w.slot.transaction.Some? then Effect(w.(data := Pooled(w.data, t)), Respond(200, Empty), Quiet)
      else Effect(w.(slot := Voted(Opened(t), "agree", Str("self"))), Respond(200, Empty), Broadcast(BallotRequest(t)))
  }

  /** `handle_transaction`: GET and POST only. */
  function TransactionStep(c: Scheme, w: World, req: Request): Effect
    requires ValidData(w.data)
  {
    if req.command != "GET" && req.command != "POST" then Effect(w, Respond(405, Empty), Quiet)
    else if req.command == "GET" then Effect(w, TransactionGetReply(w, req), Quiet)
    else PostStep(c, w, req.postData)
  }

  /** The report a follower sends: `{result, node}` posted to `/transaction_agreement/<id>`. */
  function ReportRequest(id: Scalar, result: string, node: string): Request {
    Request("POST", "/transaction_agreement/" + PyStr(id), None,
            Serialize(Obj([("result", Str(result)), ("node", Str(node))])))
  }

  /**
   * `handle_ballot`: refused with 400 while a ballot is open; otherwise the
   * received transaction opens the ballot whether or not it validates, and
   * the node reports `agree` exactly when it does. A message that does not
   * decode aborts before anything changes.
   */
  function BallotStep(c: Scheme, w: World, postData: string, sock: Socket): Effect {
    if w.slot.transaction.Some? then Effect(w, Respond(400, Empty), Quiet)
    else match FromMessage(postData)
      case Done(t) =>
        var v := Validate(c, postData);
        var started := w.(slot := Opened(t));
        if v.Aborted? then Effect(started, Unhandled, Quiet)
        else Effect(started, Respond(200, Empty),
                    Broadcast(ReportRequest(t.id, if v.Valid? then "agree" else "disagree",
                                            Endpoint(sock.localHost, IntText(sock.localPort)))))
      case _ => Effect(w, Unhandled, Quiet)
  }

  /**
   * `handle_transaction_agreement`: records a report on the open ballot;
   * once the agree votes exceed the threshold the ballot closes and its
   * transaction is committed, with no response sent.
   */
  function AgreementStep(w: World, req: Request): Effect
    requires ValidData(w.data)
  {
    var paths := Segments(req.path);
    if req.command != "POST" then Effect(w, Respond(405, Empty), Quiet)
    else if |paths| < 2 then Effect(w, Respond(400, Empty), Quiet)
    else if w.slot.transaction.None? then Effect(w, Respond(200, Empty), Quiet)
    else
      var tx := w.slot.transaction.value;
      if tx.id != Str(paths[1]) then Effect(w, Respond(400, Empty), Quiet)
      else match Parse(req.postData)
        case Some(Obj(d)) =>
          if !Has(d, "result") then Effect(w, Unhandled, Quiet)
          else
            var result := Field(d, "result");
            if result != Str("agree") && result != Str("disagree") then Effect(w, Respond(400, Empty), Quiet)
            else if !Has(d, "node") then Effect(w, Unhandled, Quiet)
            else
              var voted := Voted(w.slot, result.s, Field(d, "node"));
              if |voted.agree| <= Threshold(|w.peers|) then Effect(w.(slot := voted), Respond(200, Empty), Quiet)
              else Effect(w.(slot := Closed(), data := Committed(w.data, tx.id, ToDict(tx))), NoReply, Quiet)
        case _ => Effect(w, Unhandled, Quiet)
  }

  /** `not_found_handler`: the bare root is a ping, anything else 404. */
  function NotFoundStep(w: World, name: string, req: Request, sock: Socket): Effect {
    if |req.path| <= 1 then PingStep(w, name, req, sock)
    else Effect(w, Respond(404, Message("\"" + req.path + "\" not found")), Quiet)
  }

  /** `HTTP_HANDLERS`: the first path segment picks the handler. */
  function Step(c: Scheme, name: string, w: World, req: Request, sock: Socket): Effect
    requires ValidData(w.data)
  {
    var key := Segments(req.path)[0];
    if key == "ping" then PingStep(w, name, req, sock)
    else if key == "transaction" then TransactionStep(c, w, req)
    else if key == "transactions" then Effect(w, TransactionsReply(w, req), Quiet)
    else if key == "transaction_agreement" then AgreementStep(w, req)
    else if key == "ballot" then BallotStep(c, w, req.postData, sock)
    else NotFoundStep(w, name, req, sock)
  }

  // ---------------------------------------------------------------- handler properties

  /**
   * An agreement report is answered without touching the state while the
   * ballot is closed (200) and when it names another transaction (400),
   * whatever its body says.
   */
  lemma AgreementRefusals(w: World, req: Request)
    requires ValidData(w.data) && req.command == "POST" && |Segments(req.path)| >= 2
    ensures w.slot.transaction.None? ==> AgreementStep(w, req) == Effect(w, Respond(200, Empty), Quiet)
    ensures w.slot.transaction.Some? && w.slot.transaction.value.id != Str(Segments(req.path)[1]) ==>
              AgreementStep(w, req) == Effect(w, Respond(400, Empty), Quiet)
  {
  }

  /** A report on the open transaction whose result is neither agree nor disagree gets 400 and changes nothing. */
  lemma AgreementBadResult(w: World, req: Request, d: seq<(string, Scalar)>)
    requires ValidData(w.data) && req.command == "POST" && |Segments(req.path)| >= 2
    requires w.slot.transaction.Some? && w.slot.transaction.value.id == Str(Segments(req.path)[1])
    requires Parse(req.postData) == Some(Obj(d)) && Has(d, "result")
    requires Field(d, "result") != Str("agree") && Field(d, "result") != Str("disagree")
    ensures AgreementStep(w, req) == Effect(w, Respond(400, Empty), Quiet)
  {
  }

  /**
   * A well-formed report on the open transaction `t` is recorded; the
   * ballot then stays open, answering 200, while the agree votes do not
   * exceed the threshold, and otherwise closes with no votes, commits `t`
   * and sends no reply. It closes exactly when the agree votes are a
   * strict majority of the siblings and the node itself.
   */
  lemma AgreementTally(w: World, req: Request, t: Tx, d: seq<(string, Scalar)>, k: string)
    requires ValidData(w.data) && req.command == "POST" && |Segments(req.path)| >= 2
    requires w.slot.transaction == Some(t) && t.id == Str(Segments(req.path)[1])
    requires Parse(req.postData) == Some(Obj(d)) && Has(d, "result") && Has(d, "node")
    requires Field(d, "result") == Str(k) && (k == "agree" || k == "disagree")
    ensures var e, voted := AgreementStep(w, req), Voted(w.slot, k, Field(d, "node"));
      && (|voted.agree| <= Threshold(|w.peers|) ==> e == Effect(w.(slot := voted), Respond(200, Empty), Quiet))
      && (|voted.agree| > Threshold(|w.peers|) ==>
            e == Effect(w.(slot := Closed(), data := Committed(w.data, t.id, ToDict(t))), NoReply, Quiet))
      && (e.world.slot.transaction.None? <==> 2 * |voted.agree| > |w.peers| + 1)
  {
    ExceedsThresholdIffMajority(|w.peers|, |Voted(w.slot, k, Field(d, "node")).agree|);
  }

  /**
   * `/transactions/<address>`: anything but GET gets 405, a path without an
   * address 400, and a GET with an address 200 with the newest records of
   * that address: a prefix of its history, all of it without a limit and
   * `min(limit, |history|)` records with a non-negative one.
   */
  lemma TransactionsListed(w: World, req: Request)
    requires ValidData(w.data)
    ensures var r := TransactionsReply(w, req);
      && (req.command != "GET" ==> r == Respond(405, Empty))
      && (req.command == "GET" && |Segments(req.path)| < 2 ==> r == Respond(400, Empty))
      && (req.command == "GET" && |Segments(req.path)| >= 2 ==>
            var h := HistoryIn(w.data, Str(Segments(req.path)[1]));
            && r.Respond? && r.code == 200 && r.payload.Listing?
            && r.payload.entries == h[..|r.payload.entries|]
            && (req.limit.None? ==> r.payload.entries == h)
            && (req.limit.Some? && req.limit.value >= 0 ==>
                  |r.payload.entries| == if req.limit.value <= |h| then req.limit.value else |h|))
  {
    if req.command == "GET" && |Segments(req.path)| >= 2 {
      SliceToPrefix(HistoryIn(w.data, Str(Segments(req.path)[1])), req.limit);
    }
  }

  /**
   * `/transaction/<id>` read: 400 without an id; otherwise 200 with exactly
   * the value stored under `transaction.<id>`, or 404 when there is none.
   */
  lemma TransactionLookedUp(w: World, req: Request)
    ensures var r := TransactionGetReply(w, req);
      && (|Segments(req.path)| < 2 ==> r == Respond(400, Empty))
      && (|Segments(req.path)| >= 2 ==>
            var k := TxKey(Str(Segments(req.path)[1]));
            && (r == Respond(404, Empty) <==> k !in w.data)
            && (forall v :: r == Respond(200, Found(v)) <==> k in w.data && w.data[k] == v))
  {
  }

  /**
   * Submitting a transaction: an invalid one gets 401 and changes nothing;
   * a valid one joins the front of the pool while a ballot is open, leaving
   * the ballot alone; otherwise it opens the ballot with only the node's
   * own agree vote, writes no record, and is broadcast.
   */
  lemma PostOutcomes(c: Scheme, w: World, postData: string)
    requires ValidData(w.data)
    ensures var e, v := PostStep(c, w, postData), Validate(c, postData);
      && (v.Invalid? ==> e == Effect(w, Respond(401, Message("failed to validate")), Quiet))
      && (v.Valid? && w.slot.transaction.Some? ==>
            && e.world.slot == w.slot && e.world.peers == w.peers && e.reply == Respond(200, Empty)
            && ValidData(e.world.data) && PoolIn(e.world.data) == [v.tx] + PoolIn(w.data)
            && (forall k :: k != PoolKey ==> Lookup(e.world.data, k) == Lookup(w.data, k)))
      && (v.Valid? && w.slot.transaction.None? ==>
            && e.world.slot.transaction == Some(v.tx)
            && e.world.slot.agree == [Str("self")] && e.world.slot.disagree == [] && e.world.slot.failed == []
            && e.world.data == w.data && e.world.peers == w.peers
            && e.reply == Respond(200, Empty) && e.out == Broadcast(BallotRequest(v.tx)))
  {
    if Validate(c, postData).Valid? {
      PooledEffects(w.data, Validate(c, postData).tx);
    }
  }

  /**
   * Receiving a ballot: refused with 400 while one is open; otherwise a
   * decodable message opens the ballot with its transaction, answers 200
   * and reports `agree` exactly when the transaction validates; a message
   * that does not decode changes nothing.
   */
  lemma BallotOutcomes(c: Scheme, w: World, postData: string, sock: Socket)
    ensures w.slot.transaction.Some? ==> BallotStep(c, w, postData, sock) == Effect(w, Respond(400, Empty), Quiet)
    ensures w.slot.transaction.None? && !FromMessage(postData).Done? ==>
              BallotStep(c, w, postData, sock) == Effect(w, Unhandled, Quiet)
    ensures w.slot.transaction.None? && FromMessage(postData).Done? ==>
              var e, t := BallotStep(c, w, postData, sock), FromMessage(postData).value;
              && e.world == w.(slot := Opened(t))
              && e.reply == Respond(200, Empty)
              && e.out == Broadcast(ReportRequest(t.id, if Validate(c, postData).Valid? then "agree" else "disagree",
                                                  Endpoint(sock.localHost, IntText(sock.localPort))))
  {
    if FromMessage(postData).Done? {
      ValidateDecidesDecodable(c, postData);
    }
  }

  // ---------------------------------------------------------------- protocol invariants

  /** `s2` is `s` with one more agree or disagree report. */
  ghost predicate OneReport(s: Slot, s2: Slot) {
    exists k, n :: (k == "agree" || k == "disagree") && s2 == Voted(s, k, n)
  }

  /** A freshly opened ballot: a transaction and at most the node's own agree vote. */
  predicate Fresh(s: Slot) {
    s.transaction.Some? && |s.agree| <= 1 && s.disagree == [] && s.failed == []
  }

  /**
   * The only ways a request changes the ballot and the store: not at all
   * (the siblings may change), by pooling a valid transaction while a
   * ballot is open, by opening a closed ballot, by recording one report on
   * an open ballot, or by closing the open ballot, committing its
   * transaction and sending no reply.
   */
  ghost predicate Moves(c: Scheme, w: World, postData: string, e: Effect)
    requires ValidData(w.data)
  {
    var v := Validate(c, postData);
    || (e.world.slot == w.slot && e.world.data == w.data)
    || (w.slot.transaction.Some? && v.Valid? && e.world.slot == w.slot && e.world.data == Pooled(w.data, v.tx))
    || (w.slot.transaction.None? && Fresh(e.world.slot) && e.world.data == w.data)
    || (w.slot.transaction.Some? && OneReport(w.slot, e.world.slot) && e.world.data == w.data)
    || (w.slot.transaction.Some? && e.world.slot == Closed() && e.reply == NoReply
        && e.world.data == Committed(w.data, w.slot.transaction.value.id, ToDict(w.slot.transaction.value)))
  }

  lemma PingMoves(c: Scheme, w: World, name: string, req: Request, sock: Socket)
    requires ValidData(w.data)
    ensures Moves(c, w, req.postData, PingStep(w, name, req, sock))
  {
  }

  lemma TransactionMoves(c: Scheme, w: World, req: Request)
    requires ValidData(w.data)
    ensures Moves(c, w, req.postData, TransactionStep(c, w, req))
  {
  }

  lemma BallotMoves(c: Scheme, w: World, postData: string, sock: Socket)
    requires ValidData(w.data)
    ensures Moves(c, w, postData, BallotStep(c, w, postData, sock))
  {
  }

  lemma AgreementMoves(w: World, req: Request, c: Scheme)
    requires ValidData(w.data)
    ensures Moves(c, w, req.postData, AgreementStep(w, req))
  {
    var e := AgreementStep(w, req);
    if e.world.slot != w.slot && e.world.slot != Closed() {
      var d := Parse(req.postData).value.members;
      var k, n := Field(d, "result").s, Field(d, "node");
      assert e.world.slot == Voted(w.slot, k, n);
    }
  }

  /** Every request moves the state in one of the ways `Moves` allows. */
  lemma StepMoves(c: Scheme, name: string, w: World, req: Request, sock: Socket)
    requires ValidData(w.data)
    ensures Moves(c, w, req.postData, Step(c, name, w, req, sock))
  {
    var key := Segments(req.path)[0];
    if key == "ping" || (key != "transaction" && key != "transactions" && key != "transaction_agreement"
                         && key != "ballot" && |req.path| <= 1) {
      PingMoves(c, w, name, req, sock);
    } else if key == "transaction" {
      TransactionMoves(c, w, req);
    } else if key == "transaction_agreement" {
      AgreementMoves(w, req, c);
    } else if key == "ballot" {
      BallotMoves(c, w, req.postData, sock);
    }
  }

  lemma MovesKeepValid(c: Scheme, w: World, postData: string, e: Effect)
    requires WorldValid(w) && Moves(c, w, postData, e)
    ensures WorldValid(e.world)
  {
    var v := Validate(c, postData);
    if v.Valid? {
      PooledEffects(w.data, v.tx);
    }
    if w.slot.transaction.Some? {
      var t := w.slot.transaction.value;
      CommittedEffects(w.data, t.id, ToDict(t));
      if OneReport(w.slot, e.world.slot) {
        var k, n :| (k == "agree" || k == "disagree") && e.world.slot == Voted(w.slot, k, n);
        VotedAppends(w.slot, k, n);
      }
    }
  }

  /** Every request keeps the ballot free of votes when closed and the store's namespaces typed. */
  lemma StepKeepsValid(c: Scheme, name: string, w: World, req: Request, sock: Socket)
    requires WorldValid(w)
    ensures WorldValid(Step(c, name, w, req, sock).world)
  {
    StepMoves(c, name, w, req, sock);
    MovesKeepValid(c, w, req.postData, Step(c, name, w, req, sock));
  }

  /** What an open ballot can become: the same ballot with at most one more report, or closed. */
  predicate KeptOrClosed(w: World, e: Effect, t: Tx)
    requires ValidData(w.data)
  {
    || (&& e.world.slot.transaction == Some(t)
        && |w.slot.agree| <= |e.world.slot.agree| && |w.slot.disagree| <= |e.world.slot.disagree|
        && e.world.slot.agree[..|w.slot.agree|] == w.slot.agree
        && e.world.slot.disagree[..|w.slot.disagree|] == w.slot.disagree
        && e.world.slot.failed == w.slot.failed
        && |e.world.slot.agree| + |e.world.slot.disagree| <= |w.slot.agree| + |w.slot.disagree| + 1)
    || (e.world.slot == Closed() && e.world.data == Committed(w.data, t.id, ToDict(t)) && e.reply == NoReply)
  }

  lemma MovesKeepOpen(c: Scheme, w: World, postData: string, e: Effect, t: Tx)
    requires ValidData(w.data) && w.slot.transaction == Some(t) && Moves(c, w, postData, e)
    ensures KeptOrClosed(w, e, t)
  {
    if OneReport(w.slot, e.world.slot) {
      var k, n :| (k == "agree" || k == "disagree") && e.world.slot == Voted(w.slot, k, n);
      VotedAppends(w.slot, k, n);
      if k == "disagree" {
        assert e.world.slot.disagree[..|w.slot.disagree|] == w.slot.disagree;
      }
    }
  }

  /**
   * An open ballot is never replaced: after any request it still holds the
   * same transaction, with every earlier vote kept and at most one more, or
   * it has closed, committing exactly that transaction and sending no reply.
   */
  lemma StepKeepsOpenBallot(c: Scheme, name: string, w: World, req: Request, sock: Socket, t: Tx)
    requires ValidData(w.data) && w.slot.transaction == Some(t)
    ensures KeptOrClosed(w, Step(c, name, w, req, sock), t)
  {
    StepMoves(c, name, w, req, sock);
    MovesKeepOpen(c, w, req.postData, Step(c, name, w, req, sock), t);
  }

  /**
   * What a request can do to the store: leave it as it was, add a valid
   * transaction to the pool while a ballot is open, or, as the open ballot
   * closes, commit that ballot's transaction.
   */
  predicate DataShape(c: Scheme, w: World, postData: string, e: Effect)
    requires ValidData(w.data)
  {
    || e.world.data == w.data
    || (Validate(c, postData).Valid? && e.world.data == Pooled(w.data, Validate(c, postData).tx)
        && (w.slot.transaction.None? || e.world.slot.transaction.Some?))
    || (w.slot.transaction.Some? && e.world.slot.transaction.None?
        && e.world.data == Committed(w.data, w.slot.transaction.value.id, ToDict(w.slot.transaction.value)))
  }

  lemma StepDataShape(c: Scheme, name: string, w: World, req: Request, sock: Socket)
    requires ValidData(w.data)
    ensures DataShape(c, w, req.postData, Step(c, name, w, req, sock))
  {
    StepMoves(c, name, w, req, sock);
  }

  /**
   * The ledger is append-only and written only when a ballot closes: no key
   * disappears, every history keeps what it held behind at most one new
   * record, and while the ballot does not go from open to closed no
   * history and no transaction record changes.
   */
  lemma LedgerOfShape(c: Scheme, w: World, postData: string, e: Effect, a: Scalar, id: Scalar)
    requires ValidData(w.data) && DataShape(c, w, postData, e)
    ensures ValidData(e.world.data)
    ensures w.data.Keys <= e.world.data.Keys
    ensures var before, after := HistoryIn(w.data, a), HistoryIn(e.world.data, a);
      after == before || (|after| == |before| + 1 && after[1..] == before)
    ensures w.slot.transaction.None? || e.world.slot.transaction.Some? ==>
      HistoryIn(e.world.data, a) == HistoryIn(w.data, a) && Lookup(e.world.data, TxKey(id)) == Lookup(w.data, TxKey(id))
  {
    var v := Validate(c, postData);
    if e.world.data == w.data {
    } else if v.Valid? && e.world.data == Pooled(w.data, v.tx) {
      PooledEffects(w.data, v.tx);
      KeysDisjoint("", id, Null);
    } else {
      var t := w.slot.transaction.value;
      CommittedEffects(w.data, t.id, ToDict(t));
      CommittedAppendOnly(w.data, t.id, ToDict(t), a);
    }
  }

  /** The ledger facts `LedgerOfShape` establishes, for one address `a` and one id. */
  predicate LedgerKept(w: World, e: Effect, a: Scalar, id: Scalar)
    requires ValidData(w.data)
  {
    && ValidData(e.world.data)
    && w.data.Keys <= e.world.data.Keys
    && (HistoryIn(e.world.data, a) == HistoryIn(w.data, a)
        || (|HistoryIn(e.world.data, a)| == |HistoryIn(w.data, a)| + 1 && HistoryIn(e.world.data, a)[1..] == HistoryIn(w.data, a)))
    && (w.slot.transaction.None? || e.world.slot.transaction.Some? ==>
          HistoryIn(e.world.data, a) == HistoryIn(w.data, a) && Lookup(e.world.data, TxKey(id)) == Lookup(w.data, TxKey(id)))
  }

  lemma StepLedger(c: Scheme, name: string, w: World, req: Request, sock: Socket, a: Scalar, id: Scalar)
    requires ValidData(w.data)
    ensures LedgerKept(w, Step(c, name, w, req, sock), a, id)
  {
    StepDataShape(c, name, w, req, sock);
    LedgerOfShape(c, w, req.postData, Step(c, name, w, req, sock), a, id);
  }

  /** Only a ping, directly or at the bare root, changes the siblings. */
  lemma StepPeersOnlyByPing(c: Scheme, name: string, w: World, req: Request, sock: Socket)
    requires ValidData(w.data)
    ensures var e := Step(c, name, w, req, sock);
      e.world.peers != w.peers ==> Segments(req.path)[0] == "ping" || |req.path| <= 1
  {
  }

  // ---------------------------------------------------------------- between nodes

  /** The path of a report names its transaction as the second segment. */
  lemma ReportPath(s: string)
    requires '/' !in s
    ensures Segments("/transaction_agreement/" + s) == ["transaction_agreement", s]
  {
    var p := "/transaction_agreement/" + s;
    var head := "transaction_agreement";
    assert forall i :: 0 <= i < |head| ==> head[i] != '/';
    assert p[1..] == head + ['/'] + s;
    SplitAfter(head, s, '/');
    SplitAfter(s, [], '/');
  }

  /** How a report request reads at the receiving end. */
  lemma ReportRequestReads(s: string, result: string, node: string)
    requires '/' !in s
    ensures var req, d := ReportRequest(Str(s), result, node), [("result", Str(result)), ("node", Str(node))];
      && Segments(req.path) == ["transaction_agreement", s]
      && Parse(req.postData) == Some(Obj(d))
      && Has(d, "result") && Field(d, "result") == Str(result)
      && Has(d, "node") && Field(d, "node") == Str(node)
  {
    var d := [("result", Str(result)), ("node", Str(node))];
    ReportPath(s);
    ParseSerialize(Obj(d));
    assert |d[0].0| == 6 && |d[1].0| == 4;
    GetUnique(d, 0);
    GetUnique(d, 1);
  }

  /** A report from `node` on the open transaction `t` is tallied by `AgreementTally`. */
  lemma ReportTallied(w: World, t: Tx, s: string, result: string, node: string)
    requires ValidData(w.data) && w.slot.transaction == Some(t) && t.id == Str(s) && '/' !in s
    requires result == "agree" || result == "disagree"
    ensures var e, voted := AgreementStep(w, ReportRequest(t.id, result, node)), Voted(w.slot, result, Str(node));
      && (|voted.agree| <= Threshold(|w.peers|) ==> e == Effect(w.(slot := voted), Respond(200, Empty), Quiet))
      && (|voted.agree| > Threshold(|w.peers|) ==>
            e == Effect(w.(slot := Closed(), data := Committed(w.data, t.id, ToDict(t))), NoReply, Quiet))
  {
    ReportRequestReads(s, result, node);
    AgreementTally(w, ReportRequest(t.id, result, node), t, [("result", Str(result)), ("node", Str(node))], result);
  }

  /**
   * The threshold rule with three siblings: after the node's own vote, one
   * agree report leaves the ballot open and a second one closes it and
   * commits the transaction. The two reports may come from the same node.
   */
  lemma ThreeSiblingsExample(w: World, t: Tx, s: string, n1: string, n2: string)
    requires ValidData(w.data) && |w.peers| == 3 && '/' !in s && t.id == Str(s)
    requires w.slot == Voted(Opened(t), "agree", Str("self"))
    ensures var e1 := AgreementStep(w, ReportRequest(t.id, "agree", n1));
      && e1 == Effect(w.(slot := Voted(w.slot, "agree", Str(n1))), Respond(200, Empty), Quiet)
      && AgreementStep(e1.world, ReportRequest(t.id, "agree", n2)) ==
           Effect(w.(slot := Closed(), data := Committed(w.data, t.id, ToDict(t))), NoReply, Quiet)
  {
    ReportTallied(w, t, s, "agree", n1);
    var w1 := w.(slot := Voted(w.slot, "agree", Str(n1)));
    assert |w1.slot.agree| == 2;
    ReportTallied(w1, t, s, "agree", n2);
  }

  /** A request whose path starts with `ballot` goes to `handle_ballot`. */
  lemma StepRoutesBallot(c: Scheme, name: string, w: World, req: Request, sock: Socket)
    requires ValidData(w.data) && Segments(req.path)[0] == "ballot"
    ensures Step(c, name, w, req, sock) == BallotStep(c, w, req.postData, sock)
  {
  }

  /** A request whose path starts with `transaction_agreement` goes to its handler. */
  lemma StepRoutesAgreement(c: Scheme, name: string, w: World, req: Request, sock: Socket)
    requires ValidData(w.data) && Segments(req.path)[0] == "transaction_agreement"
    ensures Step(c, name, w, req, sock) == AgreementStep(w, req)
  {
  }

  /**
   * Once the agree votes on an open ballot exceed the threshold, the next
   * report closes it and commits, even a `disagree` one.
   */
  lemma ReportPastThresholdCommits(w: World, t: Tx, s: string, result: string, node: string)
    requires ValidData(w.data) && w.slot.transaction == Some(t) && t.id == Str(s) && '/' !in s
    requires result == "agree" || result == "disagree"
    requires |w.slot.agree| > Threshold(|w.peers|)
    ensures AgreementStep(w, ReportRequest(t.id, result, node)) ==
      Effect(w.(slot := Closed(), data := Committed(w.data, t.id, ToDict(t))), NoReply, Quiet)
  {
    ReportTallied(w, t, s, result, node);
    VotedAppends(w.slot, result, Str(node));
  }

  /**
   * A node with no siblings: the threshold is 0, so its own `'self'` vote
   * already exceeds it, and the first report, even a `disagree`, commits.
   */
  lemma LoneNodeDisagreeCommits(w: World, t: Tx, s: string, node: string)
    requires ValidData(w.data) && w.peers == [] && '/' !in s && t.id == Str(s)
    requires w.slot == Voted(Opened(t), "agree", Str("self"))
    ensures AgreementStep(w, ReportRequest(t.id, "disagree", node)) ==
      Effect(w.(slot := Closed(), data := Committed(w.data, t.id, ToDict(t))), NoReply, Quiet)
  {
    ReportPastThresholdCommits(w, t, s, "disagree", node);
  }

  /**
   * A ballot a leader broadcasts opens the same transaction at a follower
   * whose ballot is closed, and the follower reports on that transaction's
   * id, agreeing exactly when it validates.
   */
  lemma BallotReachesFollower(c: Scheme, name: string, w: World, t: Tx, sock: Socket)
    requires ValidData(w.data) && w.slot.transaction.None? && t.sourceAddress != Null
    ensures var e := Step(c, name, w, BallotRequest(t), sock);
      && e.world == w.(slot := Opened(t))
      && e.reply == Respond(200, Empty)
      && e.out == Broadcast(ReportRequest(t.id, if Validate(c, ToJson(t)).Valid? then "agree" else "disagree",
                                          Endpoint(sock.localHost, IntText(sock.localPort))))
  {
    assert '/' !in "ballot";
    SplitAfter("ballot", [], '/');
    assert Segments("/ballot") == ["ballot"];
    FromMessageOfToJson(t);
    BallotOutcomes(c, w, ToJson(t), sock);
    StepRoutesBallot(c, name, w, BallotRequest(t), sock);
  }

  /**
   * A follower's report reaches the leader's tally: at a leader whose
   * ballot holds the same transaction, the vote is recorded, and the ballot
   * either stays open with it or closes.
   */
  lemma ReportReachesLeader(c: Scheme, name: string, w: World, t: Tx, s: string, result: string, node: string, sock: Socket)
    requires ValidData(w.data) && w.slot.transaction == Some(t) && t.id == Str(s) && '/' !in s
    requires result == "agree" || result == "disagree"
    ensures var e := Step(c, name, w, ReportRequest(t.id, result, node), sock);
      e.world.slot == Voted(w.slot, result, Str(node)) || (e.world.slot == Closed() && e.reply == NoReply)
  {
    ReportRequestReads(s, result, node);
    ReportTallied(w, t, s, result, node);
    StepRoutesAgreement(c, name, w, ReportRequest(t.id, result, node), sock);
  }

  // ---------------------------------------------------------------- the server

  /** The request handler's view of the node: its name, ballot, siblings and store. */
  class Server {
    const name: string
    const ballot: Ballot
    const siblings: Siblings
    const storage: Storage

    function State(): World
      reads ballot, siblings, storage
    {
      World(ballot.State(), siblings.siblings, storage.data)
    }

    ghost predicate Valid()
      reads ballot, storage
    {
      ballot.Valid() && storage.Valid()
    }

    constructor (name: string, ballot: Ballot, siblings: Siblings, storage: Storage)
      ensures this.name == name && this.ballot == ballot && this.siblings == siblings && this.storage == storage
    {
      this.name := name;
      this.ballot := ballot;
      this.siblings := siblings;
      this.storage := storage;
    }

    /** `handle_ping`. */
    method HandlePing(req: Request, sock: Socket) returns (reply: Reply)
      modifies siblings
      ensures Effect(State(), reply, Quiet) == PingStep(old(State()), name, req, sock)
    {
      if req.command != "POST" {
        return Respond(405, Empty);
      }
      var d := Parse(req.postData);
      if d.None? || d.value.Atom? {
        return Unhandled;
      }
      var m := d.value.members;
      if !Has(m, "port") {
        return Unhandled;
      }
      var endpoint := Endpoint(sock.peerHost, PyStr(Field(m, "port")));
      if !Has(m, "name") {
        return Unhandled;
      }
      var added := siblings.Add(Node(Field(m, "name"), endpoint));
      reply := Respond(200, Info(name, Endpoint(sock.localHost, IntText(sock.localPort))));
    }

    /** `handle_transactions`. */
    method HandleTransactions(req: Request) returns (reply: Reply)
      requires Valid()
      ensures reply == TransactionsReply(State(), req)
    {
      if req.command != "GET" {
        return Respond(405, Empty);
      }
      var paths := Segments(req.path);
      if |paths| < 2 {
        return Respond(400, Empty);
      }
      var txs := storage.GetTransactions(Str(paths[1]));
      reply := Respond(200, Listing(SliceTo(txs, req.limit)));
    }

    /** `_handle_transaction_get`. */
    method HandleTransactionGet(req: Request) returns (reply: Reply)
      ensures reply == TransactionGetReply(State(), req)
    {
      var paths := Segments(req.path);
      if |paths| < 2 {
        return Respond(400, Empty);
      }
      var tx := storage.GetTransaction(Str(paths[1]));
      if tx.None? {
        return Respond(404, Empty);
      }
      reply := Respond(200, Found(tx.value));
    }

    /**
     * `_handle_transaction_post`. Asking each sibling whether its ballot is
     * open has no effect: `check_ballot_is_opened` always answers no.
     */
    method HandleTransactionPost(c: Scheme, postData: string) returns (reply: Reply, out: Outgoing)
      requires Valid()
      modifies ballot, storage
      ensures Valid()
      ensures Effect(State(), reply, out) == PostStep(c, old(State()), postData)
    {
      var v := Validate(c, postData);
      if v.Aborted? {
        return Unhandled, Quiet;
      }
      if v.Invalid? {
        return Respond(401, Message("failed to validate")), Quiet;
      }
      var t := v.tx;
      if !ballot.IsClosed() {
        storage.AddTransactionToPool(t);
        return Respond(200, Empty), Quiet;
      }
      ballot.Open(t);
      ballot.SetResult("agree", Str("self"));
      reply, out := Respond(200, Empty), Broadcast(BallotRequest(t));
    }

    /** `handle_transaction`. */
    method HandleTransaction(c: Scheme, req: Request) returns (reply: Reply, out: Outgoing)
      requires Valid()
      modifies ballot, storage
      ensures Valid()
      ensures Effect(State(), reply, out) == TransactionStep(c, old(State()), req)
    {
      if req.command != "GET" && req.command != "POST" {
        return Respond(405, Empty), Quiet;
      }
      if req.command == "GET" {
        reply := HandleTransactionGet(req);
        return reply, Quiet;
      }
      reply, out := HandleTransactionPost(c, req.postData);
    }

    /**
     * `handle_ballot`; the report goes out under the id `from_message`
     * took from the envelope.
     */
    method HandleBallot(c: Scheme, postData: string, sock: Socket) returns (reply: Reply, out: Outgoing)
      requires Valid()
      modifies ballot
      ensures Valid()
      ensures Effect(State(), reply, out) == BallotStep(c, old(State()), postData, sock)
    {
      if !ballot.IsClosed() {
        return Respond(400, Empty), Quiet;
      }
      var received := ballot.OpenFromJson(postData);
      if !received.Done? {
        return Unhandled, Quiet;
      }
      var v := Validate(c, postData);
      if v.Aborted? {
        return Unhandled, Quiet;
      }
      var result := if v.Valid? then "agree" else "disagree";
      reply := Respond(200, Empty);
      out := Broadcast(ReportRequest(received.value.id, result, Endpoint(sock.localHost, IntText(sock.localPort))));
    }

    /** `handle_transaction_agreement`. */
    method HandleTransactionAgreement(req: Request) returns (reply: Reply)
      requires Valid()
      modifies ballot, storage
      ensures Valid()
      ensures Effect(State(), reply, Quiet) == AgreementStep(old(State()), req)
    {
      if req.command != "POST" {
        return Respond(405, Empty);
      }
      var paths := Segments(req.path);
      if |paths| < 2 {
        return Respond(400, Empty);
      }
      var txId := paths[1];
      if ballot.IsClosed() {
        return Respond(200, Empty);
      }
      var tx := ballot.transaction.value;
      if tx.id != Str(txId) {
        return Respond(400, Empty);
      }
      var data := Parse(req.postData);
      if data.None? || data.value.Atom? {
        return Unhandled;
      }
      var d := data.value.members;
      if !Has(d, "result") {
        return Unhandled;
      }
      var result := Field(d, "result");
      if result != Str("agree") && result != Str("disagree") {
        return Respond(400, Empty);
      }
      if !Has(d, "node") {
        return Unhandled;
      }
      ballot.SetResult(result.s, Field(d, "node"));
      var threshold := Threshold(siblings.Len());
      var agreed := |ballot.agree|;
      if agreed <= threshold {
        return Respond(200, Empty);
      }
      ballot.Close();
      storage.SetTransaction(tx.id, ToDict(tx));
      reply := NoReply;
    }

    /** `not_found_handler`. */
    method NotFound(req: Request, sock: Socket) returns (reply: Reply)
      modifies siblings
      ensures Effect(State(), reply, Quiet) == NotFoundStep(old(State()), name, req, sock)
    {
      if |req.path| <= 1 {
        reply := HandlePing(req, sock);
        return;
      }
      reply := Respond(404, Message("\"" + req.path + "\" not found"));
    }

    /** Looking the first path segment up in `HTTP_HANDLERS` and running the handler. */
    method Handle(c: Scheme, req: Request, sock: Socket) returns (reply: Reply, out: Outgoing)
      requires Valid()
      modifies ballot, siblings, storage
      ensures Valid()
      ensures Effect(State(), reply, out) == Step(c, name, old(State()), req, sock)
    {
      var key := Segments(req.path)[0];
      out := Quiet;
      if key == "ping" {
        reply := HandlePing(req, sock);
      } else if key == "transaction" {
        reply, out := HandleTransaction(c, req);
      } else if key == "transactions" {
        reply := HandleTransactions(req);
      } else if key == "transaction_agreement" {
        reply := HandleTransactionAgreement(req);
      } else if key == "ballot" {
        reply, out := HandleBallot(c, req.postData, sock);
      } else {
        reply := NotFound(req, sock);
      }
    }
  }
}
