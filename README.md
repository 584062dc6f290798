# simple-fba: consensus and ledger core in Dafny

simple-fba is a toy federated-agreement network. Each node keeps:

- a sibling registry of peers;
- a single ballot slot;
- a key-value ledger store.

A client posts a signed transaction to a node, and the node validates it. If the node's ballot is closed, it opens the ballot with its own `'self'` agree vote and broadcasts the ballot to every sibling. A sibling opens its own ballot with the received transaction and sends its `agree` or `disagree` report to every one of its own siblings. The leader tallies the reports. Once the agree votes exceed `ceil(n * 0.5)` for `n` siblings, it closes the ballot and commits the transaction: it writes the record under `transaction.<id>` and prepends it to the newest-first history under `transactions.<source>`. A transaction that arrives while a ballot is open goes into the pool. At start-up, a genesis account holding the whole supply of 100 is funded by a transaction it sends to itself.

The model covers the following files:

| file | module | form |
|---|---|---|
| `transaction.py` | `Transactions` | The constructor, `body`, `to_dict`/`to_json`, `sign`, `from_message` and `validate`. `Transaction` is a class with a constructor and a `Sign` method. The pure parts are functions. |
| `node.py` | `Nodes` | Node equality. `Siblings` is a class whose methods loop over the peer list. `Ballot` is a class whose state is summed up by a `Slot` value. |
| `storage.py` | `Store` | `Storage` is a class over a `map`. Each mutating method is specified by a function of the old map. |
| `account.py` | `Accounts` | `create_genesis` is a method making the same sequence of store writes as the source. |
| `handler.py` | `Handlers` | Every handler and the `HTTP_HANDLERS` dispatch are methods of a `Server` class over the ballot, siblings and store objects. Each method is specified by a step function over a `World` value of the same three components. The protocol properties are lemmas about those step functions. |

Two supporting modules stand in for library code:

- `Json` is a small serializer and parser, with the round trip `Parse(Serialize(j)) == Some(j)` proved rather than assumed.
- `Keypairs` turns the signing library into a `Scheme` value: address derivation, address decoding, signing and verification. Every member that uses it takes the scheme as a parameter. `Sound(c)` states the two facts a working library provides.

Python's exceptions appear in two forms:

- `Outcome` distinguishes `KeyError`, which `validate` turns into `None`, from any other exception, which escapes the handler. An escaped exception is `Reply.Unhandled`.
- Python `assert`s that the source places on its callers become `requires` clauses. Examples are `open_from_json` on a closed ballot and `set_result` on an open one.

Python's JSON values become `Scalar`: null, booleans, integers and strings. Keys built with `'%s' % x` use `PyStr`, the Python rendering of a scalar.

The model follows the code where it differs from the intended design:

- **Loopback aliases.** `Node.__eq__` (`src/simple_fba/node.py:35-47`) computes the `localhost` → `127.0.0.1` rewrite but discards it. Equality is therefore plain endpoint equality, and `LocalhostAliasesDiffer` proves that the two spellings differ.
- **The follower's ballot.** `handle_ballot` opens the follower's ballot and never closes it (`src/simple_fba/handler.py:192`). Only agreement reports from the follower's own siblings can close it: `handle_transaction_agreement` checks only that a ballot is open on the same id (`src/simple_fba/handler.py:211-264`), so a follower also tallies, and commits once the reports it receives exceed its threshold. `AgreementStep` acts on any open slot, and `ReportReachesLeader` covers any node holding the transaction.
- **The leader's own vote.** The leader's own `'self'` vote counts toward the threshold. With 3 siblings, one agree report leaves the ballot open and the second one closes it, not the third.
- **Duplicate votes.** Votes are lists, so duplicates count. `ThreeSiblingsExample` holds even when both reports come from the same node.
- **Disagree votes never abort.** Disagree votes are recorded but never end a ballot on their own. Any report closes the ballot once the agree votes already exceed the threshold, so a node with no siblings (threshold 0, one `'self'` vote) commits on its first report, even a `disagree` one (`LoneNodeDisagreeCommits`).
- **`remove` is index-shifted.** `Siblings.remove` deletes by shifted index (see Findings).

## Model

| member | source | states |
|---|---|---|
| Json.Get | src/simple_fba/transaction.py:113-122 | a member lookup succeeds exactly when the key is present, and returns a value the object holds under that key |
| Json.GetUnique | src/simple_fba/transaction.py:113-122 | a key that occurs in only one member reads back that member's value |
| Json.ParseSerialize | src/simple_fba/transaction.py:110-111 | parsing serialised text gives back the same object, so decoding undoes encoding for the flat objects transactions exchange |
| Json.ParseStrBodyRefusesEscape | src/simple_fba/transaction.py:110-111 | a string literal with an escape other than `\"` or `\\` is unreadable, so the message counts as raising |
| Json.ParseScalarRefusesLeadingZero | src/simple_fba/transaction.py:110-111 | a number written with a leading zero, signed or not, is unreadable, as `json.loads` refuses it |
| Transactions.ToDict | src/simple_fba/transaction.py:142-148 | the envelope's `id` and `source_address` are the body's, it carries the signature, and its `body` text parses to exactly the body object |
| Transactions.FieldsOfBody | src/simple_fba/transaction.py:128-140 | the body holds `id`, `previous_id`, `source_address`, `receiver_address` and `amount`, with the transaction's values |
| Transactions.FieldsOfEnvelope | src/simple_fba/transaction.py:142-148 | the envelope holds `id`, `source_address`, `signature` and the body text |
| Transactions.UnwrapWire | src/simple_fba/transaction.py:71-73 | reading a serialised envelope yields its members, the body text exactly as sent, and the body's members |
| Transactions.FromMessageOfWire | src/simple_fba/transaction.py:103-126 | `from_message` takes `previous_id`, `receiver_address` and `amount` from the body, and `id`, `source_address` and `signature` from the envelope; it raises when the body's source address is None |
| Transactions.FromMessageOfToJson | src/simple_fba/transaction.py:103-151 | round trip: `from_message(tx.to_json())` reproduces every field of a transaction whose source address is set |
| Transactions.ValidateOfWire | src/simple_fba/transaction.py:55-101 | `validate` rejects, in this order, when the source address does not decode, when the receiver address does not decode, when the signature does not verify over the body text, and when the amount is negative; otherwise it returns `from_message`'s transaction |
| Transactions.ValidateWithoutBody | src/simple_fba/transaction.py:55-73 | a message without `body` is rejected (None), not raised |
| Transactions.CheckKeyErrors | src/simple_fba/transaction.py:75-101 | a missing `source_address`, `receiver_address`, `signature` or `amount`, at the point each is read, gives None; a `KeyError` from `from_message` never gives a transaction |
| Transactions.ValidateKeyErrors | src/simple_fba/transaction.py:55-101 | a `KeyError` while unwrapping the envelope gives None; a decoded envelope is judged by the checks; a `KeyError` from `from_message` never yields a transaction |
| Transactions.ValidateDecidesDecodable | src/simple_fba/transaction.py:55-126 | once `from_message` succeeds, `validate` cannot raise, and an accepted transaction is `from_message`'s |
| Transactions.CheckDecides | src/simple_fba/transaction.py:82-101 | with an integer `amount`, the checks either reject or hand over the transaction `from_message` rebuilt; they cannot raise |
| Transactions.CheckOfFields | src/simple_fba/transaction.py:82-101 | the checks run in source-address, receiver-address, signature and amount order, over the field values they read |
| Transactions.ValidAccepted | src/simple_fba/transaction.py:82-101 | an accepted transaction has a non-negative amount and a decodable receiver, and equals `from_message`'s |
| Transactions.ValidateSigned | src/simple_fba/transaction.py:76-101 | with a sound signing library, a transaction signed with its source's seed, with a decodable receiver and a non-negative amount, validates and comes back unchanged |
| Transactions.ValidateRejectsNegative | src/simple_fba/transaction.py:97-99 | a negative amount is always rejected |
| Transactions.Transaction.constructor | src/simple_fba/transaction.py:31-53 | the id is the given one or a fresh one; a seed overrides the source address; the other arguments are kept; the sign of the amount is not checked, and a source address always results |
| Transactions.Transaction.Sign | src/simple_fba/transaction.py:155-166 | raises without a seed and changes nothing; otherwise stores the seed's signature of the serialised body and returns the envelope text, leaving the body unchanged |
| Nodes.EqualsIsEndpointEquality | src/simple_fba/node.py:35-47 | two nodes are equal exactly when their endpoints are, whatever their names |
| Nodes.LocalhostAliasesDiffer | src/simple_fba/node.py:35-47 | `http://localhost:P` and `http://127.0.0.1:P` are not equal, because the rewrite's result is discarded |
| Nodes.WithoutAbsent | src/simple_fba/node.py:143-146 | with no entry of that endpoint, the registry is unchanged |
| Nodes.WithoutFirstAt | src/simple_fba/node.py:143-146 | exactly the first entry with the endpoint is deleted, and every other entry keeps its relative order |
| Nodes.WithoutEndpointLength | src/simple_fba/node.py:143-146 | the length drops by one exactly when some entry has the endpoint |
| Nodes.WithoutEndpointSubset | src/simple_fba/node.py:143-146 | nothing is added by the deletion |
| Nodes.WithoutEndpointClears | src/simple_fba/node.py:143-146 | on a registry without endpoint duplicates, the deletion leaves none with that endpoint |
| Nodes.AddedProperties | src/simple_fba/node.py:140-150 | after `add` the node is last, the length grows by one exactly when its endpoint was new (otherwise stays), and a registry without endpoint duplicates keeps none |
| Nodes.Siblings.constructor | src/simple_fba/node.py:125-129 | callable exactly where `__init__` returns, that is with no peers, and then the registry is empty |
| Nodes.InitRaisesOnAnyNode | src/simple_fba/node.py:125-129 | the `isinstance` assertion as written returns exactly for an empty argument list, and raises for any list holding a node |
| Nodes.InitAgreesOnNoArguments | src/simple_fba/node.py:125-129 | the constructor as written agrees with the intended one, which keeps the given peers, exactly on the empty argument list |
| Nodes.Siblings.DeleteFirst | src/simple_fba/node.py:143-146 | the snapshot loop deletes the first endpoint-equal entry and stops |
| Nodes.Siblings.Add | src/simple_fba/node.py:140-150 | the registry becomes the old one without the first endpoint-equal entry, followed by the node; the result is always True |
| Nodes.Siblings.Replace | src/simple_fba/node.py:152-160 | removes the first entry whose endpoint equals `a`'s, then behaves exactly as `add(b)` |
| Nodes.Siblings.Remove | src/simple_fba/node.py:162-167 | the registry is what the index-shifted deletion loop leaves, and `IndexError` is reported when it runs past the end |
| Nodes.Siblings.RemoveAll | src/simple_fba/node.py:162-167 | corrected `remove`: the registry becomes exactly the entries whose name differs, in order |
| Nodes.WithoutNameMembers | src/simple_fba/node.py:162-167 | an entry survives the corrected removal exactly when it was present and has another name |
| Nodes.RemoveAtMostOne | src/simple_fba/node.py:162-167 | with at most one entry of that name, `remove` as written deletes exactly it and keeps the others in order, without raising |
| Nodes.RemoveShiftsPastMatch | src/simple_fba/node.py:162-167 | with two matches before another peer, `remove` as written keeps the second match and deletes the other peer |
| Nodes.RemoveRunsOutOfRange | src/simple_fba/node.py:162-167 | with two matches at the end, `remove` as written raises `IndexError` after one deletion |
| Nodes.OpenCloseStates | src/simple_fba/node.py:175-219 | a closed ballot holds no transaction and no votes; an opened one holds its transaction and no votes |
| Nodes.VotedAppends | src/simple_fba/node.py:228-232 | a vote lengthens its own list by one even for a repeated voter, and leaves the transaction and the other lists unchanged |
| Nodes.Ballot.constructor | src/simple_fba/node.py:175-182 | a new ballot is closed with three empty vote lists |
| Nodes.Ballot.Close | src/simple_fba/node.py:199-208 | the ballot is closed with three empty vote lists |
| Nodes.Ballot.Open | src/simple_fba/node.py:210-219 | the ballot holds the transaction, with three empty vote lists |
| Nodes.Ballot.OpenFromJson | src/simple_fba/node.py:221-226 | on a closed ballot, opens with `from_message`'s transaction; when decoding raises, the ballot is unchanged |
| Nodes.Ballot.SetResult | src/simple_fba/node.py:228-232 | on an open ballot and a known kind, the vote is appended to that list only |
| Store.KeysDisjoint | src/simple_fba/storage.py:49-68 | the `account.`, `transaction.` and `transactions.` namespaces and the `genesis` and `pool` keys never meet |
| Store.CommittedEffects | src/simple_fba/storage.py:58-68 | after `set_transaction(id, v)`, the record is stored under its id and leads its source's history, ahead of the old one; no other key changes |
| Store.CommittedAppendOnly | src/simple_fba/storage.py:58-68 | a commit removes no key, and every history keeps its old entries, behind at most one new record |
| Store.PooledEffects | src/simple_fba/storage.py:77-84 | the transaction goes to the front of the pool, which is created when absent; every other key and every history is unchanged |
| Store.Storage.constructor | src/simple_fba/storage.py:12-14 | a new store is empty |
| Store.Storage.Initialize | src/simple_fba/storage.py:16-20 | `initialize` leaves the store empty |
| Store.Storage.Set | src/simple_fba/storage.py:34-41 | afterwards `get(k)` returns `v` and every other key reads as before |
| Store.Storage.SetAccount | src/simple_fba/storage.py:49-53 | afterwards `get_account(a)` returns the record |
| Store.Storage.SetTransaction | src/simple_fba/storage.py:58-68 | afterwards `get_transaction(id)` is the record and `get_transactions(source)` is the record followed by the old history |
| Store.Storage.AddTransactionToPool | src/simple_fba/storage.py:77-84 | the pool becomes the transaction followed by the old pool, one longer |
| Accounts.CreateGenesis | src/simple_fba/account.py:28-65 | the store ends as: the genesis address recorded, its account funded with 100, and the signed genesis transaction committed |
| Accounts.GenesisOnFreshStore | src/simple_fba/account.py:40-62 | on an empty store, genesis leaves exactly four keys: `genesis` maps to the address, the account holds `{address, 100}`, `get_transaction(id)` is the record, and the history is exactly that one record |
| Accounts.GenesisTxValidates | src/simple_fba/account.py:51-62 | the genesis transaction has no previous id, sends 100 from the genesis address to itself, and with a sound signing library its signed envelope validates |
| Handlers.SplitJoin | src/simple_fba/handler.py:216 | splitting the path on `/` loses nothing: the parts join back to the text and none holds a `/` |
| Handlers.SplitAfter | src/simple_fba/handler.py:216 | a separator-free first part is split off whole |
| Handlers.SliceToPrefix | src/simple_fba/handler.py:70-74 | the listing is the newest part of the history, a prefix as long as the limit allows, with Python's meaning of negative limits |
| Handlers.ThresholdIsHalfUp | src/simple_fba/handler.py:251 | the threshold is half the sibling count rounded up |
| Handlers.ExceedsThresholdIffMajority | src/simple_fba/handler.py:251-256 | the agree votes exceed the threshold exactly when they are a strict majority of the siblings plus the node itself |
| Handlers.AgreementRefusals | src/simple_fba/handler.py:211-234 | a report to a closed ballot gets 200, and one naming another transaction gets 400; in both cases, and whatever the body says, the ballot and the store are unchanged |
| Handlers.AgreementBadResult | src/simple_fba/handler.py:236-244 | a result other than agree or disagree gets 400 with the state unchanged |
| Handlers.ReportPastThresholdCommits | src/simple_fba/handler.py:246-264 | once the agree votes exceed the threshold, any report for the open transaction, agree or disagree, closes the ballot, commits the transaction and sends no reply |
| Handlers.LoneNodeDisagreeCommits | src/simple_fba/handler.py:246-264 | with no siblings the leader's own vote exceeds the threshold 0, so a first `disagree` report commits |
| Handlers.AgreementTally | src/simple_fba/handler.py:246-264 | the vote is recorded; while the agree votes do not exceed the threshold, the ballot stays open and the reply is 200; once they do, it closes with no votes, commits its transaction and sends no reply; closing happens exactly at a strict majority |
| Handlers.PostOutcomes | src/simple_fba/handler.py:111-163 | an invalid transaction gets 401 with nothing changed; a valid one at an open ballot joins the front of the pool, with the ballot untouched; at a closed ballot it opens the ballot with `agree == ['self']` and no other votes, writes no record, and is broadcast |
| Handlers.BallotOutcomes | src/simple_fba/handler.py:182-208 | at an open ballot: 400, unchanged; at a closed ballot: a decodable message opens it with that transaction whether or not it validates, gets 200, and reports `agree` exactly when it validates; an undecodable one changes nothing |
| Handlers.PingMoves | src/simple_fba/handler.py:28-52 | a ping changes neither the ballot nor the store |
| Handlers.TransactionMoves | src/simple_fba/handler.py:79-163 | `/transaction` leaves the state alone, pools a valid transaction at an open ballot, or opens a closed ballot with only the node's own vote |
| Handlers.BallotMoves | src/simple_fba/handler.py:182-208 | `/ballot` leaves the state alone or opens a closed ballot with no votes, and never touches the store |
| Handlers.AgreementMoves | src/simple_fba/handler.py:211-264 | a report leaves the state alone, records one agree or disagree vote, or closes the ballot, commits its transaction and sends no reply |
| Handlers.StepMoves | src/simple_fba/handler.py:267-273 | every request changes the ballot and the store in one of those five ways only |
| Handlers.MovesKeepValid | src/simple_fba/handler.py:211-264 | each of those changes keeps a closed ballot vote-free and the store's namespaces typed |
| Handlers.MovesKeepOpen | src/simple_fba/handler.py:211-264 | each of those changes keeps an open ballot's transaction and earlier votes, adding at most one, or closes it and commits that transaction |
| Handlers.LedgerOfShape | src/simple_fba/storage.py:58-84 | a store left alone, pooled into or committed to keeps every key and every history, gains at most one record at the front of a history, and changes no history or record unless a ballot closed |
| Handlers.StepKeepsValid | src/simple_fba/handler.py:267-273 | every request keeps a closed ballot vote-free and the store's namespaces typed |
| Handlers.StepKeepsOpenBallot | src/simple_fba/handler.py:267-273 | an open ballot is never replaced: either it keeps its transaction and every earlier vote, with at most one more, or it closes and commits exactly that transaction |
| Handlers.StepDataShape | src/simple_fba/handler.py:267-273 | a request leaves the store unchanged, pools a valid transaction, or commits the open ballot's transaction as that ballot closes |
| Handlers.StepLedger | src/simple_fba/handler.py:267-273 | the ledger is append-only, and no history or transaction record changes unless a ballot goes from open to closed |
| Handlers.StepPeersOnlyByPing | src/simple_fba/handler.py:267-273 | only a ping, addressed directly or at the bare root, changes the siblings |
| Handlers.ReportPath | src/simple_fba/node.py:93-100 | the report's path carries the transaction id as its second segment |
| Handlers.ReportRequestReads | src/simple_fba/node.py:93-100 | the receiver reads the report's path and `{result, node}` body back exactly, including the `result` and `node` values |
| Handlers.ReportTallied | src/simple_fba/handler.py:211-264 | a report request on the open transaction is recorded, leaving the ballot open with 200 up to the threshold and otherwise closing it and committing |
| Handlers.ThreeSiblingsExample | src/simple_fba/handler.py:251-256 | with 3 siblings and the `'self'` vote, one agree report keeps the ballot open and a second closes it and commits, even from the same node |
| Handlers.BallotReachesFollower | src/simple_fba/handler.py:182-208 | the ballot a leader broadcasts opens the same transaction at a follower whose ballot is closed; the follower reports on its id, agreeing exactly when it validates |
| Handlers.ReportReachesLeader | src/simple_fba/handler.py:211-256 | a follower's report is recorded by a leader whose ballot holds that transaction, and the ballot either keeps the vote or closes |
| Handlers.Server.constructor | scripts/simple-fba-node.py:128-139 | each request handler holds the node's name and the very ballot, sibling registry and store the server owns, shared rather than copied |
| Handlers.Server.HandlePing | src/simple_fba/handler.py:28-52 | as `PingStep`: a POST adds the caller at its peer host and advertised port, answering 200 with this node's name and endpoint; any other method gets 405, and a body without `port` or `name` aborts |
| Handlers.TransactionsListed | src/simple_fba/handler.py:55-76 | non-GET gets 405; a path without an address gets 400; otherwise 200 with a prefix of the address's history, newest first: all of it without `limit`, and `min(limit, len(history))` records for a non-negative `limit` |
| Handlers.TransactionLookedUp | src/simple_fba/handler.py:93-108 | 400 without an id; otherwise 404 exactly when no record is stored under `transaction.<id>`, and 200 with a value exactly when it is the stored record |
| Handlers.Server.HandleTransactions | src/simple_fba/handler.py:55-76 | as `TransactionsReply`: only GET; 400 without an address; otherwise 200 with the newest `limit` records |
| Handlers.Server.HandleTransactionGet | src/simple_fba/handler.py:93-108 | as `TransactionGetReply`: 400 without an id, 404 for an unknown id, otherwise 200 with the stored record |
| Handlers.Server.HandleTransactionPost | src/simple_fba/handler.py:111-163 | the ballot, store and broadcast are as `PostStep` says |
| Handlers.Server.HandleTransaction | src/simple_fba/handler.py:79-90 | GET and POST only, each routed to its handler |
| Handlers.Server.HandleBallot | src/simple_fba/handler.py:182-208 | the ballot and the report sent are as `BallotStep` says |
| Handlers.Server.HandleTransactionAgreement | src/simple_fba/handler.py:211-264 | the ballot and store are as `AgreementStep` says, through `set_result`, `close` and `set_transaction` |
| Handlers.Server.NotFound | src/simple_fba/handler.py:16-25 | the bare root is a ping; any other unknown path gets 404 naming the path |
| Handlers.Server.Handle | src/simple_fba/handler.py:267-273 | the first path segment selects the handler, and unknown segments go to `not_found_handler` |

## Findings

| source | as written | input that shows it | evidently intended | confidence | as-written member | corrected member |
|---|---|---|---|---|---|---|
| src/simple_fba/node.py:162-167 | `remove` walks the indices of a snapshot and runs `del self.siblings[i]` on the live list, which shrinks after each deletion | `[A(name), B(name), C(other)]`: A goes, then index 1 now holds C and is deleted, so B survives and C is lost; `[A(name), B(name)]` raises `IndexError` | every entry of that name is removed and the others are kept in order | not executed; proved on the model | Nodes.Siblings.Remove (Nodes.RemoveShiftsPastMatch, Nodes.RemoveRunsOutOfRange) | Nodes.Siblings.RemoveAll (Nodes.WithoutNameMembers; Nodes.RemoveAtMostOne shows both agree when at most one entry matches) |
| src/simple_fba/node.py:125-129 | the `isinstance` assertion looks for `False` among the filtered arguments, which compares each node with `False`, calling `Node.__eq__(node, False)`, which reads `False.endpoint` and raises `AttributeError` | `Siblings(Node(None, 'http://a:1'))` | the assertion checks that every argument is a `Node`, and the registry keeps them | not executed; proved on the model | Nodes.InitAsWritten (Nodes.InitRaisesOnAnyNode) | Nodes.InitIntended (Nodes.InitAgreesOnNoArguments) |

## Left out

- The signing library (`stellar_base.Keypair`) is not modelled. It is a `Scheme` parameter of uninterpreted functions. `Keypair.random()` is a seed parameter, and `uuid.uuid1().hex` is a fresh-id parameter.
- JSON text is limited to objects whose members are null, booleans, integers and strings, written without whitespace.
  - Nested objects, arrays, floats, and escapes other than `\"` and `\\` are not modelled.
  - A message using them is read as unparseable, and therefore as raising (`ParseStrBodyRefusesEscape`). So is a number with a leading zero, which `json.loads` also refuses (`ParseScalarRefusesLeadingZero`).
  - A raw control character inside a string literal is read as itself, where `json.loads` refuses it.
- `Scheme.isAddress` is unconstrained on non-string values. In Python, decoding a non-string address raises `TypeError`, which escapes `validate` (`src/simple_fba/transaction.py:75-86`); that path is not modelled, and the model may accept or reject such an address but never raises.
- Pickle persistence is not modelled:
  - `Storage.load` is file I/O.
  - `Storage.save`, which follows every write, changes no state, so writes are modelled without it.
- Network calls are not modelled: `Node.ping`, `broadcast_siblings` (broken in the source: it calls a nonexistent `Siblings.to_json`), the ballot and agreement broadcasts, and their timeouts.
  - A broadcast is the `Outgoing` request a handler returns. Its delivery is left to the caller: `BallotReachesFollower` and `ReportReachesLeader` apply it to another node.
- The `BroadcastAgreementResult` thread is not modelled. Concurrency between requests is left out, and each request is one atomic step.
- The peer checks in `_handle_transaction_post` are not modelled: `check_ballot_is_opened` always answers False, so they change nothing.
- HTTP plumbing is not modelled: reading `Content-Length`, `response`/`json_response` encoding, and the server class in the node script. Only the state the server hands each request handler is modelled, as `Handlers.Server.constructor`.
  - `getpeername`/`getsockname` are the `Socket` parameter.
  - The response status and payload are the `Reply`.
- Handlers.Server.HandleTransactions: the query string is taken as already parsed to an optional integer `limit`. A `limit` that `int()` rejects, which raises in the source, is not modelled.
- Store.Storage.Set: it requires the store's namespace typing, that is, a history under `transactions.` and the pool under `pool`. The source writes any value. Every write in the code respects this typing.
- Store.Storage.GetAccount/GetTransaction/GetTransactions carry no contract of their own. They read the map, and the methods that write it state what they read back.
- Nodes.Siblings.constructor: models `__init__` only where it returns, that is `Siblings()`, the only call the node script makes. Any argument list holding a node raises `AttributeError` (see Findings), which `InitAsWritten` models.
- Nodes.WithoutName, Nodes.RemoveSteps, Nodes.Siblings.Remove, Nodes.Siblings.RemoveAll: node names are compared structurally, not with Python's `==`, which also equals `1` with `True` and `0` with `False`. A name is whatever JSON scalar a ping carries, so `remove(True)` would delete a node named `1` in Python but not in the model. `remove` has no caller in the source.
- `Account.to_dict` is a record constructor. Its contents are stated by `GenesisOnFreshStore`.
- Logging, `Ballot.__repr__`/`to_json`, `Node.to_json`/`from_json` and `Siblings.__iter__` are not modelled. Neither are the wallet script, `setup.py`, and `test_transactions.py`, which calls members that do not exist.
- `math.ceil(n * 0.5)` is not modelled in floating point. It is the integer `(n + 1) / 2`, which is exact for every sibling count the process could hold.
