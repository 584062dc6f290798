/**
 * The transfer transaction (src/simple_fba/transaction.py): its signed body,
 * its wire envelope, decoding an envelope back into a transaction, and the
 * fixed-order validation procedure.
 *
 * Field values are JSON scalars because the Python code keeps whatever a
 * message carries: an `id` taken from an envelope may be any JSON value.
 */
module Transactions {
  import opened Wrappers
  import opened Json
  import opened Keypairs

  /** The field values of a `Transaction` object (everything but its keypair). */
  datatype Tx = Tx(
    id: Scalar,
    previousId: Scalar,
    sourceAddress: Scalar,
    receiverAddress: Scalar,
    amount: int,
    signature: Scalar)

  /** `Transaction.body`: the part the signature covers. */
  datatype Body = Body(id: Scalar, previousId: Scalar, sourceAddress: Scalar, receiverAddress: Scalar, amount: int)

  /** `Transaction.to_dict()`: the wire envelope; `body` is the serialised body. */
  datatype Envelope = Envelope(id: Scalar, sourceAddress: Scalar, signature: Scalar, body: string)

  function BodyOf(t: Tx): Body {
    Body(t.id, t.previousId, t.sourceAddress, t.receiverAddress, t.amount)
  }

  /** The body as the JSON object `json.dumps(self.body)` writes, in dict order. */
  function BodyJson(b: Body): Json {
    Obj([("id", b.id), ("previous_id", b.previousId), ("source_address", b.sourceAddress),
         ("receiver_address", b.receiverAddress), ("amount", Int(b.amount))])
  }

  /** The exact text the signature is computed over. */
  function BodyText(b: Body): string {
    Serialize(BodyJson(b))
  }

  /**
   * `to_dict`: the envelope repeats the body's `id` and `source_address` next
   * to the signature and the serialised body.
   */
  function ToDict(t: Tx): (e: Envelope)
    ensures e.id == BodyOf(t).id && e.sourceAddress == BodyOf(t).sourceAddress
    ensures e.signature == t.signature
    ensures Parse(e.body) == Some(BodyJson(BodyOf(t)))
  {
    ParseSerialize(BodyJson(BodyOf(t)));
    Envelope(t.id, BodyOf(t).sourceAddress, t.signature, BodyText(BodyOf(t)))
  }

  function EnvelopeJson(e: Envelope): Json {
    Obj([("id", e.id), ("source_address", e.sourceAddress), ("signature", e.signature), ("body", Str(e.body))])
  }

  /** The text of an envelope on the wire (`json.dumps` of the dict). */
  function WireText(e: Envelope): string {
    Serialize(EnvelopeJson(e))
  }

  /** `to_json`. */
  function ToJson(t: Tx): string {
    WireText(ToDict(t))
  }

  /** `d[k]` for a key known to be present. */
  function Field(ms: seq<(string, Scalar)>, k: string): Scalar
    requires Has(ms, k)
  {
    Get(ms, k).value
  }

  /**
   * `from_message` once both the envelope `j` and its body are parsed: the
   * constructor reads `previous_id`, `receiver_address`, `amount`, `id` and
   * `source_address` from the body (a missing one is a `KeyError`), asserts
   * that `amount` is an integer and that the source address is not `None`,
   * and then `id`, `source_address` and `signature` are overwritten with the
   * envelope's.
   */
  function FromFields(j: seq<(string, Scalar)>, body: seq<(string, Scalar)>): Outcome<Tx> {
    if !(Has(body, "previous_id") && Has(body, "receiver_address") && Has(body, "amount")
         && Has(body, "id") && Has(body, "source_address")) then KeyError
    else if !Field(body, "amount").Int? then Raised
    else if Field(body, "source_address") == Null then Raised
    else if !(Has(j, "id") && Has(j, "source_address") && Has(j, "signature")) then KeyError
    else Done(Tx(Field(j, "id"), Field(body, "previous_id"), Field(j, "source_address"),
                 Field(body, "receiver_address"), Field(body, "amount").i, Field(j, "signature")))
  }

  /**
   * The envelope members and the body text and members of a message, or how
   * reading them fails: text that does not parse is a `ValueError`, indexing
   * a non-object or parsing a non-string `body` a `TypeError`, and a missing
   * `body` a `KeyError`.
   */
  function Unwrap(message: string): Outcome<(seq<(string, Scalar)>, string, seq<(string, Scalar)>)> {
    match Parse(message)
    case None => Raised
    case Some(Atom(_)) => Raised
    case Some(Obj(j)) =>
      match Get(j, "body")
      case None => KeyError
      case Some(Str(text)) =>
        (match Parse(text)
         case None => Raised
         case Some(Atom(_)) => Raised
         case Some(Obj(body)) => Done((j, text, body)))
      case Some(_) => Raised
  }

  /** `Transaction.from_message`: rebuilds a transaction without checking it. */
  function FromMessage(message: string): Outcome<Tx> {
    match Unwrap(message)
    case Done((j, _, body)) => FromFields(j, body)
    case KeyError => KeyError
    case Raised => Raised
  }

  /** What `validate` returns: a transaction, `None`, or an exception it lets through. */
  datatype Verdict = Valid(tx: Tx) | Invalid | Aborted

  /** `validate` turns a `KeyError` into `None` and lets every other exception through. */
  function CatchKeyError(o: Outcome<Tx>): Verdict {
    match o
    case Done(t) => Valid(t)
    case KeyError => Invalid
    case Raised => Aborted
  }

  /**
   * `_validate` after parsing: the source address must decode, then the
   * receiver address, then the signature over the body text as received must
   * verify against the body's source address, then `amount` must not be
   * negative; only then is the message rebuilt with `from_message`, whose
   * outcome is `rebuilt`. Comparing a null or string `amount` with 0 raises
   * `TypeError`.
   */
  function Check(c: Scheme, j: seq<(string, Scalar)>, text: string, body: seq<(string, Scalar)>, rebuilt: Outcome<Tx>): Verdict {
    if !Has(body, "source_address") then Invalid
    else if !c.isAddress(Field(body, "source_address")) then Invalid
    else if !Has(body, "receiver_address") then Invalid
    else if !c.isAddress(Field(body, "receiver_address")) then Invalid
    else if !(Has(j, "signature") && c.verify(Field(body, "source_address"), text, Field(j, "signature"))) then Invalid
    else if !Has(body, "amount") then Invalid
    else
      match Field(body, "amount")
      case Int(n) => if n < 0 then Invalid else CatchKeyError(rebuilt)
      case Bool(_) => CatchKeyError(rebuilt)
      case _ => Aborted
  }

  /** `Transaction.validate`. */
  function Validate(c: Scheme, message: string): Verdict {
    match Unwrap(message)
    case Done((j, text, body)) => Check(c, j, text, body, FromMessage(message))
    case KeyError => Invalid
    case Raised => Aborted
  }

  // ------------------------------------------------------------ properties

  lemma UnwrapWire(e: Envelope, b: Body)
    requires e.body == BodyText(b)
    ensures Unwrap(WireText(e)) == Done((EnvelopeJson(e).members, e.body, BodyJson(b).members))
  {
    ParseSerialize(EnvelopeJson(e));
    ParseSerialize(BodyJson(b));
  }

  lemma FieldsOfBody(b: Body)
    ensures var ms := BodyJson(b).members;
      && Has(ms, "id") && Field(ms, "id") == b.id
      && Has(ms, "previous_id") && Field(ms, "previous_id") == b.previousId
      && Has(ms, "source_address") && Field(ms, "source_address") == b.sourceAddress
      && Has(ms, "receiver_address") && Field(ms, "receiver_address") == b.receiverAddress
      && Has(ms, "amount") && Field(ms, "amount") == Int(b.amount)
  {
    BodyFieldAt(b, 0);
    BodyFieldAt(b, 1);
    BodyFieldAt(b, 2);
    BodyFieldAt(b, 3);
    BodyFieldAt(b, 4);
  }

  /** The body's keys are distinct, so each one reads back its own member. */
  lemma BodyFieldAt(b: Body, i: int)
    requires 0 <= i < 5
    ensures var ms := BodyJson(b).members; Get(ms, ms[i].0) == Some(ms[i].1)
  {
    var ms := BodyJson(b).members;
    assert |ms[0].0| == 2 && |ms[1].0| == 11 && |ms[2].0| == 14 && |ms[3].0| == 16 && |ms[4].0| == 6;
    GetUnique(ms, i);
  }

  lemma FieldsOfEnvelope(e: Envelope)
    ensures var ms := EnvelopeJson(e).members;
      && Has(ms, "id") && Field(ms, "id") == e.id
      && Has(ms, "source_address") && Field(ms, "source_address") == e.sourceAddress
      && Has(ms, "signature") && Field(ms, "signature") == e.signature
      && Has(ms, "body") && Field(ms, "body") == Str(e.body)
  {
    var ms := EnvelopeJson(e).members;
    assert |ms[0].0| == 2 && |ms[1].0| == 14 && |ms[2].0| == 9 && |ms[3].0| == 4;
    GetUnique(ms, 0);
    GetUnique(ms, 1);
    GetUnique(ms, 2);
    GetUnique(ms, 3);
  }

  /**
   * `from_message` of a well-formed envelope takes `previous_id`,
   * `receiver_address` and `amount` from the body and `id`,
   * `source_address` and `signature` from the envelope; it raises when the
   * body's source address is null.
   */
  lemma FromMessageOfWire(e: Envelope, b: Body)
    requires e.body == BodyText(b)
    ensures FromMessage(WireText(e)) ==
      if b.sourceAddress == Null then Raised
      else Done(Tx(e.id, b.previousId, e.sourceAddress, b.receiverAddress, b.amount, e.signature))
  {
    UnwrapWire(e, b);
    FieldsOfBody(b);
    FieldsOfEnvelope(e);
  }

  /**
   * Round trip: `from_message(tx.to_json())` gives back every field of a
   * transaction whose source address is set (the constructor asserts it is).
   */
  lemma FromMessageOfToJson(t: Tx)
    requires t.sourceAddress != Null
    ensures FromMessage(ToJson(t)) == Done(t)
  {
    FromMessageOfWire(ToDict(t), BodyOf(t));
  }

  /**
   * `validate` of a well-formed envelope, case by case in the order the code
   * checks: source address, receiver address, signature, amount. The result
   * carries the envelope's `id` and `source_address`, which the signature
   * does not cover.
   */
  lemma ValidateOfWire(c: Scheme, e: Envelope, b: Body)
    requires e.body == BodyText(b)
    ensures Validate(c, WireText(e)) ==
      if !c.isAddress(b.sourceAddress) then Invalid
      else if !c.isAddress(b.receiverAddress) then Invalid
      else if !c.verify(b.sourceAddress, e.body, e.signature) then Invalid
      else if b.amount < 0 then Invalid
      else if b.sourceAddress == Null then Aborted
      else Valid(Tx(e.id, b.previousId, e.sourceAddress, b.receiverAddress, b.amount, e.signature))
  {
    var m := WireText(e);
    var j, body := EnvelopeJson(e).members, BodyJson(b).members;
    UnwrapWire(e, b);
    assert Validate(c, m) == Check(c, j, e.body, body, FromMessage(m));
    FieldsOfBody(b);
    FieldsOfEnvelope(e);
    CheckOfFields(c, j, e.body, body, FromMessage(m), b, e.signature);
    FromMessageOfWire(e, b);
  }

  /** The checks in terms of the field values they read. */
  lemma CheckOfFields(c: Scheme, j: seq<(string, Scalar)>, text: string, body: seq<(string, Scalar)>,
                      rebuilt: Outcome<Tx>, b: Body, sig: Scalar)
    requires Has(body, "source_address") && Field(body, "source_address") == b.sourceAddress
    requires Has(body, "receiver_address") && Field(body, "receiver_address") == b.receiverAddress
    requires Has(body, "amount") && Field(body, "amount") == Int(b.amount)
    requires Has(j, "signature") && Field(j, "signature") == sig
    ensures Check(c, j, text, body, rebuilt) ==
      if !c.isAddress(b.sourceAddress) then Invalid
      else if !c.isAddress(b.receiverAddress) then Invalid
      else if !c.verify(b.sourceAddress, text, sig) then Invalid
      else if b.amount < 0 then Invalid
      else CatchKeyError(rebuilt)
  {
  }

  /** A message without a `body` member is rejected, not raised. */
  lemma ValidateWithoutBody(c: Scheme, j: seq<(string, Scalar)>)
    requires !Has(j, "body")
    ensures Validate(c, Serialize(Obj(j))) == Invalid
  {
    ParseSerialize(Obj(j));
  }

  /**
   * The checks turn each missing field into `None` at the point it is read,
   * and a `KeyError` from `from_message` into `None` as well.
   */
  lemma CheckKeyErrors(c: Scheme, j: seq<(string, Scalar)>, text: string, body: seq<(string, Scalar)>, rebuilt: Outcome<Tx>)
    ensures var v := Check(c, j, text, body, rebuilt);
      && (!Has(body, "source_address") ==> v == Invalid)
      && (Has(body, "source_address") && c.isAddress(Field(body, "source_address")) && !Has(body, "receiver_address") ==>
            v == Invalid)
      && (Has(body, "source_address") && c.isAddress(Field(body, "source_address"))
          && Has(body, "receiver_address") && c.isAddress(Field(body, "receiver_address")) && !Has(j, "signature") ==>
            v == Invalid)
      && (Has(body, "source_address") && c.isAddress(Field(body, "source_address"))
          && Has(body, "receiver_address") && c.isAddress(Field(body, "receiver_address"))
          && Has(j, "signature") && c.verify(Field(body, "source_address"), text, Field(j, "signature"))
          && !Has(body, "amount") ==>
            v == Invalid)
      && (rebuilt == KeyError ==> !v.Valid?)
  {
  }

  /**
   * Every `KeyError` on the way through `_validate` becomes `None`: a
   * missing `body`, a missing `source_address`, `receiver_address`,
   * `signature` or `amount` at the point it is read (as `CheckKeyErrors`
   * states for the decoded members), and a `KeyError` from `from_message`.
   */
  lemma ValidateKeyErrors(c: Scheme, m: string)
    ensures Unwrap(m) == KeyError ==> Validate(c, m) == Invalid
    ensures Unwrap(m).Done? ==>
      Validate(c, m) == Check(c, Unwrap(m).value.0, Unwrap(m).value.1, Unwrap(m).value.2, FromMessage(m))
    ensures FromMessage(m) == KeyError ==> !Validate(c, m).Valid?
  {
    match Unwrap(m)
    case Done((j, text, body)) =>
      CheckKeyErrors(c, j, text, body, FromMessage(m));
    case _ =>
  }

  /**
   * Once `from_message` succeeds on a message, `validate` of it decides
   * (accepts or rejects); it cannot raise.
   */
  lemma ValidateDecidesDecodable(c: Scheme, message: string)
    requires FromMessage(message).Done?
    ensures !Validate(c, message).Aborted?
    ensures Validate(c, message).Valid? ==> Validate(c, message).tx == FromMessage(message).value
  {
    match Unwrap(message)
    case Done((j, text, body)) =>
      assert FromFields(j, body).Done?;
      CheckDecides(c, j, text, body, FromMessage(message));
  }

  /** With an integer `amount`, the checks reject or hand over the decoded transaction. */
  lemma CheckDecides(c: Scheme, j: seq<(string, Scalar)>, text: string, body: seq<(string, Scalar)>, rebuilt: Outcome<Tx>)
    requires Has(body, "amount") && Field(body, "amount").Int?
    requires rebuilt.Done?
    ensures var v := Check(c, j, text, body, rebuilt);
      !v.Aborted? && (v.Valid? ==> v.tx == rebuilt.value)
  {
  }

  /**
   * Every accepted transaction has a non-negative amount and a receiver
   * address that decodes.
   */
  lemma ValidAccepted(c: Scheme, message: string)
    requires Validate(c, message).Valid?
    ensures Validate(c, message).tx.amount >= 0
    ensures c.isAddress(Validate(c, message).tx.receiverAddress)
    ensures FromMessage(message) == Done(Validate(c, message).tx)
  {
  }

  /**
   * Round trip through validation: a transaction signed with the seed of its
   * source address, with a receiver address that decodes and a non-negative
   * amount, passes `validate` and comes back with every field intact, for
   * any sound signing library.
   */
  lemma ValidateSigned(c: Scheme, t: Tx, seed: string)
    requires Sound(c)
    requires t.sourceAddress == Str(c.addressOf(seed))
    requires t.signature == Str(c.sign(seed, BodyText(BodyOf(t))))
    requires c.isAddress(t.receiverAddress) && t.amount >= 0
    ensures Validate(c, ToJson(t)) == Valid(t)
  {
    ValidateOfWire(c, ToDict(t), BodyOf(t));
  }

  /** A transaction whose amount is negative never passes `validate`, whatever it carries. */
  lemma ValidateRejectsNegative(c: Scheme, t: Tx)
    requires t.amount < 0
    ensures Validate(c, ToJson(t)) == Invalid
  {
    ValidateOfWire(c, ToDict(t), BodyOf(t));
  }

  /** A `Transaction` object; `sourceSeed` is the seed its `source_kp` was derived from. */
  class Transaction {
    var id: Scalar
    var previousId: Scalar
    var sourceAddress: Scalar
    var receiverAddress: Scalar
    var amount: int
    var signature: Scalar
    var sourceSeed: Option<string>

    /**
     * `Transaction(previous_id, receiver_address, amount, id, source_secret_seed,
     * source_address, signature)`: `Null` stands for an omitted `id` or
     * `source_address`, and `freshId` for `uuid.uuid1().hex`. The sign of
     * `amount` is not checked. A seed overrides any given source address,
     * and the code asserts that a source address results.
     */
    constructor (c: Scheme, previousId: Scalar, receiverAddress: Scalar, amount: int, id: Scalar,
                 freshId: string, sourceSeed: Option<string>, sourceAddress: Scalar, signature: Scalar)
      requires sourceSeed.Some? || sourceAddress != Null
      ensures this.id == if id != Null then id else Str(freshId)
      ensures this.previousId == previousId && this.receiverAddress == receiverAddress
      ensures this.amount == amount && this.signature == signature && this.sourceSeed == sourceSeed
      ensures this.sourceAddress == if sourceSeed.Some? then Str(c.addressOf(sourceSeed.value)) else sourceAddress
      ensures this.sourceAddress != Null
    {
      this.id := if id != Null then id else Str(freshId);
      this.previousId := previousId;
      this.receiverAddress := receiverAddress;
      this.amount := amount;
      this.signature := signature;
      this.sourceAddress := if sourceSeed.Some? then Str(c.addressOf(sourceSeed.value)) else sourceAddress;
      this.sourceSeed := sourceSeed;
    }

    function View(): Tx
      reads this
    {
      Tx(id, previousId, sourceAddress, receiverAddress, amount, signature)
    }

    /**
     * `sign`: raises without a seed; otherwise signs the serialised body
     * with the seed, stores the signature and returns the wire envelope.
     * No other field changes.
     */
    method Sign(c: Scheme) returns (r: Outcome<string>)
      modifies this`signature
      ensures sourceSeed.None? ==> r == Raised && signature == old(signature)
      ensures sourceSeed.Some? ==> signature == Str(c.sign(sourceSeed.value, BodyText(BodyOf(old(View())))))
      ensures sourceSeed.Some? ==> r == Done(ToJson(View()))
      ensures BodyOf(View()) == BodyOf(old(View()))
    {
      if sourceSeed.None? {
        return Raised;
      }
      var text := BodyText(BodyOf(View()));
      signature := Str(c.sign(sourceSeed.value, text));
      r := Done(ToJson(View()));
    }
  }
}
