/**
 * JSON text as the node exchanges it: a JSON document is either an object
 * (an ordered list of members, as the text lists them) or a bare scalar.
 *
 * `Serialize` stands for `json.dumps` and `Parse` for `json.loads`. The
 * concrete syntax is a JSON subset (no whitespace, integers only); what the
 * rest of the model relies on is the round trip `Parse(Serialize(j)) == Some(j)`,
 * which is proved here rather than assumed.
 */
module Json {
  import opened Wrappers

  /** A JSON value that can stand as an object member. */
  datatype Scalar = Null | Bool(b: bool) | Int(i: int) | Str(s: string)

  /** A JSON document: an object, or a bare scalar at top level. */
  datatype Json = Obj(members: seq<(string, Scalar)>) | Atom(value: Scalar)

  /** `key in d` for the dict `json.loads` builds from the members. */
  predicate Has(members: seq<(string, Scalar)>, key: string) {
    exists i :: 0 <= i < |members| && members[i].0 == key
  }

  /**
   * `d[key]` for the dict `json.loads` builds: when a key is repeated the
   * last member wins, as in Python.
   */
  function Get(members: seq<(string, Scalar)>, key: string): (r: Option<Scalar>)
    ensures r.Some? <==> Has(members, key)
    ensures r.Some? ==> exists i :: 0 <= i < |members| && members[i] == (key, r.value)
  {
    if members == [] then None
    else
      var last := members[|members| - 1];
      if last.0 == key then Some(last.1)
      else
        var r := Get(members[..|members| - 1], key);
        assert forall i :: 0 <= i < |members| - 1 ==> members[..|members| - 1][i] == members[i];
        r
  }

  /** A key that occurs in just one member reads back that member's value. */
  lemma {:induction false} GetUnique(members: seq<(string, Scalar)>, i: int)
    requires 0 <= i < |members|
    requires forall p :: 0 <= p < |members| && p != i ==> members[p].0 != members[i].0
    ensures Get(members, members[i].0) == Some(members[i].1)
  {
    var n := |members| - 1;
    if i < n {
      var init := members[..n];
      assert init[i] == members[i];
      forall p | 0 <= p < |init| && p != i
        ensures init[p].0 != init[i].0
      {
        assert init[p] == members[p];
      }
      GetUnique(init, i);
    }
  }

  // ---------------------------------------------------------------- digits

  predicate IsDigit(ch: char) { '0' <= ch <= '9' }

  predicate AllDigits(d: string) { forall i :: 0 <= i < |d| ==> IsDigit(d[i]) }

  function DigitChar(n: nat): (ch: char)
    requires n < 10
    ensures IsDigit(ch) && ch as int - '0' as int == n
  {
    (n + '0' as int) as char
  }

  /** Decimal digits of `n`, most significant first, without leading zeros. */
  function NatDigits(n: nat): (d: string)
    ensures |d| > 0 && AllDigits(d)
    ensures !LeadingZero(d)
  {
    if n < 10 then [DigitChar(n)] else NatDigits(n / 10) + [DigitChar(n % 10)]
  }

  /** A run of digits that JSON refuses as a number: a `0` followed by more digits. */
  predicate LeadingZero(d: string) { |d| > 1 && d[0] == '0' }

  /** The number a run of decimal digits denotes. */
  function DigitsValue(d: string): nat
    requires AllDigits(d)
  {
    if d == [] then 0
    else DigitsValue(d[..|d| - 1]) * 10 + (d[|d| - 1] as int - '0' as int)
  }

  lemma {:induction false} DigitsValueOfNatDigits(n: nat)
    ensures DigitsValue(NatDigits(n)) == n
  {
    if n >= 10 {
      var d := NatDigits(n);
      assert d[..|d| - 1] == NatDigits(n / 10);
      DigitsValueOfNatDigits(n / 10);
    }
  }

  /** Splits off the longest prefix of digits. */
  function SpanDigits(s: string): (r: (string, string))
    ensures AllDigits(r.0) && r.0 + r.1 == s
  {
    if s != [] && IsDigit(s[0]) then
      var (d, rest) := SpanDigits(s[1..]);
      ([s[0]] + d, rest)
    else ([], s)
  }

  lemma {:induction false} SpanDigitsOfRun(d: string, rest: string)
    requires AllDigits(d)
    requires rest == [] || !IsDigit(rest[0])
    ensures SpanDigits(d + rest) == (d, rest)
  {
    if d != [] {
      assert (d + rest)[0] == d[0] && IsDigit(d[0]);
      assert (d + rest)[1..] == d[1..] + rest;
      assert AllDigits(d[1..]) by {
        forall i | 0 <= i < |d[1..]| ensures IsDigit(d[1..][i]) { assert d[1..][i] == d[i + 1]; }
      }
      SpanDigitsOfRun(d[1..], rest);
      assert [d[0]] + d[1..] == d;
    } else {
      assert d + rest == rest;
    }
  }

  /** Python's `str(n)` for an integer, which is also its JSON text. */
  function IntText(n: int): (t: string)
    ensures |t| > 0
  {
    if n < 0 then "-" + NatDigits(-n) else NatDigits(n)
  }

  // ---------------------------------------------------------------- strings

  /** The characters of a string literal between its quotes. */
  function Escape(s: string): string {
    if s == [] then []
    else (if s[0] == '"' || s[0] == '\\' then ['\\', s[0]] else [s[0]]) + Escape(s[1..])
  }

  /**
   * Reads the rest of a string literal whose opening quote is consumed.
   * Only the `\"` and `\\` escapes are read; any other escape is refused.
   */
  function ParseStrBody(s: string): (r: Option<(string, string)>)
    ensures r.Some? ==> |r.value.1| < |s|
  {
    if s == [] then None
    else if s[0] == '"' then Some(([], s[1..]))
    else if s[0] == '\\' then
      if |s| < 2 || (s[1] != '"' && s[1] != '\\') then None
      else
        match ParseStrBody(s[2..])
        case None => None
        case Some((t, rest)) => Some(([s[1]] + t, rest))
    else
      match ParseStrBody(s[1..])
      case None => None
      case Some((t, rest)) => Some(([s[0]] + t, rest))
  }

  /** An escape other than `\"` and `\\` makes the literal unreadable. */
  lemma ParseStrBodyRefusesEscape(c: char, tail: string)
    requires c != '"' && c != '\\'
    ensures ParseStrBody(['\\', c] + tail) == None
  {
  }

  /** One escaped quote or backslash: the backslash is dropped and the next one kept. */
  lemma ParseStrBodyEscaped(c: char, tail: string)
    requires c == '"' || c == '\\'
    ensures ParseStrBody(['\\', c] + tail) ==
      (match ParseStrBody(tail) case None => None case Some((t, rest)) => Some(([c] + t, rest)))
  {
    assert (['\\', c] + tail)[2..] == tail;
  }

  /** One plain character is kept as it is. */
  lemma ParseStrBodyPlain(c: char, tail: string)
    requires c != '"' && c != '\\'
    ensures ParseStrBody([c] + tail) ==
      (match ParseStrBody(tail) case None => None case Some((t, rest)) => Some(([c] + t, rest)))
  {
    assert ([c] + tail)[1..] == tail;
  }

  lemma {:induction false} ParseStrBodyOfEscape(s: string, rest: string)
    ensures ParseStrBody(Escape(s) + ['"'] + rest) == Some((s, rest))
  {
    if s == [] {
      assert Escape(s) + ['"'] + rest == ['"'] + rest;
    } else {
      var tail := Escape(s[1..]) + ['"'] + rest;
      ParseStrBodyOfEscape(s[1..], rest);
      assert [s[0]] + s[1..] == s;
      if s[0] == '"' || s[0] == '\\' {
        assert Escape(s) + ['"'] + rest == ['\\', s[0]] + tail;
        ParseStrBodyEscaped(s[0], tail);
      } else {
        assert Escape(s) + ['"'] + rest == [s[0]] + tail;
        ParseStrBodyPlain(s[0], tail);
      }
    }
  }

  function StrText(s: string): string { ['"'] + Escape(s) + ['"'] }

  // ---------------------------------------------------------------- scalars

  function ScalarText(x: Scalar): (t: string)
    ensures |t| > 0
  {
    match x
    case Null => "null"
    case Bool(b) => if b then "true" else "false"
    case Int(n) => IntText(n)
    case Str(s) => StrText(s)
  }

  /**
   * Reads one scalar; the first character decides which kind it can be. A
   * number whose digits start with a `0` followed by another digit is refused.
   */
  function ParseScalar(s: string): (r: Option<(Scalar, string)>)
    ensures r.Some? ==> |r.value.1| < |s|
  {
    if s == [] then None
    else if s[0] == 'n' then (if |s| >= 4 && s[..4] == "null" then Some((Null, s[4..])) else None)
    else if s[0] == 't' then (if |s| >= 4 && s[..4] == "true" then Some((Bool(true), s[4..])) else None)
    else if s[0] == 'f' then (if |s| >= 5 && s[..5] == "false" then Some((Bool(false), s[5..])) else None)
    else if s[0] == '"' then
      match ParseStrBody(s[1..])
      case None => None
      case Some((t, rest)) => Some((Str(t), rest))
    else if s[0] == '-' then
      var (d, rest) := SpanDigits(s[1..]);
      if d == [] || LeadingZero(d) then None else Some((Int(0 - DigitsValue(d)), rest))
    else
      var (d, rest) := SpanDigits(s);
      if d == [] || LeadingZero(d) then None else Some((Int(DigitsValue(d)), rest))
  }

  /** A number written with a leading zero, such as `01` or `-007`, is refused. */
  lemma {:induction false} ParseScalarRefusesLeadingZero(sign: string, d: char, rest: string)
    requires sign == [] || sign == ['-']
    requires IsDigit(d)
    ensures ParseScalar(sign + ['0', d] + rest) == None
  {
    var s := sign + ['0', d] + rest;
    var digits := if sign == [] then s else s[1..];
    assert digits == ['0', d] + rest;
    assert digits[1..] == [d] + rest;
    assert ([d] + rest)[1..] == rest;
    assert SpanDigits([d] + rest).0 == [d] + SpanDigits(rest).0;
    assert SpanDigits(digits).0 == ['0'] + SpanDigits([d] + rest).0;
  }

  /** Whatever follows a scalar in a document cannot extend it. */
  predicate Delimited(rest: string) { rest == [] || !IsDigit(rest[0]) }

  lemma ParseNegativeText(n: nat, rest: string)
    requires n > 0 && Delimited(rest)
    ensures ParseScalar(['-'] + NatDigits(n) + rest) == Some((Int(-(n as int)), rest))
  {
    var d := NatDigits(n);
    var s := ['-'] + d + rest;
    assert s[0] == '-' && s[1..] == d + rest;
    SpanDigitsOfRun(d, rest);
    DigitsValueOfNatDigits(n);
  }

  lemma ParseNaturalText(n: nat, rest: string)
    requires Delimited(rest)
    ensures ParseScalar(NatDigits(n) + rest) == Some((Int(n), rest))
  {
    var d := NatDigits(n);
    var s := d + rest;
    SpanDigitsOfRun(d, rest);
    DigitsValueOfNatDigits(n);
    assert s[0] == d[0] && IsDigit(s[0]);
  }

  lemma ParseIntText(n: int, rest: string)
    requires Delimited(rest)
    ensures ParseScalar(IntText(n) + rest) == Some((Int(n), rest))
  {
    if n < 0 {
      ParseNegativeText(-n, rest);
    } else {
      ParseNaturalText(n, rest);
    }
  }

  lemma ParseStrText(t: string, rest: string)
    ensures ParseScalar(StrText(t) + rest) == Some((Str(t), rest))
  {
    var s := StrText(t) + rest;
    assert s == ['"'] + (Escape(t) + ['"'] + rest);
    assert s[0] == '"' && s[1..] == Escape(t) + ['"'] + rest;
    ParseStrBodyOfEscape(t, rest);
  }

  lemma ParseScalarOfText(x: Scalar, rest: string)
    requires Delimited(rest)
    ensures ParseScalar(ScalarText(x) + rest) == Some((x, rest))
  {
    var s := ScalarText(x) + rest;
    match x
    case Null => assert s[..4] == "null" && s[4..] == rest;
    case Bool(b) =>
      if b { assert s[..4] == "true" && s[4..] == rest; }
      else { assert s[..5] == "false" && s[..4] == "fals" && s[5..] == rest; }
    case Str(t) => ParseStrText(t, rest);
    case Int(n) => ParseIntText(n, rest);
  }

  // ---------------------------------------------------------------- objects

  function MemberText(m: (string, Scalar)): string {
    StrText(m.0) + ":" + ScalarText(m.1)
  }

  function MembersText(ms: seq<(string, Scalar)>): string {
    if ms == [] then ""
    else if |ms| == 1 then MemberText(ms[0])
    else MemberText(ms[0]) + "," + MembersText(ms[1..])
  }

  /** Reads one `"key":scalar` member. */
  function ParseMember(s: string): (r: Option<((string, Scalar), string)>)
    ensures r.Some? ==> |r.value.1| < |s|
  {
    if s == [] || s[0] != '"' then None
    else
      match ParseStrBody(s[1..])
      case None => None
      case Some((key, r1)) =>
        if r1 == [] || r1[0] != ':' then None
        else
          match ParseScalar(r1[1..])
          case None => None
          case Some((x, r2)) => Some(((key, x), r2))
  }

  /** A member is read as its key, then `:`, then its scalar. */
  lemma ParseMemberSteps(body: string, key: string, after: string, x: Scalar, tail: string)
    requires ParseStrBody(body) == Some((key, [':'] + after))
    requires ParseScalar(after) == Some((x, tail))
    ensures ParseMember(['"'] + body) == Some(((key, x), tail))
  {
    assert (['"'] + body)[1..] == body;
    assert ([':'] + after)[1..] == after;
  }

  lemma RegroupMember(k: string, v: string, tail: string)
    ensures ['"'] + k + ['"'] + [':'] + v + tail == ['"'] + (k + ['"'] + ([':'] + (v + tail)))
  {
  }

  lemma ParseMemberOfText(m: (string, Scalar), tail: string)
    requires Delimited(tail)
    ensures ParseMember(MemberText(m) + tail) == Some((m, tail))
  {
    var k, v := Escape(m.0), ScalarText(m.1);
    assert MemberText(m) == ['"'] + k + ['"'] + [':'] + v;
    RegroupMember(k, v, tail);
    ParseStrBodyOfEscape(m.0, [':'] + (v + tail));
    ParseScalarOfText(m.1, tail);
    ParseMemberSteps(k + ['"'] + ([':'] + (v + tail)), m.0, v + tail, m.1, tail);
  }

  /** Reads `member (',' member)* '}'`. */
  function ParseMembers(s: string): (r: Option<(seq<(string, Scalar)>, string)>)
    ensures r.Some? ==> |r.value.1| < |s|
    decreases |s|
  {
    match ParseMember(s)
    case None => None
    case Some((m, r2)) =>
      if r2 == [] then None
      else if r2[0] == '}' then Some(([m], r2[1..]))
      else if r2[0] == ',' then
        match ParseMembers(r2[1..])
        case None => None
        case Some((more, r3)) => Some(([m] + more, r3))
      else None
  }

  /** A member followed by `}` ends the object. */
  lemma ParseMembersClose(s: string, m: (string, Scalar), rest: string)
    requires ParseMember(s) == Some((m, ['}'] + rest))
    ensures ParseMembers(s) == Some(([m], rest))
  {
    assert (['}'] + rest)[1..] == rest;
  }

  /** A member followed by `,` is put in front of the members after it. */
  lemma ParseMembersComma(s: string, m: (string, Scalar), more: string, ms: seq<(string, Scalar)>, rest: string)
    requires ParseMember(s) == Some((m, [','] + more))
    requires ParseMembers(more) == Some((ms, rest))
    ensures ParseMembers(s) == Some(([m] + ms, rest))
  {
    assert ([','] + more)[1..] == more;
  }

  lemma ParseOneMemberText(m: (string, Scalar), rest: string)
    ensures ParseMembers(MembersText([m]) + ['}'] + rest) == Some(([m], rest))
  {
    var s := MembersText([m]) + ['}'] + rest;
    var tail := ['}'] + rest;
    assert s == MemberText(m) + tail;
    ParseMemberOfText(m, tail);
    ParseMembersClose(s, m, rest);
  }

  lemma ParseMoreMembersText(m: (string, Scalar), ms: seq<(string, Scalar)>, more: string, rest: string)
    requires ParseMembers(more) == Some((ms, rest))
    ensures ParseMembers(MemberText(m) + ([','] + more)) == Some(([m] + ms, rest))
  {
    ParseMemberOfText(m, [','] + more);
    ParseMembersComma(MemberText(m) + ([','] + more), m, more, ms, rest);
  }

  /** The text of two or more members, split after the first one. */
  lemma MoreMembersText(ms: seq<(string, Scalar)>, rest: string)
    requires |ms| > 1
    ensures MembersText(ms) + ['}'] + rest == MemberText(ms[0]) + ([','] + (MembersText(ms[1..]) + ['}'] + rest))
  {
    var a, b := MemberText(ms[0]), MembersText(ms[1..]);
    assert MembersText(ms) == a + [','] + b;
    Regroup(a, b, rest);
  }

  lemma Regroup(a: string, b: string, rest: string)
    ensures a + [','] + b + ['}'] + rest == a + ([','] + (b + ['}'] + rest))
  {
  }

  lemma {:induction false} ParseMembersOfText(ms: seq<(string, Scalar)>, rest: string)
    requires ms != []
    ensures ParseMembers(MembersText(ms) + ['}'] + rest) == Some((ms, rest))
  {
    if |ms| == 1 {
      ParseOneMemberText(ms[0], rest);
      assert [ms[0]] == ms;
    } else {
      ParseMembersOfText(ms[1..], rest);
      MoreMembersText(ms, rest);
      ParseMoreMembersText(ms[0], ms[1..], MembersText(ms[1..]) + ['}'] + rest, rest);
      assert [ms[0]] + ms[1..] == ms;
    }
  }

  // ---------------------------------------------------------------- documents

  /** `json.dumps`. */
  function Serialize(j: Json): (t: string)
    ensures |t| > 0
  {
    match j
    case Obj(ms) => "{" + MembersText(ms) + "}"
    case Atom(x) => ScalarText(x)
  }

  /** `json.loads`: `None` is the `ValueError` it raises on bad text. */
  function Parse(s: string): Option<Json> {
    if s != [] && s[0] == '{' then
      if |s| >= 2 && s[1] == '}' then (if |s| == 2 then Some(Obj([])) else None)
      else
        match ParseMembers(s[1..])
        case Some((ms, rest)) => if rest == [] then Some(Obj(ms)) else None
        case None => None
    else
      match ParseScalar(s)
      case Some((x, rest)) => if rest == [] then Some(Atom(x)) else None
      case None => None
  }

  /** An object that is not empty is read as its members up to the closing brace. */
  lemma ParseObjectSteps(body: string, ms: seq<(string, Scalar)>)
    requires body != [] && body[0] == '"'
    requires ParseMembers(body) == Some((ms, []))
    ensures Parse(['{'] + body) == Some(Obj(ms))
  {
    assert (['{'] + body)[1..] == body;
  }

  lemma ParseObjectText(ms: seq<(string, Scalar)>)
    requires ms != []
    ensures Parse(Serialize(Obj(ms))) == Some(Obj(ms))
  {
    var body := MembersText(ms) + ['}'] + [];
    assert Serialize(Obj(ms)) == ['{'] + body;
    assert MembersText(ms)[0] == MemberText(ms[0])[0] == '"';
    ParseMembersOfText(ms, []);
    ParseObjectSteps(body, ms);
  }

  /** Reading back what was written gives the same document. */
  lemma ParseSerialize(j: Json)
    ensures Parse(Serialize(j)) == Some(j)
  {
    match j
    case Obj(ms) =>
      if ms == [] {
        assert Serialize(j) == "{}";
      } else {
        ParseObjectText(ms);
      }
    case Atom(x) =>
      var s := Serialize(j);
      assert s == ScalarText(x) + [];
      ParseScalarOfText(x, []);
      assert s[0] != '{';
  }

  /** Python's `str()` of a scalar, as `'%s' % x` formats it into a key. */
  function PyStr(x: Scalar): string {
    match x
    case Null => "None"
    case Bool(b) => if b then "True" else "False"
    case Int(n) => IntText(n)
    case Str(s) => s
  }
}
