/**
 * Peers and the consensus slot (src/simple_fba/node.py): node identity,
 * the sibling registry the node keeps of its quorum, and the single ballot.
 */
module Nodes {
  import opened Wrappers
  import opened Json
  import opened Transactions

  /** A peer, named by whatever JSON value it announced (`None` when unknown). */
  datatype Node = Node(name: Scalar, endpoint: string) {

    /**
     * `Node.__eq__`. The code computes `endpoint.replace('//localhost:',
     * '//127.0.0.1:')` for both sides but discards the results, so the
     * comparison is of the endpoints exactly as given.
     */
    predicate Equals(other: Node) {
      var a := other.endpoint;
      var b := endpoint;
      a == b
    }
  }

  /** Nodes compare by endpoint alone, whatever their names. */
  lemma EqualsIsEndpointEquality(a: Node, b: Node)
    ensures a.Equals(b) <==> a.endpoint == b.endpoint
    ensures a.Equals(b) <==> b.Equals(a)
    ensures a.Equals(Node(b.name, a.endpoint))
  {
  }

  /** `localhost` and `127.0.0.1` are not recognised as the same host. */
  lemma LocalhostAliasesDiffer(n1: Scalar, n2: Scalar, port: string)
    ensures !Node(n1, "http://localhost:" + port).Equals(Node(n2, "http://127.0.0.1:" + port))
  {
    var a := "http://localhost:" + port;
    var b := "http://127.0.0.1:" + port;
    assert a[7] == 'l' && b[7] == '1';
  }

  // ---------------------------------------------------------------- registry

  /** The list without its first entry whose endpoint is `e` (unchanged when none has it). */
  function WithoutEndpoint(s: seq<Node>, e: string): seq<Node> {
    if s == [] then []
    else if s[0].endpoint == e then s[1..]
    else [s[0]] + WithoutEndpoint(s[1..], e)
  }

  /** The registry after `Siblings.add(node)`. */
  function Added(s: seq<Node>, node: Node): seq<Node> {
    WithoutEndpoint(s, node.endpoint) + [node]
  }

  predicate NoEndpoint(s: seq<Node>, e: string) {
    forall k :: 0 <= k < |s| ==> s[k].endpoint != e
  }

  /** With no entry at endpoint `e`, nothing is removed. */
  lemma {:induction false} WithoutAbsent(s: seq<Node>, e: string)
    requires NoEndpoint(s, e)
    ensures WithoutEndpoint(s, e) == s
  {
    if s != [] {
      assert NoEndpoint(s[1..], e) by {
        forall k | 0 <= k < |s[1..]| ensures s[1..][k].endpoint != e { assert s[1..][k] == s[k + 1]; }
      }
      WithoutAbsent(s[1..], e);
      assert [s[0]] + s[1..] == s;
    }
  }

  /**
   * When `i` is the first index at endpoint `e`, exactly that entry is
   * removed and the others keep their order.
   */
  lemma {:induction false} WithoutFirstAt(s: seq<Node>, e: string, i: nat)
    requires i < |s| && s[i].endpoint == e && NoEndpoint(s[..i], e)
    ensures WithoutEndpoint(s, e) == s[..i] + s[i + 1..]
  {
    if i > 0 {
      assert s[0] == s[..i][0];
      var t := s[1..][..i - 1];
      assert NoEndpoint(t, e) by {
        forall k | 0 <= k < |t| ensures t[k].endpoint != e {
          assert t[k] == s[..i][k + 1];
        }
      }
      WithoutFirstAt(s[1..], e, i - 1);
      assert s[..i] == [s[0]] + s[1..][..i - 1];
      assert s[i + 1..] == s[1..][i..];
    }
  }

  /** At most one entry goes: the list shrinks by one exactly when some entry has endpoint `e`. */
  lemma {:induction false} WithoutEndpointLength(s: seq<Node>, e: string)
    ensures |WithoutEndpoint(s, e)| == if NoEndpoint(s, e) then |s| else |s| - 1
    ensures NoEndpoint(s, e) <==> WithoutEndpoint(s, e) == s
  {
    if s != [] {
      WithoutEndpointLength(s[1..], e);
      if s[0].endpoint != e {
        assert NoEndpoint(s, e) <==> NoEndpoint(s[1..], e) by {
          if NoEndpoint(s[1..], e) {
            forall k | 0 <= k < |s| ensures s[k].endpoint != e { if k > 0 { assert s[k] == s[1..][k - 1]; } }
          }
          if NoEndpoint(s, e) {
            forall k | 0 <= k < |s[1..]| ensures s[1..][k].endpoint != e { assert s[1..][k] == s[k + 1]; }
          }
        }
        assert [s[0]] + s[1..] == s;
        if WithoutEndpoint(s, e) == s {
          assert WithoutEndpoint(s[1..], e) == s[1..];
        }
      } else {
        assert !NoEndpoint(s, e);
      }
    }
  }

  /** Every entry that stays was in the list before. */
  lemma {:induction false} WithoutEndpointSubset(s: seq<Node>, e: string)
    ensures forall x :: x in WithoutEndpoint(s, e) ==> x in s
  {
    if s != [] { WithoutEndpointSubset(s[1..], e); }
  }

  /** Free of endpoint duplicates. */
  predicate DistinctEndpoints(s: seq<Node>) {
    forall i, j :: 0 <= i < j < |s| ==> s[i].endpoint != s[j].endpoint
  }

  /** Removing the entry at endpoint `e` leaves no entry at `e` when endpoints were distinct. */
  lemma {:induction false} WithoutEndpointClears(s: seq<Node>, e: string)
    requires DistinctEndpoints(s)
    ensures DistinctEndpoints(WithoutEndpoint(s, e)) && NoEndpoint(WithoutEndpoint(s, e), e)
  {
    if s != [] {
      var t := s[1..];
      assert DistinctEndpoints(t) by {
        forall i, j | 0 <= i < j < |t| ensures t[i].endpoint != t[j].endpoint { assert t[i] == s[i + 1] && t[j] == s[j + 1]; }
      }
      WithoutEndpointClears(t, e);
      if s[0].endpoint == e {
        assert NoEndpoint(t, e) by {
          forall k | 0 <= k < |t| ensures t[k].endpoint != e { assert t[k] == s[k + 1]; }
        }
        WithoutAbsent(t, e);
      } else {
        var w := WithoutEndpoint(t, e);
        WithoutEndpointSubset(t, e);
        forall x | x in w ensures x.endpoint != s[0].endpoint {
          var k :| 0 <= k < |t| && t[k] == x;
          assert t[k] == s[k + 1];
        }
        var r := [s[0]] + w;
        forall i, j | 0 <= i < j < |r| ensures r[i].endpoint != r[j].endpoint {
          if i == 0 { assert r[j] == w[j - 1] && r[j] in w; } else { assert r[i] == w[i - 1] && r[j] == w[j - 1]; }
        }
        forall k | 0 <= k < |r| ensures r[k].endpoint != e { if k > 0 { assert r[k] == w[k - 1]; } }
      }
    }
  }

  /**
   * `add` always ends with the new node last, removes at most one entry
   * (the first at the same endpoint) and keeps the list free of endpoint
   * duplicates.
   */
  lemma AddedProperties(s: seq<Node>, node: Node)
    ensures |Added(s, node)| > 0 && Added(s, node)[|Added(s, node)| - 1] == node
    ensures |Added(s, node)| == if NoEndpoint(s, node.endpoint) then |s| + 1 else |s|
    ensures DistinctEndpoints(s) ==> DistinctEndpoints(Added(s, node))
  {
    WithoutEndpointLength(s, node.endpoint);
    if DistinctEndpoints(s) {
      WithoutEndpointClears(s, node.endpoint);
      var w := WithoutEndpoint(s, node.endpoint);
      var r := Added(s, node);
      forall i, j | 0 <= i < j < |r| ensures r[i].endpoint != r[j].endpoint {
        assert r[i] == w[i];
        if j < |w| { assert r[j] == w[j]; }
      }
    }
  }

  /** The entries `remove(name)` is documented to drop, in order. */
  function WithoutName(s: seq<Node>, name: Scalar): (r: seq<Node>) {
    if s == [] then []
    else WithoutName(s[..|s| - 1], name) + (if s[|s| - 1].name == name then [] else [s[|s| - 1]])
  }

  /** `WithoutName` keeps exactly the entries with another name. */
  lemma {:induction false} WithoutNameMembers(s: seq<Node>, name: Scalar)
    ensures forall x :: x in WithoutName(s, name) <==> x in s && x.name != name
  {
    if s != [] {
      var init := s[..|s| - 1];
      WithoutNameMembers(init, name);
      assert s == init + [s[|s| - 1]];
    }
  }

  /**
   * The loop of `Siblings.remove` as written: it walks the indices of a
   * snapshot and deletes index `i` of the current, shrinking list whenever
   * the snapshot's entry `i` has the name; a `del` past the end raises
   * `IndexError` (the second component is false) with the deletions so far
   * in place.
   */
  function RemoveSteps(snapshot: seq<Node>, current: seq<Node>, i: nat, name: Scalar): (seq<Node>, bool)
    decreases |snapshot| - i
  {
    if i >= |snapshot| then (current, true)
    else if snapshot[i].name == name then
      if i < |current| then RemoveSteps(snapshot, current[..i] + current[i + 1..], i + 1, name)
      else (current, false)
    else RemoveSteps(snapshot, current, i + 1, name)
  }

  predicate NoName(s: seq<Node>, name: Scalar, from: nat) {
    forall k :: from <= k < |s| ==> s[k].name != name
  }

  lemma {:induction false} RemoveStepsNoMatch(snapshot: seq<Node>, current: seq<Node>, i: nat, name: Scalar)
    requires NoName(snapshot, name, i)
    ensures RemoveSteps(snapshot, current, i, name) == (current, true)
    decreases |snapshot| - i
  {
    if i < |snapshot| { RemoveStepsNoMatch(snapshot, current, i + 1, name); }
  }

  lemma {:induction false} WithoutNameNone(s: seq<Node>, name: Scalar)
    requires NoName(s, name, 0)
    ensures WithoutName(s, name) == s
  {
    if s != [] {
      WithoutNameNone(s[..|s| - 1], name);
      assert s[..|s| - 1] + [s[|s| - 1]] == s;
    }
  }

  lemma {:induction false} WithoutNameOne(s: seq<Node>, name: Scalar, k: nat)
    requires k < |s| && s[k].name == name
    requires forall j :: 0 <= j < |s| && j != k ==> s[j].name != name
    ensures WithoutName(s, name) == s[..k] + s[k + 1..]
  {
    var init := s[..|s| - 1];
    if k == |s| - 1 {
      WithoutNameNone(init, name);
    } else {
      WithoutNameOne(init, name, k);
      assert init[..k] == s[..k];
      assert init[k + 1..] + [s[|s| - 1]] == s[k + 1..];
    }
  }

  /**
   * With no entry of that name, `remove` changes nothing; with exactly one,
   * it deletes that entry and keeps the others in order, which is what
   * `WithoutName` specifies.
   */
  lemma RemoveAtMostOne(s: seq<Node>, name: Scalar)
    requires forall i, j :: 0 <= i < j < |s| && s[i].name == name ==> s[j].name != name
    ensures RemoveSteps(s, s, 0, name) == (WithoutName(s, name), true)
  {
    if NoName(s, name, 0) {
      RemoveStepsNoMatch(s, s, 0, name);
      WithoutNameNone(s, name);
    } else {
      var k :| 0 <= k < |s| && s[k].name == name;
      RemoveStepsUpTo(s, s, 0, k, name);
      var cur := s[..k] + s[k + 1..];
      assert RemoveSteps(s, s, k, name) == RemoveSteps(s, cur, k + 1, name);
      RemoveStepsNoMatch(s, cur, k + 1, name);
      WithoutNameOne(s, name, k);
    }
  }

  lemma {:induction false} RemoveStepsUpTo(snapshot: seq<Node>, current: seq<Node>, i: nat, k: nat, name: Scalar)
    requires i <= k <= |snapshot|
    requires forall j :: i <= j < k ==> snapshot[j].name != name
    ensures RemoveSteps(snapshot, current, i, name) == RemoveSteps(snapshot, current, k, name)
    decreases k - i
  {
    if i < k { RemoveStepsUpTo(snapshot, current, i + 1, k, name); }
  }

  /**
   * With two matches ahead of another entry, the index-shifted `del`
   * removes the wrong entry: the second match survives and the other peer
   * is deleted.
   */
  lemma RemoveShiftsPastMatch(name: Scalar, other: Scalar, e1: string, e2: string, e3: string)
    requires name != other
    ensures var s := [Node(name, e1), Node(name, e2), Node(other, e3)];
      RemoveSteps(s, s, 0, name) == ([Node(name, e2)], true)
  {
    var s := [Node(name, e1), Node(name, e2), Node(other, e3)];
    assert s[..0] + s[1..] == [Node(name, e2), Node(other, e3)];
    var t := [Node(name, e2), Node(other, e3)];
    assert t[..1] + t[2..] == [Node(name, e2)];
    assert RemoveSteps(s, s, 0, name) == RemoveSteps(s, t, 1, name);
    assert RemoveSteps(s, t, 1, name) == RemoveSteps(s, [Node(name, e2)], 2, name);
    assert RemoveSteps(s, [Node(name, e2)], 2, name) == RemoveSteps(s, [Node(name, e2)], 3, name);
  }

  /** With two adjacent matches at the end, the second `del` is out of range. */
  lemma RemoveRunsOutOfRange(name: Scalar, e1: string, e2: string)
    ensures var s := [Node(name, e1), Node(name, e2)];
      RemoveSteps(s, s, 0, name) == ([Node(name, e2)], false)
  {
    var s := [Node(name, e1), Node(name, e2)];
    assert s[..0] + s[1..] == [Node(name, e2)];
  }

  /**
   * `False in filter(isinstance-Node, siblings)` as written: `in` compares
   * `False` with the first node, which falls back on `Node.__eq__(node,
   * False)`, and reading `False.endpoint` raises `AttributeError`. With no
   * node to compare the answer is `False`.
   */
  function FalseAmong(nodes: seq<Node>): Outcome<bool> {
    if nodes == [] then Done(false) else Raised
  }

  /**
   * `Siblings(*siblings)` as written: the assertion is only evaluated for a
   * non-empty argument list, and then raises; the list is kept otherwise.
   */
  function InitAsWritten(initial: seq<Node>): Outcome<seq<Node>> {
    if |initial| > 0 then
      match FalseAmong(initial)
      case Done(found) => if found then Raised else Done(initial)
      case _ => Raised
    else Done(initial)
  }

  /** Every non-empty argument list raises; only `Siblings()` succeeds, with no peers. */
  lemma InitRaisesOnAnyNode(initial: seq<Node>)
    ensures InitAsWritten(initial).Done? <==> initial == []
    ensures initial == [] ==> InitAsWritten(initial) == Done([])
  {
  }

  /**
   * The intended constructor: the assertion checks that every argument is a
   * `Node`, which the types guarantee, so the registry is the argument list.
   */
  function InitIntended(initial: seq<Node>): Outcome<seq<Node>>
  {
    Done(initial)
  }

  /** The two agree exactly on the call the program makes, `Siblings()`. */
  lemma InitAgreesOnNoArguments(initial: seq<Node>)
    ensures InitAsWritten(initial) == InitIntended(initial) <==> initial == []
  {
  }

  /** The node's view of its quorum: an ordered list of peers. */
  class Siblings {
    var siblings: seq<Node>

    /**
     * `Siblings(*siblings)` when it returns, which is on the argument lists
     * `InitAsWritten` lets through; the raising case is `InitAsWritten`.
     */
    constructor (initial: seq<Node>)
      requires InitAsWritten(initial).Done?
      ensures siblings == InitAsWritten(initial).value && siblings == initial == []
    {
      InitRaisesOnAnyNode(initial);
      siblings := initial;
    }

    /** `len(siblings)`. */
    function Len(): nat
      reads this
    {
      |siblings|
    }

    /** The shared loop of `add` and `replace`: delete the first entry at endpoint `e`. */
    method DeleteFirst(e: string)
      modifies this
      ensures siblings == WithoutEndpoint(old(siblings), e)
    {
      var snapshot := siblings;
      ghost var removed := false;
      var i := 0;
      while i < |snapshot|
        invariant 0 <= i <= |snapshot|
        invariant !removed ==> siblings == snapshot && NoEndpoint(snapshot[..i], e)
        invariant removed ==> siblings == WithoutEndpoint(snapshot, e)
        invariant snapshot == old(siblings)
      {
        if snapshot[i].endpoint == e {
          WithoutFirstAt(snapshot, e, i);
          siblings := siblings[..i] + siblings[i + 1..];
          removed := true;
          break;
        }
        assert snapshot[..i + 1] == snapshot[..i] + [snapshot[i]];
        i := i + 1;
      }
      if !removed {
        assert snapshot[..i] == snapshot;
        WithoutAbsent(snapshot, e);
      }
    }

    /**
     * `add`: drops the first entry equal to `node` (same endpoint), appends
     * `node`, and reports success.
     */
    method Add(node: Node) returns (ok: bool)
      modifies this
      ensures siblings == Added(old(siblings), node)
      ensures ok
    {
      DeleteFirst(node.endpoint);
      siblings := siblings + [node];
      ok := true;
    }

    /** `replace(a, b)`: drops the first entry at `a`'s endpoint, then adds `b`. */
    method Replace(a: Node, b: Node)
      modifies this
      ensures siblings == Added(WithoutEndpoint(old(siblings), a.endpoint), b)
    {
      DeleteFirst(a.endpoint);
      var _ := Add(b);
    }

    /**
     * `remove(name)` as written; `ok` is false when it raised `IndexError`.
     */
    method Remove(name: Scalar) returns (ok: bool)
      modifies this
      ensures (siblings, ok) == RemoveSteps(old(siblings), old(siblings), 0, name)
    {
      var snapshot := siblings;
      var i := 0;
      while i < |snapshot|
        invariant 0 <= i <= |snapshot|
        invariant RemoveSteps(snapshot, siblings, i, name) == RemoveSteps(snapshot, snapshot, 0, name)
        invariant snapshot == old(siblings)
      {
        if snapshot[i].name == name {
          if i >= |siblings| {
            return false;
          }
          siblings := siblings[..i] + siblings[i + 1..];
        }
        i := i + 1;
      }
      ok := true;
    }

    /** `remove(name)` as intended: every entry with that name goes, the others keep their order. */
    method RemoveAll(name: Scalar)
      modifies this
      ensures siblings == WithoutName(old(siblings), name)
    {
      var kept := [];
      var i := 0;
      while i < |siblings|
        invariant 0 <= i <= |siblings|
        invariant kept == WithoutName(siblings[..i], name)
      {
        assert siblings[..i + 1][..i] == siblings[..i];
        if siblings[i].name != name {
          kept := kept + [siblings[i]];
        }
        i := i + 1;
      }
      assert siblings[..i] == siblings;
      siblings := kept;
    }
  }

  // ---------------------------------------------------------------- ballot

  /** The keys of `Ballot.result`. */
  predicate IsVoteKind(k: string) {
    k == "agree" || k == "disagree" || k == "failed"
  }

  /**
   * The state of the ballot: the transaction it holds (none when closed)
   * and the three vote lists, which keep every vote in arrival order,
   * duplicates included.
   */
  datatype Slot = Slot(transaction: Option<Tx>, agree: seq<Scalar>, disagree: seq<Scalar>, failed: seq<Scalar>)

  /** A closed ballot never holds votes. */
  predicate SlotValid(s: Slot) {
    s.transaction.None? ==> s.agree == [] && s.disagree == [] && s.failed == []
  }

  /** What `__init__` and `close` leave. */
  function Closed(): Slot {
    Slot(None, [], [], [])
  }

  /** What `open(t)` leaves. */
  function Opened(t: Tx): Slot {
    Slot(Some(t), [], [], [])
  }

  /** What `set_result(k, v)` leaves. */
  function Voted(s: Slot, k: string, v: Scalar): Slot
    requires IsVoteKind(k)
  {
    if k == "agree" then s.(agree := s.agree + [v])
    else if k == "disagree" then s.(disagree := s.disagree + [v])
    else s.(failed := s.failed + [v])
  }

  /**
   * The ballot is closed exactly after `close` (and `__init__`), open with
   * `t` after `open(t)`, with no votes either way.
   */
  lemma OpenCloseStates(t: Tx)
    ensures Closed().transaction.None? && SlotValid(Closed())
    ensures Opened(t).transaction == Some(t) && SlotValid(Opened(t))
    ensures Opened(t).agree == Opened(t).disagree == Opened(t).failed == []
  {
  }

  /**
   * A vote of kind `k` lengthens that list by one, even when the voter has
   * voted before, and leaves the transaction and the other lists alone.
   */
  lemma VotedAppends(s: Slot, k: string, v: Scalar)
    requires IsVoteKind(k)
    ensures var r := Voted(s, k, v);
      && r.transaction == s.transaction
      && |r.agree| + |r.disagree| + |r.failed| == |s.agree| + |s.disagree| + |s.failed| + 1
      && (k == "agree" ==> r.agree[|r.agree| - 1] == v && r.agree[..|s.agree|] == s.agree)
      && (k != "agree" ==> r.agree == s.agree)
      && (k != "disagree" ==> r.disagree == s.disagree)
      && (k != "failed" ==> r.failed == s.failed)
  {
    var r := Voted(s, k, v);
    if k == "agree" { assert r.agree[..|s.agree|] == s.agree; }
  }

  /** `Ballot`: the node's one consensus slot. */
  class Ballot {
    var transaction: Option<Tx>
    var agree: seq<Scalar>
    var disagree: seq<Scalar>
    var failed: seq<Scalar>

    function State(): Slot
      reads this
    {
      Slot(transaction, agree, disagree, failed)
    }

    ghost predicate Valid()
      reads this
    {
      SlotValid(State())
    }

    constructor ()
      ensures State() == Closed()
    {
      transaction := None;
      agree, disagree, failed := [], [], [];
    }

    /** `is_closed`. */
    predicate IsClosed()
      reads this
    {
      transaction.None?
    }

    /** `close`. */
    method Close()
      modifies this
      ensures State() == Closed()
    {
      transaction := None;
      agree, disagree, failed := [], [], [];
    }

    /** `open(t)`. */
    method Open(t: Tx)
      modifies this
      ensures State() == Opened(t)
    {
      transaction := Some(t);
      agree, disagree, failed := [], [], [];
    }

    /**
     * `open_from_json(s)`, which asserts the ballot is closed: opens with
     * `from_message(s)`; when decoding raises, the ballot stays as it was
     * and the exception is the outcome.
     */
    method OpenFromJson(message: string) returns (r: Outcome<Tx>)
      requires IsClosed()
      modifies this
      ensures r == FromMessage(message)
      ensures State() == if r.Done? then Opened(r.value) else old(State())
    {
      r := FromMessage(message);
      if r.Done? {
        Open(r.value);
      }
    }

    /**
     * `set_result(k, v)`, which asserts an open ballot and a known kind:
     * appends `v` to list `k`.
     */
    method SetResult(k: string, v: Scalar)
      requires !IsClosed() && IsVoteKind(k)
      modifies this
      ensures State() == Voted(old(State()), k, v)
    {
      if k == "agree" {
        agree := agree + [v];
      } else if k == "disagree" {
        disagree := disagree + [v];
      } else {
        failed := failed + [v];
      }
    }
  }
}
