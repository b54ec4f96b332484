/**
 * The list of connected websocket clients: `clients.append` on connect,
 * `clients.remove` on disconnect, and the `for client in clients` loop that
 * sends each snapshot.
 */
module Registry {
  import opened Wrappers
  import opened Message

  /** A connected websocket. */
  type ClientId = nat

  /** One `send_text` that completed: which client, which message. */
  datatype Delivery = Delivery(client: ClientId, msg: Snapshot)

  /** The position of the first occurrence of c in s. */
  function FirstIndex(s: seq<ClientId>, c: ClientId): (i: nat)
    requires c in s
    ensures i < |s| && s[i] == c && c !in s[..i]
  {
    if s[0] == c then 0
    else
      var i := 1 + FirstIndex(s[1..], c);
      assert s[..i] == [s[0]] + s[1..][..i - 1];
      i
  }

  /**
   * `list.remove(c)`: drops the first occurrence of c and keeps every other
   * client in its order; a list without c is returned unchanged (Python
   * raises ValueError then).
   */
  function RemoveFirst(s: seq<ClientId>, c: ClientId): (r: seq<ClientId>)
    ensures c in s ==> r == s[..FirstIndex(s, c)] + s[FirstIndex(s, c) + 1..]
    ensures c !in s ==> r == s
  {
    if s == [] then []
    else if s[0] == c then s[1..]
    else
      var rest := RemoveFirst(s[1..], c);
      if c in s[1..] then
        var i := FirstIndex(s[1..], c);
        assert FirstIndex(s, c) == i + 1;
        assert s[..i + 1] == [s[0]] + s[1..][..i];
        assert s[i + 2..] == s[1..][i + 1..];
        [s[0]] + rest
      else
        assert s == [s[0]] + s[1..];
        [s[0]] + rest
  }

  /** Removing a present client takes exactly one copy of it out of the list. */
  lemma RemoveFirstCount(s: seq<ClientId>, c: ClientId)
    requires c in s
    ensures |RemoveFirst(s, c)| == |s| - 1
    ensures multiset(RemoveFirst(s, c)) == multiset(s) - multiset{c}
  {
    var i := FirstIndex(s, c);
    var before, after := s[..i], s[i + 1..];
    assert s == before + [c] + after;
    assert RemoveFirst(s, c) == before + after;
    assert multiset(s) == multiset(before) + multiset{c} + multiset(after);
    assert multiset(before + after) == multiset(before) + multiset(after);
  }

  /**
   * The clients a broadcast reaches: those before the first client whose
   * send fails. The three clauses determine the result.
   */
  function Reached(clients: seq<ClientId>, failing: set<ClientId>): (r: seq<ClientId>)
    ensures |r| <= |clients| && r == clients[..|r|]
    ensures forall c :: c in r ==> c !in failing
    ensures |r| < |clients| ==> clients[|r|] in failing
  {
    if clients == [] || clients[0] in failing then []
    else
      var rest := Reached(clients[1..], failing);
      assert clients[..1 + |rest|] == [clients[0]] + clients[1..][..|rest|];
      [clients[0]] + rest
  }

  /** The client whose failing send ended the broadcast, if any. */
  function FirstFailure(clients: seq<ClientId>, failing: set<ClientId>): (f: Option<ClientId>)
    ensures f.Some? ==> f.value in clients && f.value in failing
    ensures f.Some? ==> f.value == clients[|Reached(clients, failing)|]
    ensures f.None? <==> forall c :: c in clients ==> c !in failing
  {
    var r := Reached(clients, failing);
    if |r| < |clients| then Some(clients[|r|])
    else
      assert r == clients;
      None
  }

  /** The completed sends of one broadcast of msg, in list order. */
  function Deliveries(reached: seq<ClientId>, msg: Snapshot): (d: seq<Delivery>)
    ensures |d| == |reached|
    ensures forall k :: 0 <= k < |d| ==> d[k].client == reached[k] && d[k].msg == msg
  {
    seq(|reached|, k requires 0 <= k < |reached| => Delivery(reached[k], msg))
  }

  /**
   * `for client in clients: await client.send_text(msg)`: a send to a client
   * in failing raises, which ends the loop there. Returns the completed
   * sends and the client whose send raised.
   */
  method Broadcast(clients: seq<ClientId>, msg: Snapshot, failing: set<ClientId>)
    returns (sent: seq<Delivery>, failed: Option<ClientId>)
    ensures sent == Deliveries(Reached(clients, failing), msg)
    ensures failed == FirstFailure(clients, failing)
  {
    sent, failed := [], None;
    var i := 0;
    while i < |clients|
      invariant 0 <= i <= |clients|
      invariant forall k :: 0 <= k < i ==> clients[k] !in failing
      invariant |sent| == i
      invariant forall k :: 0 <= k < i ==> sent[k] == Delivery(clients[k], msg)
    {
      if clients[i] in failing {
        failed := Some(clients[i]);
        break;
      }
      sent := sent + [Delivery(clients[i], msg)];
      i := i + 1;
    }
    assert |Reached(clients, failing)| == i;
  }
}
