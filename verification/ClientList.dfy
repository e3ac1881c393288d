/** The server's list of clients: nodes linked in place, whose destructor frees the rest
    of the chain. Each call is one atomic step. */
module ClientList {

  class ClientInfo {
    var next: ClientInfo?
    var locked: bool
    var freed: bool

    constructor ()
      ensures next == null && !locked && !freed
    {
      next, locked, freed := null, false, false;
    }

    /** `delete`: the destructor deletes the successor first. Nothing is freed twice. */
    method Delete(ghost chain: seq<ClientInfo>)
      requires Linked(this, chain) && Distinct(chain)
      requires forall n :: n in chain ==> !n.freed
      modifies chain`freed
      ensures forall n :: n in chain ==> n.freed
      decreases |chain|
    {
      if next != null {
        assert chain[1..][0] == next;
        next.Delete(chain[1..]);
      }
      freed := true;
      assert forall n :: n in chain ==> n == this || n in chain[1..];
    }

    /** The end of `RemoveFromList`: clear the link, unlock, `delete`. Only this node goes. */
    method CutAndDelete()
      requires locked && !freed
      modifies this
      ensures next == null && !locked && freed
    {
      next := null;
      locked := false;
      Delete([this]);
    }
  }

  ghost predicate Distinct(nodes: seq<ClientInfo>) {
    forall i, j :: 0 <= i < j < |nodes| ==> nodes[i] != nodes[j]
  }

  /** Following `next` from `head` meets exactly `nodes`, in order, and ends. */
  ghost predicate Linked(head: ClientInfo?, nodes: seq<ClientInfo>)
    reads nodes
  {
    && head == (if nodes == [] then null else nodes[0])
    && forall i {:trigger nodes[i].next} :: 0 <= i < |nodes| ==>
         nodes[i].next == if i + 1 < |nodes| then nodes[i + 1] else null
  }

  // ----- What the operations mean on the sequence of linked nodes

  /** `AppendToListUnique`: the scan looks at every node but the first. */
  ghost function Appended(nodes: seq<ClientInfo>, x: ClientInfo): (seq<ClientInfo>, bool) {
    if nodes == [] then ([x], true)
    else if x in nodes[1..] then (nodes, false)
    else if x == nodes[0] then ([x], true)
    else (nodes + [x], true)
  }

  /** What its comment promises. */
  ghost function UniqueAppended(nodes: seq<ClientInfo>, x: ClientInfo): (seq<ClientInfo>, bool) {
    if x in nodes then (nodes, false) else (nodes + [x], true)
  }

  ghost function Removed(nodes: seq<ClientInfo>, x: ClientInfo): seq<ClientInfo> {
    if nodes == [] then []
    else if nodes[0] == x then nodes[1..]
    else [nodes[0]] + Removed(nodes[1..], x)
  }

  /** The append is the promised one exactly when the element is not the current head. */
  lemma AppendIsUnique(nodes: seq<ClientInfo>, x: ClientInfo)
    requires Distinct(nodes)
    ensures Appended(nodes, x) == UniqueAppended(nodes, x) <==> nodes == [] || x != nodes[0]
  {
    if nodes != [] {
      NotInTail(nodes);
      if x in nodes && x != nodes[0] {
        var k :| 0 <= k < |nodes| && nodes[k] == x;
        assert nodes[1..][k - 1] == x;
      }
      if x in nodes[1..] {
        var k :| 0 <= k < |nodes[1..]| && nodes[1..][k] == x;
        assert nodes[k + 1] == x;
      }
    } else {
      assert nodes + [x] == [x];
    }
  }

  lemma NotInTail(nodes: seq<ClientInfo>)
    requires Distinct(nodes) && nodes != []
    ensures nodes[0] !in nodes[1..] && Distinct(nodes[1..])
  {
    assert forall k :: 0 <= k < |nodes[1..]| ==> nodes[1..][k] == nodes[k + 1];
  }

  lemma {:induction false} RemovedSplit(nodes: seq<ClientInfo>, i: nat, x: ClientInfo)
    requires Distinct(nodes) && i < |nodes| && nodes[i] == x
    ensures Removed(nodes, x) == nodes[..i] + nodes[i + 1..]
  {
    if i > 0 {
      assert nodes[1..][i - 1] == x;
      RemovedSplit(nodes[1..], i - 1, x);
      assert nodes[..i] == [nodes[0]] + nodes[1..][..i - 1];
    }
  }

  lemma {:induction false} RemovedAbsent(nodes: seq<ClientInfo>, x: ClientInfo)
    requires x !in nodes
    ensures Removed(nodes, x) == nodes
  {
    if nodes != [] {
      RemovedAbsent(nodes[1..], x);
    }
  }

  class Server {
    var list: ClientInfo?
    ghost var nodes: seq<ClientInfo>

    ghost predicate Valid()
      reads this, nodes
    {
      Linked(list, nodes) && Distinct(nodes) && forall n :: n in nodes ==> !n.freed
    }

    constructor ()
      ensures Valid() && nodes == []
    {
      list, nodes := null, [];
    }

    method AppendToListUnique(x: ClientInfo) returns (ok: bool)
      requires Valid() && !x.freed
      modifies this, nodes`next, x`next
      ensures Valid()
      ensures (nodes, ok) == Appended(old(nodes), x)
    {
      if list == null {
        list := x;
        x.next := null;
        nodes := [x];
        return true;
      }
      var current: ClientInfo := list;
      ghost var i := 0;
      while current.next != null
        invariant 0 <= i < |nodes| && current == nodes[i]
        invariant x !in nodes[1..i + 1]
        decreases |nodes| - i
      {
        if current.next == x {
          assert nodes[1..][i] == x;
          return false;
        }
        assert nodes[1..i + 2] == nodes[1..i + 1] + [nodes[i + 1]];
        current := current.next;
        i := i + 1;
      }
      assert nodes[1..i + 1] == nodes[1..];
      current.next := x;
      x.next := null;
      nodes := if x == nodes[0] then [x] else nodes + [x];
      ok := true;
    }

    /** Unlinks exactly the requested node and frees it alone, its link having been cut. */
    method RemoveFromList(x: ClientInfo) returns (ok: bool)
      requires Valid()
      requires x in nodes ==> x.locked
      modifies this, nodes`next, x
      ensures Valid()
      ensures ok <==> x in old(nodes)
      ensures nodes == Removed(old(nodes), x)
      ensures x.freed <==> old(x.freed) || ok
      ensures ok ==> x !in nodes && !x.locked
    {
      var current, previous := list, null;
      if current == x {
        RemovedSplit(nodes, 0, x);
        assert x == nodes[0];
        list := current.next;
        nodes := nodes[1..];
        x.CutAndDelete();
        return true;
      }
      ghost var i := 0;
      while current != null
        invariant 0 <= i <= |nodes|
        invariant current == (if i < |nodes| then nodes[i] else null)
        invariant i > 0 ==> previous == nodes[i - 1]
        invariant x !in nodes[..i] && (nodes == [] || nodes[0] != x)
        decreases |nodes| - i
      {
        if current == x {
          RemovedSplit(nodes, i, x);
          assert i > 0 && x == nodes[i];
          previous.next := x.next;
          nodes := nodes[..i] + nodes[i + 1..];
          x.CutAndDelete();
          return true;
        }
        assert nodes[..i + 1] == nodes[..i] + [nodes[i]];
        previous := current;
        current := current.next;
        i := i + 1;
      }
      assert nodes[..i] == nodes;
      RemovedAbsent(nodes, x);
      ok := false;
    }

    /** `delete list` at shutdown frees every linked client, each once. */
    method Cleanup()
      requires Valid()
      modifies nodes`freed
      ensures forall n :: n in nodes ==> n.freed
    {
      if list != null {
        list.Delete(nodes);
      }
    }
  }

  // ----- Any sequence of calls

  datatype Call = Append(x: ClientInfo) | Remove(x: ClientInfo)

  ghost function After(calls: seq<Call>): seq<ClientInfo> {
    if calls == [] then []
    else
      var before := After(calls[..|calls| - 1]);
      match calls[|calls| - 1]
      case Append(x) => Appended(before, x).0
      case Remove(x) => Removed(before, x)
  }

  /** No client is appended while it is the head. */
  ghost predicate HeadSafe(calls: seq<Call>) {
    forall k :: 0 <= k < |calls| && calls[k].Append? ==>
      After(calls[..k]) == [] || calls[k].x != After(calls[..k])[0]
  }

  /** The last call about `x` was an append. */
  ghost predicate Present(calls: seq<Call>, x: ClientInfo) {
    exists k :: 0 <= k < |calls| && calls[k] == Append(x) && forall j :: k < j < |calls| ==> calls[j] != Remove(x)
  }

  lemma {:induction false} RemovedMembers(nodes: seq<ClientInfo>, x: ClientInfo)
    requires Distinct(nodes)
    ensures Distinct(Removed(nodes, x))
    ensures forall k :: 0 <= k < |Removed(nodes, x)| ==> Removed(nodes, x)[k] in nodes && Removed(nodes, x)[k] != x
    ensures forall k :: 0 <= k < |nodes| && nodes[k] != x ==> nodes[k] in Removed(nodes, x)
  {
    if nodes != [] {
      NotInTail(nodes);
      RemovedMembers(nodes[1..], x);
      assert nodes == [nodes[0]] + nodes[1..];
      if nodes[0] != x {
        var r := Removed(nodes[1..], x);
        assert forall i :: 0 <= i < |r| ==> r[i] in nodes[1..] && r[i] != nodes[0];
      }
    }
  }

  /** However appends and removes follow one another, the list holds no client twice; and
      as long as the head is not appended again, it holds exactly the clients whose last
      call was an append. */
  lemma {:induction false} RunKeepsClients(calls: seq<Call>, x: ClientInfo)
    ensures Distinct(After(calls))
    ensures HeadSafe(calls) ==> (x in After(calls) <==> Present(calls, x))
    decreases |calls|
  {
    if calls != [] {
      var n := |calls| - 1;
      var front, before := calls[..n], After(calls[..n]);
      RunKeepsClients(front, x);
      PresentStep(calls, x);
      RemovedMembers(before, calls[n].x);
      if HeadSafe(calls) {
        assert HeadSafe(front) by {
          assert forall k :: 0 <= k < n ==> front[k] == calls[k] && front[..k] == calls[..k];
        }
        if calls[n].Append? {
          AppendIsUnique(before, calls[n].x);
        }
      }
    }
  }

  lemma PresentStep(calls: seq<Call>, x: ClientInfo)
    requires calls != []
    ensures Present(calls, x) <==>
      calls[|calls| - 1] == Append(x) || (calls[|calls| - 1] != Remove(x) && Present(calls[..|calls| - 1], x))
  {
    var n := |calls| - 1;
    var front := calls[..n];
    if Present(calls, x) && calls[n] != Append(x) {
      var k :| 0 <= k < |calls| && calls[k] == Append(x) && forall j :: k < j < |calls| ==> calls[j] != Remove(x);
      assert front[k] == Append(x);
    }
    if calls[n] == Append(x) {
      assert Present(calls, x);
    }
    if calls[n] != Remove(x) && Present(front, x) {
      var k :| 0 <= k < |front| && front[k] == Append(x) && forall j :: k < j < |front| ==> front[j] != Remove(x);
      assert calls[k] == Append(x);
      assert forall j :: k < j < |calls| ==> calls[j] != Remove(x);
    }
  }
}
