/** The client's queue of commands. One class is both the queue and its nodes: a node uses
    `command` and `nextQueue`, the queue uses the other three fields. */
module CommandQueue {
  import opened Numbers

  class CommandQueue {
    var command: string
    var nextQueue: CommandQueue?
    var queueFront: CommandQueue?
    var queueRear: CommandQueue?
    var size: int
    var freed: bool
    ghost var nodes: seq<CommandQueue>

    constructor (command: string)
      ensures this.command == command && IsLeaf() && Valid()
      ensures nodes == [] && Contents() == []
    {
      this.command := command;
      nextQueue, queueFront, queueRear, size, freed, nodes := null, null, null, 0, false, [];
    }

    /** A node that is itself an empty queue, not yet destroyed. */
    ghost predicate IsLeaf()
      reads this
    {
      size == 0 && nodes == [] && !freed
    }

    /** Front, rear, size and links agree with `nodes`. An emptied queue may keep a stale
        front and rear, and the last node any successor: neither is followed. */
    ghost predicate Valid()
      reads this, nodes
    {
      && size == |nodes| && this !in nodes
      && (nodes != [] ==> queueFront == nodes[0] && queueRear == nodes[|nodes| - 1])
      && (forall i {:trigger nodes[i].nextQueue} :: 0 <= i < |nodes| - 1 ==> nodes[i].nextQueue == nodes[i + 1])
      && (forall i, j :: 0 <= i < j < |nodes| ==> nodes[i] != nodes[j])
      && (forall i :: 0 <= i < |nodes| ==> nodes[i].IsLeaf())
    }

    ghost function Contents(): seq<string>
      reads this, nodes
    {
      seq(|nodes|, i requires 0 <= i < |nodes| reads this, nodes => nodes[i].command)
    }

    predicate IsEmpty()
      reads this
    {
      size == 0
    }

    method Enqueue(newCommand: CommandQueue)
      requires Valid() && newCommand.IsLeaf() && newCommand != this && newCommand !in nodes
      modifies this`queueFront, this`queueRear, this`size, this`nodes, nodes`nextQueue
      ensures Valid() && nodes == old(nodes) + [newCommand]
      ensures Contents() == old(Contents()) + [newCommand.command]
    {
      if IsEmpty() {
        queueFront := newCommand;
        queueRear := newCommand;
      } else {
        queueRear.nextQueue := newCommand;
        queueRear := newCommand;
      }
      size := size + 1;
      nodes := nodes + [newCommand];
    }

    /** Frees the front node and nothing else; does nothing on an empty queue. */
    method Dequeue()
      requires Valid()
      modifies this`queueFront, this`size, this`nodes, nodes
      ensures Valid()
      ensures old(nodes) == [] ==> nodes == []
      ensures old(nodes) != [] ==> nodes == old(nodes)[1..] && old(nodes)[0].freed
      ensures Contents() == if old(nodes) == [] then [] else old(Contents())[1..]
      ensures freed == old(freed)
      decreases size, 0
    {
      if IsEmpty() {
        return;
      }
      var temp: CommandQueue := queueFront;
      queueFront := temp.nextQueue;
      nodes := nodes[1..];
      size := size - 1;
      temp.Destroy();
    }

    /** Writes the text of the first element, already queued. */
    method Announce(firstElem: CommandQueue, text: string)
      requires Valid() && nodes != [] && nodes[0] == firstElem
      modifies firstElem`command
      ensures Valid() && Contents() == old(Contents())[0 := text]
    {
      firstElem.command := text;
    }

    method Peek() returns (first: string)
      requires Valid()
      ensures first == if nodes == [] then "" else Contents()[0]
    {
      if IsEmpty() {
        return "";
      }
      first := queueFront.command;
    }

    /** `delete`: the destructor drains the queue, so every node is freed, each once. */
    method Destroy()
      requires Valid() && !freed
      modifies this`queueFront, this`size, this`nodes, this`freed, nodes
      ensures freed && nodes == []
      ensures forall n :: n in old(nodes) ==> n.freed
      decreases size, 1
    {
      ghost var all := nodes;
      ghost var i := 0;
      while !IsEmpty()
        invariant Valid() && !freed && 0 <= i <= |all| && nodes == all[i..]
        invariant forall k :: 0 <= k < i ==> all[k].freed
        invariant this !in all
        decreases |nodes|
      {
        Dequeue();
        i := i + 1;
      }
      freed := true;
    }
  }

  /** The announcement and one command per file. */
  function Announced(verb: string, paths: seq<string>): seq<string> {
    ["MultipleCommands?" + Decimal(|paths|)] + Each(verb, paths)
  }

  function Each(verb: string, paths: seq<string>): (cs: seq<string>)
    ensures |cs| == |paths| && forall k :: 0 <= k < |paths| ==> cs[k] == verb + "?" + paths[k]
  {
    if paths == [] then [] else [verb + "?" + paths[0]] + Each(verb, paths[1..])
  }

  lemma {:induction false} EachSnoc(verb: string, paths: seq<string>, p: string)
    ensures Each(verb, paths + [p]) == Each(verb, paths) + [verb + "?" + p]
  {
    if paths == [] {
      assert ([] + [p])[1..] == [];
    } else {
      assert (paths + [p])[1..] == paths[1..] + [p];
      EachSnoc(verb, paths[1..], p);
    }
  }

  /** What `add` and `edit` do for a directory: a blank first element, the files counted
      while they are queued, and the announcement written into the first element last. */
  method BuildQueue(verb: string, files: seq<string>) returns (q: CommandQueue)
    ensures fresh(q) && q.Valid() && fresh(q.nodes)
    ensures q.Contents() == Announced(verb, files)
    ensures |q.Contents()| == |files| + 1 && q.Contents()[0] == "MultipleCommands?" + Decimal(|files|)
    ensures forall k :: 0 <= k < |files| ==> q.Contents()[k + 1] == verb + "?" + files[k]
  {
    hide *;
    q := new CommandQueue("");
    var firstElem := new CommandQueue("");
    q.Enqueue(firstElem);
    NoneQueued(verb);
    assert files[..0] == [];
    assert [] + [""] == [""] + [];
    var count := 0;
    while count < |files|
      invariant 0 <= count <= |files|
      invariant fresh(q) && q.Valid() && fresh(q.nodes) && q.nodes != [] && q.nodes[0] == firstElem
      invariant q.Contents() == [""] + Each(verb, files[..count])
    {
      EachSnoc(verb, files[..count], files[count]);
      assert files[..count + 1] == files[..count] + [files[count]];
      var elem := new CommandQueue(verb + "?" + files[count]);
      q.Enqueue(elem);
      count := count + 1;
    }
    assert files[..count] == files;
    q.Announce(firstElem, "MultipleCommands?" + Decimal(count));
    AnnouncedIs(verb, files);
  }

  lemma {:induction false} NoneQueued(verb: string)
    ensures Each(verb, []) == []
  {
  }

  lemma {:induction false} AnnouncedIs(verb: string, files: seq<string>)
    ensures Announced(verb, files) == ([""] + Each(verb, files))[0 := "MultipleCommands?" + Decimal(|files|)]
    ensures |Announced(verb, files)| == |files| + 1
    ensures forall k :: 0 <= k < |files| ==> Announced(verb, files)[k + 1] == verb + "?" + files[k]
  {
  }
}
