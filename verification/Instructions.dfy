/** The list of Procfile lines (fiveman_instruction.c), and chains of linked nodes. */
module Instructions {

  datatype Text = Null | Str(chars: string)

  /** One Procfile line. `calloc` leaves both texts and the link null. */
  class Instruction {
    var name: Text
    var exec: Text
    var next: Instruction?
    ghost var place: nat  // its index in the list

    constructor ()
      ensures name == Null && exec == Null && next == null
    {
      name, exec, next := Null, Null, null;
    }
  }

  /** What one node says. */
  datatype Line = Line(name: Text, exec: Text)

  function LineOf(node: Instruction): Line
    reads node`name, node`exec
  {
    Line(node.name, node.exec)
  }

  ghost function LinesOf(nodes: seq<Instruction>): (lines: seq<Line>)
    reads nodes
    ensures |lines| == |nodes|
  {
    seq(|nodes|, k requires 0 <= k < |nodes| reads nodes => LineOf(nodes[k]))
  }

  /** `nodes` is the list that starts at `head`, in order; no node occurs twice,
      since each knows its place, and the last link is null, so there is no cycle. */
  ghost predicate IsList(head: Instruction?, nodes: seq<Instruction>)
    reads nodes
  {
    && head == (if nodes == [] then null else nodes[0])
    && (forall k :: 0 <= k < |nodes| ==> nodes[k].place == k)
    && (forall k {:trigger nodes[k].next} :: 0 <= k < |nodes| ==>
          nodes[k].next == (if k + 1 < |nodes| then nodes[k + 1] else null))
  }

  /** Links a new node behind `prev`, the last one; the first node becomes the head. */
  method Append(head: Instruction?, prev: Instruction?, cur: Instruction, ghost nodes: seq<Instruction>)
    returns (newHead: Instruction?)
    requires IsList(head, nodes) && prev == (if nodes == [] then null else nodes[|nodes| - 1])
    requires cur.next == null && cur !in nodes
    modifies nodes`next, cur`place
    ensures IsList(newHead, nodes + [cur])
  {
    cur.place := |nodes|;
    if prev != null {
      prev.next := cur;
    }
    newHead := if head == null then cur else head;
  }
}
