/** `node_to_dict`: a tree as a nested record `{type, value, left, right}`
    for JSON transport, with `None` for an absent child or tree. */
module Serializer {
  import opened Results
  import opened Ast

  datatype Record = Record(kind: string, value: string, left: Option<Record>, right: Option<Record>)

  /** The record of one (present) node. */
  function ToRecord(n: Node): Record {
    match n
    case Condition(text) => Record("condition", text, None, None)
    case Operator(op, l, r) => Record("operator", op, Some(ToRecord(l)), Some(ToRecord(r)))
  }

  /** Python's `node_to_dict(node)`: `None` maps to `None`. */
  function NodeToDict(n: Option<Node>): (r: Option<Record>)
    ensures r.None? <==> n.None?
  {
    match n
    case None => None
    case Some(t) => Some(ToRecord(t))
  }

  /** Reads a record back into a tree; records no tree produces (an unknown
      kind, a leaf with children, an operator missing one) give `None`. */
  function FromRecord(r: Record): Option<Node>
    decreases r
  {
    if r.kind == "condition" && r.left.None? && r.right.None? then
      Some(Condition(r.value))
    else if r.kind == "operator" && r.left.Some? && r.right.Some? then
      match (FromRecord(r.left.value), FromRecord(r.right.value))
      case (Some(l), Some(rt)) => Some(Operator(r.value, l, rt))
      case _ => None
    else
      None
  }

  function RecordSize(r: Record): nat
    decreases r
  {
    1 + (if r.left.Some? then RecordSize(r.left.value) else 0)
      + (if r.right.Some? then RecordSize(r.right.value) else 0)
  }

  /** Serialising loses nothing: every tree is read back from its record. */
  lemma {:induction false} RecordRoundTrip(n: Node)
    ensures FromRecord(ToRecord(n)) == Some(n)
  {
    match n
    case Condition(_) =>
    case Operator(_, l, r) =>
      RecordRoundTrip(l);
      RecordRoundTrip(r);
  }

  /** The other direction: a record that reads back as a tree is exactly
      that tree's serialisation. */
  lemma {:induction false} RecordInverse(r: Record, n: Node)
    requires FromRecord(r) == Some(n)
    ensures ToRecord(n) == r
    decreases r
  {
    if r.kind == "operator" {
      RecordInverse(r.left.value, n.left);
      RecordInverse(r.right.value, n.right);
    }
  }

  /** The record has one entry per node, so shape and node count are kept. */
  lemma {:induction false} RecordSizeIsSize(n: Node)
    ensures RecordSize(ToRecord(n)) == Size(n)
  {
    match n
    case Condition(_) =>
    case Operator(_, l, r) =>
      RecordSizeIsSize(l);
      RecordSizeIsSize(r);
  }

  /** Serialising the tree read back from a serialisation gives the same
      record again: the encoding is stable under repetition. */
  lemma NodeToDictStable(n: Option<Node>)
    ensures n.Some? ==> NodeToDict(FromRecord(NodeToDict(n).value)) == NodeToDict(n)
  {
    if n.Some? {
      RecordRoundTrip(n.value);
    }
  }
}
