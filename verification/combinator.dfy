/** `combine_nodes`: joins stored trees into one with a single operator, as a
    right-leaning chain `op(t0, op(t1, ... op(tn-2, tn-1)))`. The input trees
    become subtrees unchanged; nothing is copied or rebuilt. */
module Combinator {
  import opened Results
  import opened Ast

  /** `nodes[0]` on an empty list raises `IndexError`. */
  datatype CombineError = EmptyInput

  /** The leaves of all trees, tree after tree. */
  function LeavesOf(ts: seq<Node>): seq<string> {
    if |ts| == 0 then [] else Leaves(ts[0]) + LeavesOf(ts[1..])
  }

  /** The operator nodes of all trees together. */
  function OperatorsIn(ts: seq<Node>): nat {
    if |ts| == 0 then 0 else OperatorCount(ts[0]) + OperatorsIn(ts[1..])
  }

  /** Python's `combine_nodes(nodes, operator)`. The operator is not checked:
      an unknown one only shows when the tree is evaluated. */
  function Combine(ts: seq<Node>, op: string): (r: Result<Node, CombineError>)
    ensures r.Success? <==> |ts| > 0
    ensures |ts| == 1 ==> r == Success(ts[0])
    ensures r.Success? ==> Leaves(r.value) == LeavesOf(ts)
    ensures r.Success? ==> OperatorCount(r.value) == OperatorsIn(ts) + |ts| - 1
    decreases |ts|
  {
    if |ts| == 1 then Success(ts[0])
    else if |ts| == 0 then Failure(EmptyInput)
    else
      match Combine(ts[1..], op)
      case Failure(e) => Failure(e)
      case Success(rest) => Success(Operator(op, ts[0], rest))
  }

  /** One link of the chain: more than one tree is the first joined to the
      combination of the rest. */
  lemma CombineStep(ts: seq<Node>, op: string)
    requires |ts| > 1
    ensures Combine(ts, op) == Success(Operator(op, ts[0], Combine(ts[1..], op).value))
  {
  }

  /** Reads a right-leaning chain of `count` `op` nodes back into its
      operands: the left child at each step down the right spine, then the
      subtree the spine ends in. */
  function Unchain(t: Node, op: string, count: nat): Option<seq<Node>> {
    if count == 0 then Some([t])
    else
      match t
      case Condition(_) => None
      case Operator(o, l, r) =>
        if o != op then None
        else
          match Unchain(r, op, count - 1)
          case None => None
          case Some(rest) => Some([l] + rest)
  }

  /** Combining is undone by reading the chain back: the result is exactly
      `op(t0, op(t1, ...))` with every input tree in place and in order. */
  lemma {:induction false} UnchainCombine(ts: seq<Node>, op: string)
    requires |ts| > 0
    ensures Unchain(Combine(ts, op).value, op, |ts| - 1) == Some(ts)
    decreases |ts|
  {
    if |ts| > 1 {
      var rest := Combine(ts[1..], op).value;
      assert Combine(ts, op).value == Operator(op, ts[0], rest);
      UnchainCombine(ts[1..], op);
      assert Unchain(rest, op, |ts| - 2) == Some(ts[1..]);
      assert Unchain(Operator(op, ts[0], rest), op, |ts| - 1) == Some([ts[0]] + ts[1..]);
      assert [ts[0]] + ts[1..] == ts;
    } else {
      assert [ts[0]] == ts;
    }
  }

  /** Combining well-formed trees gives a well-formed tree, so a combined
      rule never fails to unpack a condition. */
  lemma {:induction false} CombineWellFormed(ts: seq<Node>, op: string)
    requires |ts| > 0 && forall i | 0 <= i < |ts| :: WellFormed(ts[i])
    ensures WellFormed(Combine(ts, op).value)
    decreases |ts|
  {
    if |ts| > 1 {
      CombineWellFormed(ts[1..], op);
    }
  }
}
