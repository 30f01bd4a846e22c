/** The rule tree. A Python `Node` has a `type` tag; here the tag is the
    constructor: a `condition` leaf holds the text "key op literal", an
    `operator` node holds its logical operator and two subtrees. */
module Ast {
  import opened Text

  datatype Node =
    | Condition(text: string)
    | Operator(op: string, left: Node, right: Node)

  /** The payload the parser stores in a condition leaf. */
  function CondText(key: string, cmp: string, lit: string): string {
    key + " " + cmp + " " + lit
  }

  /** The condition texts of a tree, left to right. */
  function Leaves(n: Node): seq<string> {
    match n
    case Condition(text) => [text]
    case Operator(_, l, r) => Leaves(l) + Leaves(r)
  }

  function OperatorCount(n: Node): nat {
    match n
    case Condition(_) => 0
    case Operator(_, l, r) => 1 + OperatorCount(l) + OperatorCount(r)
  }

  function Size(n: Node): nat {
    match n
    case Condition(_) => 1
    case Operator(_, l, r) => 1 + Size(l) + Size(r)
  }

  /** Every condition text splits into exactly three fields, so the
      evaluator's three-way unpack succeeds on every leaf. */
  predicate WellFormed(n: Node) {
    match n
    case Condition(text) => |Split(text)| == 3
    case Operator(_, l, r) => WellFormed(l) && WellFormed(r)
  }

  /** The evaluator's split of a condition text returns exactly the three
      tokens the parser joined, provided none of them holds whitespace. */
  lemma SplitCondText(key: string, cmp: string, lit: string)
    ensures IsField(key) && IsField(cmp) && IsField(lit) ==>
              Split(CondText(key, cmp, lit)) == [key, cmp, lit]
  {
    if IsField(key) && IsField(cmp) && IsField(lit) {
      assert Unwords([key, cmp, lit]) == CondText(key, cmp, lit) by {
        assert Unwords([key, cmp, lit][1..]) == cmp + " " + lit by {
          assert [key, cmp, lit][1..][1..] == [lit];
        }
      }
      SplitUnwords([key, cmp, lit]);
    }
  }
}
