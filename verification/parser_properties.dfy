/** What the parser's grammar means: parsing reads only the tokens it
    consumes (plus one lookahead), conditions joined by `AND`/`OR` fold
    strictly left to right with no precedence, and a group that covers a
    leading part of a flat rule changes nothing. A group elsewhere does
    change the tree: it becomes one operand. */
module ParserProperties {
  import opened Results
  import opened Ast
  import opened Parser

  /** The token after an expression stops the `AND`/`OR` loop. */
  predicate ClosedBy(post: seq<string>) {
    |post| == 0 || !IsConnective(post[0])
  }

  function Shift(p: Parsed, k: nat): Parsed {
    Parsed(p.tree, p.next + k)
  }

  /** A term parses the same wherever its tokens sit: tokens before it and
      after it are never read. */
  lemma {:induction false} FrameTerm(pre: seq<string>, toks: seq<string>, post: seq<string>, pos: nat)
    requires pos <= |toks|
    requires ParseTerm(toks, pos).Success?
    ensures ParseTerm(pre + toks + post, |pre| + pos) == Success(Shift(ParseTerm(toks, pos).value, |pre|))
    decreases |toks| - pos, 0
  {
    var big := pre + toks + post;
    assert big[|pre| + pos] == toks[pos];
    if toks[pos] == "(" {
      FrameExpression(pre, toks, post, pos + 1);
      var q := ParseExpression(toks, pos + 1).value.value.next;
      assert big[|pre| + q] == toks[q];
    } else {
      assert big[|pre| + pos + 1] == toks[pos + 1];
      assert big[|pre| + pos + 2] == toks[pos + 2];
    }
  }

  /** The same for the `AND`/`OR` loop, as long as the token after it (if
      the loop ran to the end of `toks`) stops the loop. */
  lemma {:induction false} FrameTail(pre: seq<string>, toks: seq<string>, post: seq<string>, pos: nat, acc: Node)
    requires pos <= |toks|
    requires ParseTail(toks, pos, acc).Success?
    requires ParseTail(toks, pos, acc).value.next == |toks| ==> ClosedBy(post)
    ensures ParseTail(pre + toks + post, |pre| + pos, acc) == Success(Shift(ParseTail(toks, pos, acc).value, |pre|))
    decreases |toks| - pos, 2
  {
    var big := pre + toks + post;
    if pos < |toks| {
      assert big[|pre| + pos] == toks[pos];
      if IsConnective(toks[pos]) {
        FrameTailStep(pre, toks, post, pos, acc);
      }
    } else if |post| > 0 {
      assert big[|pre| + pos] == post[0];
    }
  }

  /** One round of the loop: the connective, its term, then the rest. */
  lemma {:induction false} FrameTailStep(pre: seq<string>, toks: seq<string>, post: seq<string>, pos: nat, acc: Node)
    requires pos < |toks| && IsConnective(toks[pos])
    requires ParseTail(toks, pos, acc).Success?
    requires ParseTail(toks, pos, acc).value.next == |toks| ==> ClosedBy(post)
    ensures ParseTail(pre + toks + post, |pre| + pos, acc) == Success(Shift(ParseTail(toks, pos, acc).value, |pre|))
    decreases |toks| - pos, 1
  {
    var big := pre + toks + post;
    assert big[|pre| + pos] == toks[pos];
    var term := ParseTerm(toks, pos + 1).value;
    var acc' := Operator(toks[pos], acc, term.tree);
    assert ParseTail(toks, pos, acc) == ParseTail(toks, term.next, acc');
    FrameTerm(pre, toks, post, pos + 1);
    FrameTail(pre, toks, post, term.next, acc');
  }

  lemma {:induction false} FrameExpression(pre: seq<string>, toks: seq<string>, post: seq<string>, pos: nat)
    requires pos <= |toks|
    requires ParseExpression(toks, pos).Success? && ParseExpression(toks, pos).value.Some?
    requires ParseExpression(toks, pos).value.value.next == |toks| ==> ClosedBy(post)
    ensures ParseExpression(pre + toks + post, |pre| + pos)
            == Success(Some(Shift(ParseExpression(toks, pos).value.value, |pre|)))
    decreases |toks| - pos, 3
  {
    var first := ParseTerm(toks, pos).value;
    FrameTerm(pre, toks, post, pos);
    FrameTail(pre, toks, post, first.next, first.tree);
  }

  lemma TreeOfParse(toks: seq<string>, p: Parsed)
    requires ParseExpression(toks, 0) == Success(Some(p))
    ensures ParseTokens(toks) == Success(Some(p.tree))
  {
  }

  lemma FrameSuffix(toks: seq<string>, extra: seq<string>, t: Node)
    requires ParseExpression(toks, 0) == Success(Some(Parsed(t, |toks|)))
    requires ClosedBy(extra)
    ensures ParseExpression(toks + extra, 0) == Success(Some(Parsed(t, |toks|)))
  {
    var empty: seq<string> := [];
    assert empty + toks == toks;
    var big := empty + toks + extra;
    assert ParseExpression(big, 0) == Success(Some(Parsed(t, |toks|))) by {
      FrameExpression(empty, toks, extra, 0);
    }
  }

  /** Tokens after a complete expression are silently ignored, provided the
      first of them is not a connective (a stray `)`, another condition...). */
  lemma TrailingTokensIgnored(toks: seq<string>, extra: seq<string>, t: Node)
    requires ParseExpression(toks, 0) == Success(Some(Parsed(t, |toks|)))
    requires ClosedBy(extra)
    ensures ParseTokens(toks + extra) == Success(Some(t))
  {
    FrameSuffix(toks, extra, t);
    TreeOfParse(toks + extra, Parsed(t, |toks|));
  }

  /** `(E)` parses to the same tree as `E`. */
  lemma ParenthesesAreTransparent(toks: seq<string>, t: Node)
    requires ParseExpression(toks, 0) == Success(Some(Parsed(t, |toks|)))
    ensures ParseTokens(["("] + toks + [")"]) == Success(Some(t))
    ensures ParseTokens(toks) == Success(Some(t))
  {
    var big := ["("] + toks + [")"];
    ParenthesisedExpression(toks, t);
    TreeOfParse(big, Parsed(t, |big|));
    TreeOfParse(toks, Parsed(t, |toks|));
  }

  /** The group branch of `parse_term`: after the inner expression, a `)`
      is consumed when it is the next token and left alone otherwise; with
      no token left, the lookup fails. */
  lemma GroupTerm(big: seq<string>, t: Node, k: nat)
    requires |big| > 0 && big[0] == "("
    requires ParseExpression(big, 1) == Success(Some(Parsed(t, k)))
    ensures k == |big| ==> ParseTerm(big, 0) == Failure(TokensExhausted)
    ensures k < |big| ==>
              ParseTerm(big, 0) == if big[k] == ")" then Success(Parsed(t, k + 1)) else Success(Parsed(t, k))
  {
  }

  /** A term followed by the end or by a non-connective is the whole
      expression. */
  lemma TermIsExpression(big: seq<string>, p: Parsed)
    requires ParseTerm(big, 0) == Success(p)
    requires p.next == |big| || !IsConnective(big[p.next])
    ensures ParseExpression(big, 0) == Success(Some(p))
  {
    assert ParseTail(big, p.next, p.tree) == Success(p);
  }

  /** After an opening parenthesis, a complete expression parses as it
      does alone, one position later. */
  lemma OpenGroup(toks: seq<string>, post: seq<string>, t: Node)
    requires ParseExpression(toks, 0) == Success(Some(Parsed(t, |toks|)))
    requires ClosedBy(post)
    ensures ParseExpression(["("] + toks + post, 1) == Success(Some(Parsed(t, |toks| + 1)))
  {
    var open: seq<string> := ["("];
    assert |open| == 1;
    FrameExpression(open, toks, post, 0);
  }

  /** `( E )` is one term with E's tree. */
  lemma GroupIsTerm(toks: seq<string>, t: Node)
    requires ParseExpression(toks, 0) == Success(Some(Parsed(t, |toks|)))
    ensures ParseTerm(["("] + toks + [")"], 0) == Success(Parsed(t, |toks| + 2))
  {
    OpenGroup(toks, [")"], t);
    GroupTerm(["("] + toks + [")"], t, |toks| + 1);
  }

  lemma ParenthesisedExpression(toks: seq<string>, t: Node)
    requires ParseExpression(toks, 0) == Success(Some(Parsed(t, |toks|)))
    ensures ParseExpression(["("] + toks + [")"], 0) == Success(Some(Parsed(t, |toks| + 2)))
  {
    GroupIsTerm(toks, t);
    TermIsExpression(["("] + toks + [")"], Parsed(t, |toks| + 2));
  }

  /** The closing parenthesis is optional when another token follows, but a
      list that ends right after the inner expression fails: the lookup of
      the next token finds nothing. */
  lemma UnclosedParenthesis(toks: seq<string>, extra: seq<string>, t: Node)
    requires ParseExpression(toks, 0) == Success(Some(Parsed(t, |toks|)))
    requires ClosedBy(extra)
    ensures |extra| == 0 ==> ParseTokens(["("] + toks + extra) == Failure(TokensExhausted)
    ensures |extra| > 0 && extra[0] != ")" ==> ParseTokens(["("] + toks + extra) == Success(Some(t))
  {
    var big := ["("] + toks + extra;
    OpenGroup(toks, extra, t);
    assert big[0] == "(";
    GroupTerm(big, t, |toks| + 1);
    if |extra| == 0 {
      assert ParseExpression(big, 0) == Failure(TokensExhausted);
    } else if extra[0] != ")" {
      assert big[|toks| + 1] == extra[0];
      TermIsExpression(big, Parsed(t, |toks| + 1));
    }
  }

  /** A condition needs three tokens; one or two fail. */
  lemma ShortConditionFails(toks: seq<string>)
    requires 1 <= |toks| <= 2
    requires toks[0] != "("
    ensures ParseTokens(toks) == Failure(TokensExhausted)
  {
    assert ParseCondition(toks, 0) == Failure(TokensExhausted);
    assert ParseTerm(toks, 0) == Failure(TokensExhausted);
    assert ParseExpression(toks, 0) == Failure(TokensExhausted);
  }

  // ---- Flat rules: conditions separated by connectives, no parentheses ----

  datatype Clause = Clause(key: string, cmp: string, lit: string)

  /** A connective followed by a clause. */
  datatype Step = Step(conn: string, clause: Clause)

  function ClauseTokens(c: Clause): seq<string> {
    [c.key, c.cmp, c.lit]
  }

  function Leaf(c: Clause): Node {
    Condition(CondText(c.key, c.cmp, c.lit))
  }

  /** A clause the parser reads as a condition rather than a group. */
  predicate PlainClause(c: Clause) {
    c.key != "("
  }

  predicate ValidSteps(steps: seq<Step>) {
    forall i | 0 <= i < |steps| :: IsConnective(steps[i].conn) && PlainClause(steps[i].clause)
  }

  function StepTokens(steps: seq<Step>): seq<string> {
    if |steps| == 0 then []
    else [steps[0].conn] + ClauseTokens(steps[0].clause) + StepTokens(steps[1..])
  }

  function FlatTokens(first: Clause, steps: seq<Step>): seq<string> {
    ClauseTokens(first) + StepTokens(steps)
  }

  /** Reference semantics for a flat rule: a left fold, each connective
      taking the tree so far as its left operand, whichever connective it is. */
  function FoldLeft(acc: Node, steps: seq<Step>): Node
    decreases |steps|
  {
    if |steps| == 0 then acc
    else FoldLeft(Operator(steps[0].conn, acc, Leaf(steps[0].clause)), steps[1..])
  }

  lemma {:induction false} FoldLeftSplit(acc: Node, steps: seq<Step>, k: nat)
    requires k <= |steps|
    ensures FoldLeft(FoldLeft(acc, steps[..k]), steps[k..]) == FoldLeft(acc, steps)
    decreases k
  {
    if k > 0 {
      var acc' := Operator(steps[0].conn, acc, Leaf(steps[0].clause));
      assert steps[..k][1..] == steps[1..][..k - 1];
      assert steps[k..] == steps[1..][k - 1..];
      FoldLeftSplit(acc', steps[1..], k - 1);
    }
  }

  /** A plain clause's three tokens make one condition term. */
  lemma ClauseAt(big: seq<string>, i: nat, c: Clause)
    requires PlainClause(c) && i + 3 <= |big|
    requires big[i] == c.key && big[i + 1] == c.cmp && big[i + 2] == c.lit
    ensures ParseTerm(big, i) == Success(Parsed(Leaf(c), i + 3))
  {
  }

  lemma {:induction false} FlatTail(pre: seq<string>, steps: seq<Step>, post: seq<string>, acc: Node)
    requires ValidSteps(steps) && ClosedBy(post)
    ensures ParseTail(pre + StepTokens(steps) + post, |pre|, acc)
            == Success(Parsed(FoldLeft(acc, steps), |pre| + |StepTokens(steps)|))
    decreases |steps|
  {
    var big := pre + StepTokens(steps) + post;
    if |steps| == 0 {
      assert big == pre + post;
      if |post| > 0 {
        assert big[|pre|] == post[0];
      }
    } else {
      var s := steps[0];
      var chunk := [s.conn] + ClauseTokens(s.clause);
      assert big == (pre + chunk) + StepTokens(steps[1..]) + post by {
        assert StepTokens(steps) == chunk + StepTokens(steps[1..]);
      }
      assert big[|pre|] == s.conn;
      ClauseAt(big, |pre| + 1, s.clause);
      FlatTail(pre + chunk, steps[1..], post, Operator(s.conn, acc, Leaf(s.clause)));
    }
  }

  lemma FlatExpression(first: Clause, steps: seq<Step>, post: seq<string>)
    requires PlainClause(first) && ValidSteps(steps) && ClosedBy(post)
    ensures ParseExpression(FlatTokens(first, steps) + post, 0)
            == Success(Some(Parsed(FoldLeft(Leaf(first), steps), |FlatTokens(first, steps)|)))
  {
    var big := FlatTokens(first, steps) + post;
    assert big == ClauseTokens(first) + StepTokens(steps) + post;
    assert big[0] == first.key && big[1] == first.cmp && big[2] == first.lit;
    assert ParseTerm(big, 0) == Success(Parsed(Leaf(first), 3));
    FlatTail(ClauseTokens(first), steps, post, Leaf(first));
  }

  /** A flat rule parses to the left fold of its clauses: `AND` and `OR`
      have no precedence over each other. */
  lemma FlatRuleFoldsLeft(first: Clause, steps: seq<Step>)
    requires PlainClause(first) && ValidSteps(steps)
    ensures ParseTokens(FlatTokens(first, steps)) == Success(Some(FoldLeft(Leaf(first), steps)))
  {
    FlatExpression(first, steps, []);
    assert FlatTokens(first, steps) + [] == FlatTokens(first, steps);
  }

  /** Parenthesising any leading part of a flat rule gives the very same
      tree as leaving it bare. Only a leading part: see `GroupIsOneOperand`. */
  lemma ParenthesisedPrefix(first: Clause, steps: seq<Step>, k: nat)
    requires PlainClause(first) && ValidSteps(steps) && k <= |steps|
    ensures ParseTokens(["("] + FlatTokens(first, steps[..k]) + [")"] + StepTokens(steps[k..]))
            == ParseTokens(FlatTokens(first, steps))
  {
    var inner := FlatTokens(first, steps[..k]);
    var group := ["("] + inner + [")"];
    var rest := StepTokens(steps[k..]);
    var big := group + rest;
    var folded := FoldLeft(Leaf(first), steps[..k]);
    assert ValidSteps(steps[..k]) && ValidSteps(steps[k..]);
    FlatExpression(first, steps[..k], []);
    assert inner + [] == inner;
    OpenGroup(inner, [")"] + rest, folded);
    assert big == ["("] + inner + ([")"] + rest);
    assert big[0] == "(" && big[|inner| + 1] == ")";
    GroupTerm(big, folded, |inner| + 1);
    FlatTail(group, steps[k..], [], folded);
    assert big + [] == big;
    FoldLeftSplit(Leaf(first), steps, k);
    FlatRuleFoldsLeft(first, steps);
  }

  /** `A AND B OR C` is `(A AND B) OR C`, and so is its parenthesised form. */
  lemma AndThenOrExample(a: Clause, b: Clause, c: Clause)
    requires PlainClause(a) && PlainClause(b) && PlainClause(c)
    ensures ParseTokens(ClauseTokens(a) + ["AND"] + ClauseTokens(b) + ["OR"] + ClauseTokens(c))
            == Success(Some(Operator("OR", Operator("AND", Leaf(a), Leaf(b)), Leaf(c))))
    ensures ParseTokens(["("] + ClauseTokens(a) + ["AND"] + ClauseTokens(b) + [")", "OR"] + ClauseTokens(c))
            == Success(Some(Operator("OR", Operator("AND", Leaf(a), Leaf(b)), Leaf(c))))
  {
    var steps := [Step("AND", b), Step("OR", c)];
    assert steps[1..][1..] == [];
    assert StepTokens(steps[1..]) == ["OR"] + ClauseTokens(c);
    assert FoldLeft(Leaf(a), steps) == Operator("OR", Operator("AND", Leaf(a), Leaf(b)), Leaf(c)) by {
      var ab := Operator("AND", Leaf(a), Leaf(b));
      assert FoldLeft(Leaf(a), steps) == FoldLeft(ab, steps[1..]);
      assert FoldLeft(ab, steps[1..]) == FoldLeft(Operator("OR", ab, Leaf(c)), steps[1..][1..]);
    }
    assert StepTokens(steps) == ["AND"] + ClauseTokens(b) + ["OR"] + ClauseTokens(c);
    FlatRuleFoldsLeft(a, steps);
    assert FlatTokens(a, steps) == ClauseTokens(a) + ["AND"] + ClauseTokens(b) + ["OR"] + ClauseTokens(c);
    ParenthesisedPrefix(a, steps, 1);
    assert steps[..1] == [Step("AND", b)] && steps[1..] == [Step("OR", c)];
    assert StepTokens(steps[..1]) == ["AND"] + ClauseTokens(b);
    assert ["("] + FlatTokens(a, steps[..1]) + [")"] + StepTokens(steps[1..])
        == ["("] + ClauseTokens(a) + ["AND"] + ClauseTokens(b) + [")", "OR"] + ClauseTokens(c);
  }

  /** A group that is not a leading part of the rule becomes one operand:
      `a AND ( b OR c )` is `AND(a, OR(b, c))`, while the same tokens
      without the parentheses fold to `OR(AND(a, b), c)`. */
  lemma GroupIsOneOperand(a: Clause, b: Clause, c: Clause)
    requires PlainClause(a) && PlainClause(b) && PlainClause(c)
    ensures ParseTokens(ClauseTokens(a) + ["AND", "("] + ClauseTokens(b) + ["OR"] + ClauseTokens(c) + [")"])
            == Success(Some(Operator("AND", Leaf(a), Operator("OR", Leaf(b), Leaf(c)))))
    ensures ParseTokens(ClauseTokens(a) + ["AND"] + ClauseTokens(b) + ["OR"] + ClauseTokens(c))
            != ParseTokens(ClauseTokens(a) + ["AND", "("] + ClauseTokens(b) + ["OR"] + ClauseTokens(c) + [")"])
  {
    var orTree := Operator("OR", Leaf(b), Leaf(c));
    var inner := ClauseTokens(b) + ["OR"] + ClauseTokens(c);
    var pre := ClauseTokens(a) + ["AND"];
    var group := ["("] + inner + [")"];
    var big := pre + group;
    assert ParseTerm(group, 0) == Success(Parsed(orTree, |group|)) by {
      InnerDisjunction(b, c);
      GroupIsTerm(inner, orTree);
    }
    assert ParseTerm(big, 4) == Success(Parsed(orTree, |big|)) by {
      var empty: seq<string> := [];
      assert pre + group + empty == big;
      FrameTerm(pre, group, empty, 0);
    }
    assert ParseTerm(big, 0) == Success(Parsed(Leaf(a), 3)) by {
      assert big[0] == a.key && big[1] == a.cmp && big[2] == a.lit;
    }
    var tree := Operator("AND", Leaf(a), orTree);
    assert ParseTokens(big) == Success(Some(tree)) by {
      assert big[3] == "AND";
      assert ParseTail(big, |big|, tree) == Success(Parsed(tree, |big|));
      assert ParseTail(big, 3, Leaf(a)) == Success(Parsed(tree, |big|));
    }
    GroupedTokens(ClauseTokens(a), ClauseTokens(b), ClauseTokens(c));
    AndThenOrExample(a, b, c);
  }

  /** `b OR c` on its own. */
  lemma InnerDisjunction(b: Clause, c: Clause)
    requires PlainClause(b) && PlainClause(c)
    ensures ParseExpression(ClauseTokens(b) + ["OR"] + ClauseTokens(c), 0)
            == Success(Some(Parsed(Operator("OR", Leaf(b), Leaf(c)), 7)))
  {
    var steps := [Step("OR", c)];
    assert steps[1..] == [];
    assert StepTokens(steps) == ["OR"] + ClauseTokens(c);
    assert FoldLeft(Leaf(b), steps) == Operator("OR", Leaf(b), Leaf(c));
    FlatExpression(b, steps, []);
    assert FlatTokens(b, steps) + [] == ClauseTokens(b) + ["OR"] + ClauseTokens(c);
  }

  lemma GroupedTokens(a: seq<string>, b: seq<string>, c: seq<string>)
    ensures (a + ["AND"]) + (["("] + (b + ["OR"] + c) + [")"])
            == a + ["AND", "("] + b + ["OR"] + c + [")"]
  {
  }
}
