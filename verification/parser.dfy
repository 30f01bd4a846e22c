/** The recursive-descent parser. Python's version pops tokens off the front
    of a list; here the remaining list is `toks[pos..]`, and each function
    returns the tree it built together with the position after it. An
    `IndexError` from indexing or popping an exhausted list is
    `Failure(TokensExhausted)`. */
module Parser {
  import opened Results
  import opened Text
  import opened Tokenizer
  import opened Ast

  datatype ParseError = TokensExhausted

  datatype Parsed = Parsed(tree: Node, next: nat)

  predicate IsConnective(t: string) {
    t == "AND" || t == "OR"
  }

  predicate AllFields(toks: seq<string>) {
    forall i | 0 <= i < |toks| :: IsField(toks[i])
  }

  /** `parse_condition`: takes the next three tokens, whatever they are, as
      key, comparator and literal. */
  function ParseCondition(toks: seq<string>, pos: nat): (r: Result<Parsed, ParseError>)
    requires pos <= |toks|
    ensures r.Success? <==> pos + 3 <= |toks|
    ensures r.Success? ==> r.value.next == pos + 3 && r.value.tree.Condition?
    ensures r.Success? && AllFields(toks) ==> Split(r.value.tree.text) == toks[pos..pos + 3]
  {
    if pos + 3 <= |toks| then
      SplitCondText(toks[pos], toks[pos + 1], toks[pos + 2]);
      Success(Parsed(Condition(CondText(toks[pos], toks[pos + 1], toks[pos + 2])), pos + 3))
    else
      Failure(TokensExhausted)
  }

  /** `parse_term`: a parenthesised expression or a condition. The closing
      `)` is consumed only when it is the next token; when no token is left
      at that check, the lookup fails. */
  function ParseTerm(toks: seq<string>, pos: nat): (r: Result<Parsed, ParseError>)
    requires pos <= |toks|
    ensures r.Success? ==> pos < r.value.next <= |toks|
    ensures r.Success? && AllFields(toks) ==> WellFormed(r.value.tree)
    decreases |toks| - pos, 0
  {
    if pos == |toks| then
      Failure(TokensExhausted)
    else if toks[pos] == "(" then
      match ParseExpression(toks, pos + 1)
      case Failure(e) => Failure(e)
      case Success(None) => Failure(TokensExhausted)
      case Success(Some(inner)) =>
        if inner.next == |toks| then Failure(TokensExhausted)
        else if toks[inner.next] == ")" then Success(Parsed(inner.tree, inner.next + 1))
        else Success(inner)
    else
      ParseCondition(toks, pos)
  }

  /** The `while` loop of `parse_expression`: as long as the next token is
      `AND` or `OR`, consume it and a term and fold them into the running
      tree, strictly left to right. */
  function ParseTail(toks: seq<string>, pos: nat, acc: Node): (r: Result<Parsed, ParseError>)
    requires pos <= |toks|
    ensures r.Success? ==> pos <= r.value.next <= |toks|
    ensures r.Success? && r.value.next < |toks| ==> !IsConnective(toks[r.value.next])
    ensures r.Success? && AllFields(toks) && WellFormed(acc) ==> WellFormed(r.value.tree)
    decreases |toks| - pos, 1
  {
    if pos < |toks| && IsConnective(toks[pos]) then
      match ParseTerm(toks, pos + 1)
      case Failure(e) => Failure(e)
      case Success(term) => ParseTail(toks, term.next, Operator(toks[pos], acc, term.tree))
    else
      Success(Parsed(acc, pos))
  }

  /** `parse_expression`: no tree for an exhausted list, otherwise a term
      followed by the loop. It stops at the first token that is not a
      connective; whatever follows is left unread. */
  function ParseExpression(toks: seq<string>, pos: nat): (r: Result<Option<Parsed>, ParseError>)
    requires pos <= |toks|
    ensures r.Success? && r.value.None? <==> pos == |toks|
    ensures r.Success? && r.value.Some? ==> pos < r.value.value.next <= |toks|
    ensures r.Success? && r.value.Some? && r.value.value.next < |toks| ==>
              !IsConnective(toks[r.value.value.next])
    ensures r.Success? && r.value.Some? && AllFields(toks) ==> WellFormed(r.value.value.tree)
    decreases |toks| - pos, 2
  {
    if pos == |toks| then
      Success(None)
    else
      match ParseTerm(toks, pos)
      case Failure(e) => Failure(e)
      case Success(first) =>
        match ParseTail(toks, first.next, first.tree)
        case Failure(e) => Failure(e)
        case Success(p) => Success(Some(p))
  }

  /** `parse_expression` on a whole token list: the tree, or `None` when
      there are no tokens; unread trailing tokens are dropped. */
  function ParseTokens(toks: seq<string>): (r: Result<Option<Node>, ParseError>)
    ensures r == Success(None) <==> |toks| == 0
    ensures r.Success? && r.value.Some? && AllFields(toks) ==> WellFormed(r.value.value)
  {
    match ParseExpression(toks, 0)
    case Failure(e) => Failure(e)
    case Success(None) => Success(None)
    case Success(Some(p)) => Success(Some(p.tree))
  }

  /** `parse_rule_string`. Blank input, and only blank input, yields no tree;
      every tree it yields can be evaluated without an unpack error. */
  function ParseRuleString(s: string): (r: Result<Option<Node>, ParseError>)
    ensures r == Success(None) <==> forall i | 0 <= i < |s| :: IsSpace(s[i])
    ensures r.Success? && r.value.Some? ==> WellFormed(r.value.value)
  {
    TokenizeBlank(s);
    TokensAreFields(s);
    ParseTokens(Tokenize(s))
  }
}
