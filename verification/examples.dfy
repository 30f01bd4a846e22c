/** Whole-pipeline facts, from the rule string through the tokenizer and
    parser to the evaluator and the serializer. */
module RuleExamples {
  import opened Results
  import opened Text
  import opened Numbers
  import opened Tokenizer
  import opened Ast
  import opened Parser
  import opened ParserProperties
  import opened Evaluator
  import opened Serializer

  /** A single condition string `"K OP V"` parses to one leaf holding that
      very text and serialises as `{condition, "K OP V", None, None}`. */
  lemma SingleConditionRule(key: string, cmp: string, lit: string)
    requires Lexeme(key) && Lexeme(cmp) && Lexeme(lit) && key != "("
    ensures ParseRuleString(CondText(key, cmp, lit)) == Success(Some(Condition(CondText(key, cmp, lit))))
    ensures NodeToDict(Some(Condition(CondText(key, cmp, lit))))
            == Some(Record("condition", CondText(key, cmp, lit), None, None))
  {
    var toks := [key, cmp, lit];
    assert Unwords(toks) == CondText(key, cmp, lit) by {
      assert Unwords(toks[1..]) == cmp + " " + lit by {
        assert toks[1..][1..] == [lit];
      }
    }
    TokenizeUnwords(toks);
    FlatRuleFoldsLeft(Clause(key, cmp, lit), []);
    assert FlatTokens(Clause(key, cmp, lit), []) == toks;
  }

  // The worked example. Its lemmas take the string, the tree and the data
  // as parameters pinned by a `requires` (`s == AgeRule`) instead of naming
  // the constants in their conclusions: this keeps the verifier from
  // unfolding the literals everywhere, which makes the proofs far cheaper.
  // Each lemma still states its fact about exactly these values.

  const AgeRule := "age > 30 AND status = 'active'"

  const AgeTree := Operator("AND", Condition("age > 30"), Condition("status = 'active'"))

  const AgeWords: seq<string> := ["age", ">", "30", "AND", "status", "=", "'active'"]

  lemma AgeWordsAreLexemes(ws: seq<string>)
    requires ws == AgeWords
    ensures Tokenize(Unwords(ws)) == ws
  {
    PlainWordIsLexeme("age");
    PlainWordIsLexeme(">");
    PlainWordIsLexeme("30");
    PlainWordIsLexeme("status");
    PlainWordIsLexeme("=");
    assert IsWord("'active'");
    PlainWordIsLexeme("'active'");
    TokenizeUnwords(ws);
  }

  /** The rule text is its words joined by single spaces. */
  lemma AgeRuleText(s: string, ws: seq<string>)
    requires s == AgeRule && ws == AgeWords
    ensures Unwords(ws) == s
  {
  }

  lemma AgeRuleTokens(s: string)
    requires s == AgeRule
    ensures Tokenize(s) == AgeWords
  {
    var ws := AgeWords;
    AgeRuleText(s, ws);
    AgeWordsAreLexemes(ws);
  }

  const AgeFirst := Clause("age", ">", "30")

  const AgeSteps := [Step("AND", Clause("status", "=", "'active'"))]

  lemma AgeIsFlat()
    ensures FlatTokens(AgeFirst, AgeSteps) == AgeWords
  {
  }

  lemma AgeFold()
    ensures FoldLeft(Leaf(AgeFirst), AgeSteps) == AgeTree
  {
    assert CondText("age", ">", "30") == "age > 30";
    assert CondText("status", "=", "'active'") == "status = 'active'";
    var joined := Operator("AND", Leaf(AgeFirst), Leaf(AgeSteps[0].clause));
    assert FoldLeft(Leaf(AgeFirst), AgeSteps) == FoldLeft(joined, AgeSteps[1..]);
    assert AgeSteps[1..] == [];
  }

  lemma AgeTokensParse(ws: seq<string>)
    requires ws == AgeWords
    ensures ParseTokens(ws) == Success(Some(AgeTree))
  {
    AgeIsFlat();
    AgeFold();
    FlatRuleFoldsLeft(AgeFirst, AgeSteps);
  }

  /** The rule `age > 30 AND status = 'active'` parses to one `AND` node
      over its two conditions. */
  lemma AgeRuleParses(s: string)
    requires s == AgeRule
    ensures ParseRuleString(s) == Success(Some(AgeTree))
  {
    AgeRuleTokens(s);
    AgeTokensParse(Tokenize(s));
  }

  lemma AgeFields()
    ensures IsField("age") && IsField(">") && IsField("30") && IsField("status") && IsField("active")
    ensures DecimalText(30) == "30"
  {
    assert !IsSpace('>') && !IsSpace('3') && !IsSpace('0');
  }

  /** The two conditions of the rule, written with the model's own spelling
      of their parts. */
  lemma AgeTreeParts()
    ensures AgeTree == Operator("AND", Condition(CondText("age", ">", DecimalText(30))),
                                Condition(CondText("status", "=", [Quote] + "active" + [Quote])))
  {
    AgeFields();
    assert [Quote] + "active" + [Quote] == "'active'";
    assert CondText("age", ">", "30") == "age > 30";
    assert CondText("status", "=", "'active'") == "status = 'active'";
  }

  /** Its verdict is true for a record that matches both conditions. */
  lemma AgeRuleAccepts(t: Node, data: Data)
    requires t == AgeTree
    requires data == map["age" := IntValue(45), "status" := StrValue("active")]
    ensures Evaluate(t, data) == Success(Truth(true))
  {
    AgeFields();
    AgeTreeParts();
    NumericComparison("age", ">", 30, 45, data);
    QuotedEquality("status", "active", data);
    AndShortCircuits(t.left, t.right, data);
  }

  /** It is false for a record that fails the numeric condition. */
  lemma AgeRuleRejectsYoung(t: Node, data: Data)
    requires t == AgeTree
    requires data == map["age" := IntValue(20), "status" := StrValue("active")]
    ensures Evaluate(t, data) == Success(Truth(false))
  {
    AgeFields();
    AgeTreeParts();
    NumericComparison("age", ">", 30, 20, data);
    AndShortCircuits(t.left, t.right, data);
  }

  /** It is false, not an error, for a record without `age`. */
  lemma AgeRuleMissingKey(t: Node, data: Data)
    requires t == AgeTree
    requires data == map["status" := StrValue("active")]
    ensures Evaluate(t, data) == Success(Truth(false))
  {
    AgeFields();
    AgeTreeParts();
    AbsentKeyIsFalse("age", ">", "30", data);
    AndShortCircuits(t.left, t.right, data);
  }
}
