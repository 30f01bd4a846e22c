/** The tokenizer: `re.findall(r'\(|\)|AND|OR|[^()\s]+', rule)` written as a
    scanner that tries the alternatives in the regex's order at each
    position and skips a character none of them matches (whitespace). */
module Tokenizer {
  import opened Text

  predicate IsParen(c: char) {
    c == '(' || c == ')'
  }

  /** A character of the regex class `[^()\s]`. */
  predicate WordChar(c: char) {
    !IsSpace(c) && !IsParen(c)
  }

  /** A non-empty run of `[^()\s]`; `AND` and `OR` are words too. */
  predicate IsWord(w: string) {
    |w| > 0 && forall i | 0 <= i < |w| :: WordChar(w[i])
  }

  predicate StartsWithKeyword(s: string) {
    (|s| >= 3 && s[..3] == "AND") || (|s| >= 2 && s[..2] == "OR")
  }

  /** A string the tokenizer hands back as one token when it stands alone:
      a parenthesis, a keyword, or a word that does not begin with a keyword. */
  predicate Lexeme(w: string) {
    w == "(" || w == ")" || w == "AND" || w == "OR" || (IsWord(w) && !StartsWithKeyword(w))
  }

  /** A word whose first letter is neither `A` nor `O` cannot begin with a
      keyword, so it stands alone as a token. */
  lemma PlainWordIsLexeme(w: string)
    requires IsWord(w) && w[0] != 'A' && w[0] != 'O'
    ensures Lexeme(w)
  {
    if |w| >= 3 { assert w[..3][0] != "AND"[0]; }
    if |w| >= 2 { assert w[..2][0] != "OR"[0]; }
  }

  /** Length of the maximal `[^()\s]+` match at the start of `s`. */
  function WordEnd(s: string): (n: nat)
    ensures n <= |s|
    ensures forall i | 0 <= i < n :: WordChar(s[i])
    ensures n < |s| ==> !WordChar(s[n])
  {
    if |s| == 0 || !WordChar(s[0]) then 0 else 1 + WordEnd(s[1..])
  }

  /** Python's `tokenize(rule_string)`. Every token is a parenthesis or a
      word; `AND` and `OR` are split off wherever a match starts with them. */
  function Tokenize(s: string): (toks: seq<string>)
    ensures forall i | 0 <= i < |toks| :: toks[i] == "(" || toks[i] == ")" || IsWord(toks[i])
    decreases |s|
  {
    if |s| == 0 then []
    else if s[0] == '(' then ["("] + Tokenize(s[1..])
    else if s[0] == ')' then [")"] + Tokenize(s[1..])
    else if |s| >= 3 && s[..3] == "AND" then ["AND"] + Tokenize(s[3..])
    else if |s| >= 2 && s[..2] == "OR" then ["OR"] + Tokenize(s[2..])
    else if IsSpace(s[0]) then Tokenize(s[1..])
    else
      var n := WordEnd(s);
      [s[..n]] + Tokenize(s[n..])
  }

  /** No token carries whitespace, and none is empty. */
  lemma TokensAreFields(s: string)
    ensures forall i | 0 <= i < |Tokenize(s)| :: IsField(Tokenize(s)[i])
  {
    var toks := Tokenize(s);
    forall i | 0 <= i < |toks| ensures IsField(toks[i]) {
      if toks[i] == "(" || toks[i] == ")" {
        assert !IsSpace(toks[i][0]);
      }
    }
  }

  /** The tokens, read in order, are the input with its whitespace deleted:
      nothing but whitespace is dropped and nothing is reordered. */
  lemma {:induction false} TokenizeConcat(s: string)
    ensures Concat(Tokenize(s)) == RemoveSpaces(s)
    decreases |s|
  {
    if |s| == 0 {
    } else if s[0] == '(' || s[0] == ')' {
      TokenizeConcat(s[1..]);
      assert Tokenize(s) == [[s[0]]] + Tokenize(s[1..]);
      ConcatCons([s[0]], Tokenize(s[1..]));
    } else if |s| >= 3 && s[..3] == "AND" {
      assert Tokenize(s) == ["AND"] + Tokenize(s[3..]);
      TokenPrefix(s, 3);
    } else if |s| >= 2 && s[..2] == "OR" {
      assert Tokenize(s) == ["OR"] + Tokenize(s[2..]);
      TokenPrefix(s, 2);
    } else if IsSpace(s[0]) {
      TokenizeConcat(s[1..]);
    } else {
      var n := WordEnd(s);
      assert Tokenize(s) == [s[..n]] + Tokenize(s[n..]);
      TokenPrefix(s, n);
    }
  }

  /** One step of `TokenizeConcat`: a whitespace-free token taken off the
      front, then the rest. */
  lemma {:induction false} TokenPrefix(s: string, n: nat)
    requires 0 < n <= |s| && Spaceless(s[..n])
    requires Tokenize(s) == [s[..n]] + Tokenize(s[n..])
    ensures Concat(Tokenize(s)) == RemoveSpaces(s)
    decreases |s|, 0
  {
    TokenizeConcat(s[n..]);
    ConcatCons(s[..n], Tokenize(s[n..]));
    KeepsPrefix(s, n);
  }

  lemma ConcatCons(w: string, ws: seq<string>)
    ensures Concat([w] + ws) == w + Concat(ws)
  {
    assert ([w] + ws)[1..] == ws;
  }

  lemma KeepsPrefix(s: string, n: nat)
    requires n <= |s|
    requires Spaceless(s[..n])
    ensures RemoveSpaces(s) == s[..n] + RemoveSpaces(s[n..])
  {
    assert s == s[..n] + s[n..];
    RemoveSpacesAppend(s[..n], s[n..]);
    RemoveSpacesKeepsSpaceless(s[..n]);
  }

  /** Blank input, and only blank input, gives no tokens. */
  lemma TokenizeBlank(s: string)
    ensures Tokenize(s) == [] <==> forall i | 0 <= i < |s| :: IsSpace(s[i])
  {
    TokenizeConcat(s);
    RemoveSpacesEmpty(s);
    var toks := Tokenize(s);
    if toks != [] {
      TokensAreFields(s);
      assert Concat(toks) == toks[0] + Concat(toks[1..]);
    }
  }

  /** Keywords are split off as prefixes even inside longer words. */
  lemma KeywordPrefix(s: string)
    ensures Tokenize("AND" + s) == ["AND"] + Tokenize(s)
    ensures Tokenize("OR" + s) == ["OR"] + Tokenize(s)
  {
    assert ("AND" + s)[..3] == "AND" && ("AND" + s)[3..] == s;
    assert ("OR" + s)[..2] == "OR" && ("OR" + s)[2..] == s;
  }

  lemma OrderIsSplit()
    ensures Tokenize("ORDER") == ["OR", "DER"]
  {
    assert Tokenize("DER") == ["DER"] by {
      assert IsWord("DER");
      PlainWordIsLexeme("DER");
      LexemeThen("DER", []);
      assert "DER" + [] == "DER";
    }
    assert Tokenize("ORDER") == ["OR"] + Tokenize("DER") by {
      KeywordPrefix("DER");
      assert "ORDER" == "OR" + "DER";
    }
  }

  lemma {:induction false} WordEndOfWord(w: string, rest: string)
    requires IsWord(w)
    requires |rest| == 0 || !WordChar(rest[0])
    ensures WordEnd(w + rest) == |w|
    decreases |w|
  {
    assert (w + rest)[0] == w[0];
    if |w| == 1 {
      assert (w + rest)[1..] == rest;
    } else {
      assert (w + rest)[1..] == w[1..] + rest;
      WordEndOfWord(w[1..], rest);
    }
  }

  /** A lexeme followed by whitespace (or by nothing) is one token. */
  lemma LexemeThen(w: string, rest: string)
    requires Lexeme(w)
    requires |rest| == 0 || IsSpace(rest[0])
    ensures Tokenize(w + rest) == [w] + Tokenize(rest)
  {
    var s := w + rest;
    if w == "AND" || w == "OR" {
      KeywordPrefix(rest);
    } else if w == "(" || w == ")" {
      assert s[0] == w[0] && s[1..] == rest;
    } else {
      assert s[0] == w[0];
      if |s| >= 3 {
        if |w| >= 3 {
          assert s[..3] == w[..3];
        } else {
          assert IsSpace(s[..3][|w|]);
          assert !IsSpace("AND"[|w|]);
        }
      }
      if |s| >= 2 {
        if |w| >= 2 {
          assert s[..2] == w[..2];
        } else {
          assert IsSpace(s[..2][|w|]);
          assert !IsSpace("OR"[|w|]);
        }
      }
      WordEndOfWord(w, rest);
      assert s[..|w|] == w && s[|w|..] == rest;
    }
  }

  /** Tokenizing lexemes joined by single spaces gives the lexemes back. */
  lemma {:induction false} TokenizeUnwords(ws: seq<string>)
    requires forall i | 0 <= i < |ws| :: Lexeme(ws[i])
    ensures Tokenize(Unwords(ws)) == ws
    decreases |ws|
  {
    if |ws| == 1 {
      LexemeThen(ws[0], []);
      assert ws[0] + [] == ws[0];
    } else if |ws| > 1 {
      var tail := Unwords(ws[1..]);
      assert Unwords(ws) == ws[0] + (" " + tail);
      LexemeThen(ws[0], " " + tail);
      SkipSpace(tail);
      TokenizeUnwords(ws[1..]);
    }
  }

  lemma SkipSpace(s: string)
    ensures Tokenize(" " + s) == Tokenize(s)
  {
    var t := " " + s;
    assert t[0] == ' ' && IsSpace(t[0]);
    assert |t| >= 3 ==> t[..3][0] == ' ';
    assert |t| >= 2 ==> t[..2][0] == ' ';
    assert t[1..] == s;
  }
}
