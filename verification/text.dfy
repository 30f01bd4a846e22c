/** The parts of Python's `str` behaviour the engine depends on: the
    whitespace class (shared by the regex class `\s`, argument-less
    `str.split()` and `float()`), `str.split()`, and `str.strip("'")`. */
module Text {

  /** Python's whitespace: the characters for which `str.isspace()` holds. */
  predicate IsSpace(c: char) {
    var n := c as int;
    || (0x09 <= n <= 0x0D)
    || (0x1C <= n <= 0x20)
    || n == 0x85 || n == 0xA0 || n == 0x1680
    || (0x2000 <= n <= 0x200A)
    || n == 0x2028 || n == 0x2029 || n == 0x202F || n == 0x205F || n == 0x3000
  }

  predicate Spaceless(w: string) {
    forall i | 0 <= i < |w| :: !IsSpace(w[i])
  }

  /** A non-empty run of non-whitespace characters: one field of `str.split()`. */
  predicate IsField(w: string) {
    |w| > 0 && Spaceless(w)
  }

  /** `''.join(ws)`. */
  function Concat(ws: seq<string>): string {
    if |ws| == 0 then [] else ws[0] + Concat(ws[1..])
  }

  /** `' '.join(ws)`. */
  function Unwords(ws: seq<string>): string {
    if |ws| == 0 then []
    else if |ws| == 1 then ws[0]
    else ws[0] + " " + Unwords(ws[1..])
  }

  /** `s` with every whitespace character deleted. */
  function RemoveSpaces(s: string): (r: string)
    ensures Spaceless(r)
    ensures |r| <= |s|
  {
    if |s| == 0 then []
    else if IsSpace(s[0]) then RemoveSpaces(s[1..])
    else [s[0]] + RemoveSpaces(s[1..])
  }

  lemma {:induction false} RemoveSpacesAppend(a: string, b: string)
    ensures RemoveSpaces(a + b) == RemoveSpaces(a) + RemoveSpaces(b)
    decreases |a|
  {
    if |a| > 0 {
      assert (a + b)[1..] == a[1..] + b;
      RemoveSpacesAppend(a[1..], b);
    } else {
      assert a + b == b;
    }
  }

  lemma {:induction false} RemoveSpacesKeepsSpaceless(w: string)
    requires Spaceless(w)
    ensures RemoveSpaces(w) == w
    decreases |w|
  {
    if |w| > 0 {
      RemoveSpacesKeepsSpaceless(w[1..]);
      assert w == [w[0]] + w[1..];
    }
  }

  /** Deleting whitespace leaves nothing exactly when the string is blank. */
  lemma {:induction false} RemoveSpacesEmpty(s: string)
    ensures RemoveSpaces(s) == [] <==> forall i | 0 <= i < |s| :: IsSpace(s[i])
    decreases |s|
  {
    if |s| > 0 {
      RemoveSpacesEmpty(s[1..]);
      if IsSpace(s[0]) {
        forall i | 0 <= i < |s| && (forall j | 0 <= j < |s[1..]| :: IsSpace(s[1..][j]))
          ensures IsSpace(s[i])
        {
          if i > 0 { assert s[i] == s[1..][i - 1]; }
        }
      }
    }
  }

  /** Length of the longest whitespace-free prefix of `s`. */
  function FieldEnd(s: string): (n: nat)
    ensures n <= |s|
    ensures forall i | 0 <= i < n :: !IsSpace(s[i])
    ensures n < |s| ==> IsSpace(s[n])
  {
    if |s| == 0 || IsSpace(s[0]) then 0 else 1 + FieldEnd(s[1..])
  }

  /** Python's `s.split()`: the maximal whitespace-free runs of `s`, in order. */
  function Split(s: string): (fields: seq<string>)
    ensures forall i | 0 <= i < |fields| :: IsField(fields[i])
    decreases |s|
  {
    if |s| == 0 then []
    else if IsSpace(s[0]) then Split(s[1..])
    else
      var n := FieldEnd(s);
      [s[..n]] + Split(s[n..])
  }

  /** Splitting loses exactly the whitespace: the fields, glued back
      together, are the input without its whitespace. */
  lemma {:induction false} SplitConcat(s: string)
    ensures Concat(Split(s)) == RemoveSpaces(s)
    decreases |s|
  {
    if |s| > 0 && !IsSpace(s[0]) {
      var n := FieldEnd(s);
      SplitConcat(s[n..]);
      assert Concat(Split(s)) == s[..n] + Concat(Split(s[n..]));
      assert s == s[..n] + s[n..];
      RemoveSpacesAppend(s[..n], s[n..]);
      RemoveSpacesKeepsSpaceless(s[..n]);
    } else if |s| > 0 {
      SplitConcat(s[1..]);
    }
  }

  lemma {:induction false} FieldEndOfField(w: string, rest: string)
    requires IsField(w)
    requires |rest| == 0 || IsSpace(rest[0])
    ensures FieldEnd(w + rest) == |w|
    decreases |w|
  {
    assert (w + rest)[0] == w[0];
    if |w| == 1 {
      assert (w + rest)[1..] == rest;
    } else {
      assert (w + rest)[1..] == w[1..] + rest;
      FieldEndOfField(w[1..], rest);
    }
  }

  lemma SplitFieldThen(w: string, rest: string)
    requires IsField(w)
    requires |rest| == 0 || IsSpace(rest[0])
    ensures Split(w + rest) == [w] + Split(rest)
  {
    FieldEndOfField(w, rest);
    assert (w + rest)[..|w|] == w;
    assert (w + rest)[|w|..] == rest;
  }

  /** `str.split()` undoes `' '.join` on fields: the inverse direction of
      `SplitConcat`. */
  lemma {:induction false} SplitUnwords(ws: seq<string>)
    requires forall i | 0 <= i < |ws| :: IsField(ws[i])
    ensures Split(Unwords(ws)) == ws
    decreases |ws|
  {
    if |ws| == 1 {
      SplitFieldThen(ws[0], []);
      assert ws[0] + [] == ws[0];
    } else if |ws| > 1 {
      var tail := Unwords(ws[1..]);
      assert Unwords(ws) == ws[0] + (" " + tail);
      SplitFieldThen(ws[0], " " + tail);
      assert (" " + tail)[1..] == tail;
      SplitUnwords(ws[1..]);
    }
  }

  const Quote: char := '\''

  /** Number of `'` characters at the start of `s`. */
  function LeadingQuotes(s: string): (n: nat)
    ensures n <= |s|
    ensures forall i | 0 <= i < n :: s[i] == Quote
    ensures n < |s| ==> s[n] != Quote
  {
    if |s| == 0 || s[0] != Quote then 0 else 1 + LeadingQuotes(s[1..])
  }

  /** Number of `'` characters at the end of `s`. */
  function TrailingQuotes(s: string): (n: nat)
    ensures n <= |s|
    ensures forall i | |s| - n <= i < |s| :: s[i] == Quote
    ensures n < |s| ==> s[|s| - 1 - n] != Quote
  {
    if |s| == 0 || s[|s| - 1] != Quote then 0 else 1 + TrailingQuotes(s[..|s| - 1])
  }

  /** The slice bounds `s.strip("'")` keeps: it drops every `'` at either end
      and nothing else, and what it keeps neither begins nor ends with `'`. */
  function StripBounds(s: string): (b: (nat, nat))
    ensures b.0 <= b.1 <= |s|
    ensures forall i | 0 <= i < b.0 :: s[i] == Quote
    ensures forall i | b.1 <= i < |s| :: s[i] == Quote
    ensures b.0 < b.1 ==> s[b.0] != Quote && s[b.1 - 1] != Quote
    ensures b.0 == b.1 <==> forall i | 0 <= i < |s| :: s[i] == Quote
  {
    var lo := LeadingQuotes(s);
    (lo, |s| - TrailingQuotes(s[lo..]))
  }

  /** Python's `s.strip("'")`. */
  function StripQuotes(s: string): string {
    var b := StripBounds(s);
    s[b.0..b.1]
  }

  /** A string with no quote at either end is left alone by the strip. */
  lemma StripQuotesUnquoted(s: string)
    requires |s| > 0 ==> s[0] != Quote && s[|s| - 1] != Quote
    ensures StripQuotes(s) == s
  {
  }

  /** One layer of quotes comes off a word that has none of its own at
      either end. */
  lemma StripQuotesQuoted(w: string)
    requires |w| > 0 ==> w[0] != Quote && w[|w| - 1] != Quote
    ensures StripQuotes([Quote] + w + [Quote]) == w
  {
    var s := [Quote] + w + [Quote];
    var b := StripBounds(s);
    if |w| > 0 {
      assert s[1] != Quote;
      assert s[|s| - 2] != Quote;
      assert s[b.0..b.1] == s[1..|s| - 1] == w;
    } else {
      assert b.0 == b.1;
    }
  }
}
