/** The quoted-string matcher: `'...'` or `"..."`, no escapes. */
module StringTokenizer {
  import opened Wrappers
  import opened Tokens

  predicate IsQuote(c: char) {
    c == '"' || c == '\''
  }

  /** The first index at or after `from` holding `q`, if there is one. */
  function ClosingQuote(input: string, q: char, from: nat): (r: Option<nat>)
    decreases |input| - from
    ensures r.Some? ==> from <= r.value < |input| && input[r.value] == q
    ensures r.Some? ==> forall k :: from <= k < r.value ==> input[k] != q
    ensures r.None? ==> forall k :: from <= k < |input| ==> input[k] != q
  {
    if from >= |input| then None
    else if input[from] == q then Some(from)
    else ClosingQuote(input, q, from + 1)
  }

  /** What the string matcher answers at `current`: no match unless a quote
      stands there; otherwise the text up to the next quote of the same kind,
      or an "unterminated string" error when there is none. */
  function NextStringToken(input: string, current: nat): (r: MatchOutcome)
    ensures r.NoMatch? <==> !(current < |input| && IsQuote(input[current]))
    ensures r.Fail? ==> r.error == UnterminatedString
    ensures r.Matched? ==>
      var v := r.result.token.value;
      && r.result.token.kind == String
      && r.result.token.position == current
      && !r.result.skip
      && v.TextValue?
      && r.result.consumed == |v.text| + 2
      && current + |v.text| + 2 <= |input|
      && v.text == input[current + 1 .. current + 1 + |v.text|]
      && input[current + 1 + |v.text|] == input[current]
      && (forall k :: 0 <= k < |v.text| ==> v.text[k] != input[current])
  {
    if current < |input| && IsQuote(input[current]) then
      match ClosingQuote(input, input[current], current + 1)
      case None => Fail(UnterminatedString)
      case Some(j) =>
        Matched(TokenResult(j - current + 1, Token(String, TextValue(input[current + 1 .. j]), current), false))
    else NoMatch
  }

  /** The character at `i`, or `undefined` past the end. */
  function CharAt(input: string, i: nat): (r: Option<char>)
    ensures r.Some? <==> i < |input|
    ensures r.Some? ==> r.value == input[i]
  {
    if i < |input| then Some(input[i]) else None
  }

  /** The matcher as the source runs it: a loop that grows `value` one
      character at a time until it meets the opening quote again. */
  method NextToken(input: string, current: nat) returns (r: MatchOutcome)
    ensures r == NextStringToken(input, current)
  {
    var ch := CharAt(input, current);
    if ch == Some('"') || ch == Some('\'') {
      var open := ch.value;
      var value := "";
      var consumedChars := 1;
      ch := CharAt(input, current + consumedChars);
      while ch != Some(open)
        invariant 1 <= consumedChars && current + consumedChars <= |input|
        invariant ch == CharAt(input, current + consumedChars)
        invariant value == input[current + 1 .. current + consumedChars]
        invariant ClosingQuote(input, open, current + 1) == ClosingQuote(input, open, current + consumedChars)
        decreases |input| - (current + consumedChars)
      {
        if ch.None? {
          return Fail(UnterminatedString);
        }
        value := value + [ch.value];
        consumedChars := consumedChars + 1;
        ch := CharAt(input, current + consumedChars);
      }
      return Matched(TokenResult(consumedChars + 1, Token(String, TextValue(value), current), false));
    }
    return NoMatch;
  }

  /** Without the other quote, the closing quote of `q + s + q + ...` is the one right after `s`. */
  lemma {:induction false} ClosingQuoteAfter(input: string, q: char, from: nat, s: string)
    requires from + |s| < |input|
    requires input[from .. from + |s|] == s && input[from + |s|] == q
    requires forall k :: 0 <= k < |s| ==> s[k] != q
    ensures ClosingQuote(input, q, from) == Some(from + |s|)
    decreases |s|
  {
    if |s| > 0 {
      assert input[from] == s[0];
      assert input[from + 1 .. from + 1 + |s[1..]|] == s[1..];
      ClosingQuoteAfter(input, q, from + 1, s[1..]);
    }
  }

  /** Round trip: a quoted run without its own quote character is read back
      exactly, with every character (a backslash included) kept verbatim. */
  lemma RoundTrip(p: string, q: char, s: string, rest: string)
    requires IsQuote(q)
    requires forall k :: 0 <= k < |s| ==> s[k] != q
    ensures NextStringToken(p + [q] + s + [q] + rest, |p|)
         == Matched(TokenResult(|s| + 2, Token(String, TextValue(s), |p|), false))
  {
    var input := p + [q] + s + [q] + rest;
    assert input[|p|] == q;
    assert input[|p| + 1 .. |p| + 1 + |s|] == s;
    assert input[|p| + 1 + |s|] == q;
    ClosingQuoteAfter(input, q, |p| + 1, s);
  }

  /** An opening quote with no later quote of the same kind is an unterminated string. */
  lemma Unterminated(input: string, current: nat)
    requires current < |input| && IsQuote(input[current])
    ensures NextStringToken(input, current) == Fail(UnterminatedString)
        <==> forall k :: current < k < |input| ==> input[k] != input[current]
  {
    var r := ClosingQuote(input, input[current], current + 1);
    if r.Some? {
      assert input[r.value] == input[current];
    }
  }

  /** The other kind of quote may appear inside, and a backslash does not escape. */
  lemma NoEscapes()
    ensures NextStringToken("'a\"\\'", 0) == Matched(TokenResult(5, Token(String, TextValue("a\"\\"), 0), false))
  {
    RoundTrip("", '\'', "a\"\\", "");
    assert "" + ['\''] + "a\"\\" + ['\''] + "" == "'a\"\\'";
  }
}
