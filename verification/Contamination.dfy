/** The boundary-aware token scan (evals/training/contamination.py): one alternation over every
    token guards a loop over the tokens. Patterns are matched by backtracking, modelled by the
    ends of all ways to match, in the order in which they are tried. */
module Contamination {

  /** The word characters of the pattern language. */
  type Words = char -> bool

  datatype Regex =
    | Empty
    | Only(c: char)
    | Then(first: Regex, second: Regex)
    | Or(left: Regex, right: Regex)
    | NotAfterWord
    | NotBeforeWord

  predicate WordBefore(word: Words, text: string, i: nat) {
    0 < i <= |text| && word(text[i - 1])
  }

  predicate WordAt(word: Words, text: string, i: nat) {
    i < |text| && word(text[i])
  }

  predicate Inside(positions: seq<nat>, text: string) {
    forall k :: 0 <= k < |positions| ==> positions[k] <= |text|
  }

  /** Where a match that starts at `i` can end, most preferred first. */
  function Ends(r: Regex, word: Words, text: string, i: nat): (ends: seq<nat>)
    requires i <= |text|
    ensures Inside(ends, text)
    decreases r, 0
  {
    match r
    case Empty => [i]
    case Only(c) => if i < |text| && text[i] == c then [i + 1] else []
    case Then(first, second) => Continue(second, word, text, Ends(first, word, text, i))
    case Or(left, right) => Ends(left, word, text, i) + Ends(right, word, text, i)
    case NotAfterWord => if WordBefore(word, text, i) then [] else [i]
    case NotBeforeWord => if WordAt(word, text, i) then [] else [i]
  }

  /** Match `r` after each of the ends so far: failing after one, go back to the next. */
  function Continue(r: Regex, word: Words, text: string, starts: seq<nat>): (ends: seq<nat>)
    requires Inside(starts, text)
    ensures Inside(ends, text)
    decreases r, |starts| + 1
  {
    if starts == [] then [] else Ends(r, word, text, starts[0]) + Continue(r, word, text, starts[1..])
  }

  /** `pattern.search(text)` finds something. */
  predicate Found(r: Regex, word: Words, text: string) {
    exists i :: 0 <= i <= |text| && Ends(r, word, text, i) != []
  }

  function Literal(token: string): Regex {
    if token == "" then Empty else Then(Only(token[0]), Literal(token[1..]))
  }

  /** `"|".join` of the escaped tokens; nothing to choose from matches the empty text. */
  function AnyOf(tokens: seq<string>): Regex {
    if tokens == [] then Empty
    else if |tokens| == 1 then Literal(tokens[0])
    else Or(Literal(tokens[0]), AnyOf(tokens[1..]))
  }

  function Bounded(r: Regex): Regex {
    Then(NotAfterWord, Then(r, NotBeforeWord))
  }

  // --- the code ------------------------------------------------------------------------------

  method Search(r: Regex, word: Words, text: string) returns (found: bool)
    ensures found == Found(r, word, text)
  {
    for i := 0 to |text| + 1
      invariant forall j :: 0 <= j < i ==> Ends(r, word, text, j) == []
    {
      if Ends(r, word, text, i) != [] { return true; }
    }
    return false;
  }

  /** `find_bank_tokens`: the guard is skipped over exactly when no token occurs, so the result is
      that of the plain search, in whatever order the tokens are listed. */
  method FindBankTokens(text: string, tokens: seq<string>, word: Words) returns (hits: set<string>)
    ensures hits == set t <- tokens | Occurs(word, text, t)
  {
    var guard := Search(Bounded(AnyOf(tokens)), word, text);
    GuardIsExact(word, text, tokens);
    hits := {};
    if !guard { return; }
    for k := 0 to |tokens|
      invariant hits == set t <- tokens[..k] | Occurs(word, text, t)
    {
      var hit := Search(Bounded(Literal(tokens[k])), word, text);
      TokenSearch(word, text, tokens[k]);
      assert tokens[..k + 1] == tokens[..k] + [tokens[k]];
      if hit {
        hits := hits + {tokens[k]};
      }
    }
    assert tokens[..|tokens|] == tokens;
  }

  // --- meaning ---------------------------------------------------------------------------------

  predicate OccursAt(word: Words, text: string, token: string, i: nat) {
    && i + |token| <= |text| && text[i..i + |token|] == token
    && !WordBefore(word, text, i) && !WordAt(word, text, i + |token|)
  }

  /** The token stands in the text with no word character next to it. */
  predicate Occurs(word: Words, text: string, token: string) {
    exists i :: 0 <= i <= |text| && OccursAt(word, text, token, i)
  }

  lemma {:induction false} ContinueMembers(r: Regex, word: Words, text: string, starts: seq<nat>, e: nat)
    requires Inside(starts, text)
    ensures e in Continue(r, word, text, starts) <==>
      exists k :: 0 <= k < |starts| && e in Ends(r, word, text, starts[k])
  {
    if starts != [] {
      ContinueMembers(r, word, text, starts[1..], e);
      if k :| 0 <= k < |starts| && e in Ends(r, word, text, starts[k]) {
        assert k > 0 ==> starts[k] == starts[1..][k - 1];
      }
      if k :| 0 <= k < |starts[1..]| && e in Ends(r, word, text, starts[1..][k]) {
        assert starts[k + 1] == starts[1..][k];
      }
    }
  }

  lemma ContinueOne(r: Regex, word: Words, text: string, i: nat)
    requires i <= |text|
    ensures Continue(r, word, text, [i]) == Ends(r, word, text, i)
  {
    assert [i][1..] == [];
    assert Continue(r, word, text, [i][1..]) == [];
  }

  lemma {:induction false} LiteralEnds(word: Words, text: string, token: string, i: nat)
    requires i <= |text|
    ensures Ends(Literal(token), word, text, i) ==
      if i + |token| <= |text| && text[i..i + |token|] == token then [i + |token|] else []
    decreases token
  {
    if token != "" {
      var first := Ends(Only(token[0]), word, text, i);
      if first != [] {
        LiteralEnds(word, text, token[1..], i + 1);
        ContinueOne(Literal(token[1..]), word, text, i + 1);
        if i + |token| <= |text| {
          assert text[i..i + |token|] == [text[i]] + text[i + 1..i + |token|];
          assert token == [token[0]] + token[1..];
        }
      } else if i + |token| <= |text| {
        assert text[i..i + |token|][0] == text[i];
      }
    }
  }

  /** Backtracking reaches every alternative that matches, wherever it stands in the list. */
  lemma {:induction false} AnyOfEnds(word: Words, text: string, tokens: seq<string>, i: nat)
    requires i <= |text| && tokens != []
    ensures forall e :: e in Ends(AnyOf(tokens), word, text, i) <==>
      exists t <- tokens :: i + |t| == e <= |text| && text[i..i + |t|] == t
  {
    LiteralEnds(word, text, tokens[0], i);
    assert tokens == [tokens[0]] + tokens[1..];
    if |tokens| > 1 {
      AnyOfEnds(word, text, tokens[1..], i);
    }
  }

  lemma BoundedEnds(r: Regex, word: Words, text: string, i: nat)
    requires i <= |text|
    ensures Ends(Bounded(r), word, text, i) != [] <==>
      !WordBefore(word, text, i) && exists e <- Ends(r, word, text, i) :: !WordAt(word, text, e)
  {
    if !WordBefore(word, text, i) {
      var inner := Ends(r, word, text, i);
      var ends := Continue(NotBeforeWord, word, text, inner);
      ContinueOne(Then(r, NotBeforeWord), word, text, i);
      if ends != [] {
        ContinueMembers(NotBeforeWord, word, text, inner, ends[0]);
        var k :| 0 <= k < |inner| && ends[0] in Ends(NotBeforeWord, word, text, inner[k]);
        assert inner[k] in inner && !WordAt(word, text, inner[k]);
      }
      if e :| e in inner && !WordAt(word, text, e) {
        var k :| 0 <= k < |inner| && inner[k] == e;
        assert e in Ends(NotBeforeWord, word, text, e);
        ContinueMembers(NotBeforeWord, word, text, inner, e);
      }
    }
  }

  /** The text is something, the token, and something, with no word character next to the token. */
  ghost predicate StandsAlone(word: Words, text: string, before: string, token: string, after: string) {
    && text == before + (token + after)
    && (before != "" ==> !word(before[|before| - 1])) && (after != "" ==> !word(after[0]))
  }

  lemma OccursMeans(word: Words, text: string, token: string)
    ensures Occurs(word, text, token) <==> exists before, after :: StandsAlone(word, text, before, token, after)
  {
    if i :| 0 <= i <= |text| && OccursAt(word, text, token, i) {
      var before, after := text[..i], text[i + |token|..];
      assert text == before + (text[i..i + |token|] + after);
      assert StandsAlone(word, text, before, token, after);
    }
    if before, after :| StandsAlone(word, text, before, token, after) {
      assert text[|before|..|before| + |token|] == token;
      assert before != "" ==> text[|before| - 1] == before[|before| - 1];
      assert after != "" ==> text[|before| + |token|] == after[0];
      assert OccursAt(word, text, token, |before|);
    }
  }

  lemma TokenSearch(word: Words, text: string, token: string)
    ensures Found(Bounded(Literal(token)), word, text) <==> Occurs(word, text, token)
  {
    forall i | 0 <= i <= |text|
      ensures Ends(Bounded(Literal(token)), word, text, i) != [] <==> OccursAt(word, text, token, i)
    {
      BoundedEnds(Literal(token), word, text, i);
      LiteralEnds(word, text, token, i);
    }
  }

  /** The single alternation finds something exactly when some token occurs on its own. */
  lemma GuardIsExact(word: Words, text: string, tokens: seq<string>)
    ensures tokens != [] ==> (Found(Bounded(AnyOf(tokens)), word, text) <==> exists t <- tokens ::
      Occurs(word, text, t))
  {
    if tokens != [] {
      if i :| 0 <= i <= |text| && Ends(Bounded(AnyOf(tokens)), word, text, i) != [] {
        GuardAt(word, text, tokens, i);
        var t :| t in tokens && OccursAt(word, text, t, i);
        assert Occurs(word, text, t);
      }
      if t :| t in tokens && Occurs(word, text, t) {
        var i :| 0 <= i <= |text| && OccursAt(word, text, t, i);
        GuardAt(word, text, tokens, i);
      }
    }
  }

  lemma GuardAt(word: Words, text: string, tokens: seq<string>, i: nat)
    requires i <= |text| && tokens != []
    ensures Ends(Bounded(AnyOf(tokens)), word, text, i) != [] <==> exists t <- tokens :: OccursAt(word, text, t, i)
  {
    var ends := Ends(AnyOf(tokens), word, text, i);
    AnyOfEnds(word, text, tokens, i);
    BoundedEnds(AnyOf(tokens), word, text, i);
    if e :| !WordBefore(word, text, i) && e in ends && !WordAt(word, text, e) {
      EndOccurs(word, text, tokens, i, e);
    }
    if t :| t in tokens && OccursAt(word, text, t, i) {
      assert i + |t| in ends;
    }
  }

  lemma EndOccurs(word: Words, text: string, tokens: seq<string>, i: nat, e: nat)
    requires i <= |text| && !WordBefore(word, text, i) && !WordAt(word, text, e)
    requires exists t <- tokens :: i + |t| == e <= |text| && text[i..i + |t|] == t
    ensures exists t <- tokens :: OccursAt(word, text, t, i)
  {
    var t :| t in tokens && i + |t| == e <= |text| && text[i..i + |t|] == t;
    assert OccursAt(word, text, t, i);
  }

  /** The order of the alternatives does not matter. */
  lemma OrderIsIrrelevant(word: Words, text: string, one: seq<string>, other: seq<string>)
    requires one != [] && forall t :: t in one <==> t in other
    ensures Found(Bounded(AnyOf(one)), word, text) == Found(Bounded(AnyOf(other)), word, text)
  {
    assert one[0] in other;
    GuardIsExact(word, text, one);
    GuardIsExact(word, text, other);
  }

  predicate SmallLetter(c: char) {
    'a' <= c <= 'z'
  }

  /** Going back matters: a token can occur where a longer one matches first and then fails on
      what follows it. */
  lemma LongestAloneFails()
    ensures Ends(Literal("a-b"), SmallLetter, "a-bc", 0) == [3] && !Occurs(SmallLetter, "a-bc", "a-b")
    ensures Found(Bounded(AnyOf(["a-b", "a"])), SmallLetter, "a-bc")
  {
    var text := "a-bc";
    LiteralEnds(SmallLetter, text, "a-b", 0);
    assert text[0..3] == "a-b" && text[0..1] == "a";
    assert OccursAt(SmallLetter, text, "a", 0);
    forall i | 0 <= i <= |text| ensures !OccursAt(SmallLetter, text, "a-b", i) {
      if i == 0 {
        assert WordAt(SmallLetter, text, 3);
      } else if i + 3 <= |text| {
        assert text[i..i + 3][0] == text[i] == '-';
      }
    }
    var tokens := ["a-b", "a"];
    assert tokens[1] in tokens && Occurs(SmallLetter, text, tokens[1]);
    GuardIsExact(SmallLetter, text, tokens);
  }
}
