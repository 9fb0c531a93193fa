/** What a JSON text says, by the grammar of RFC 8259: which texts write which value, with any blanks
    and any escapes. Decoding reads exactly these texts. */
module JsonGrammar {
  import opened Wrappers
  import opened JsonText

  // --- blanks (section 2) -----------------------------------------------------------------------

  ghost predicate Blanks(s: string) {
    forall c <- s :: c == ' ' || c == '\t' || c == '\n' || c == '\r'
  }

  /** An opening character, blanks, and the rest. */
  ghost predicate Opens(t: string, c: char, blanks: string, rest: string) {
    t == [c] + (blanks + rest) && Blanks(blanks)
  }

  /** A first part, blanks, and the rest. */
  ghost predicate Parts(t: string, first: string, blanks: string, rest: string) {
    t == first + (blanks + rest) && Blanks(blanks)
  }

  lemma {:induction false} SkipIs(s: string) returns (blanks: string)
    ensures Blanks(blanks) && s == blanks + Skip(s)
  {
    blanks := "";
    if s != "" && IsBlank(s[0]) {
      blanks := SkipIs(s[1..]);
      blanks := [s[0]] + blanks;
    }
  }

  lemma {:induction false} SkipsBlanks(blanks: string, rest: string)
    requires Blanks(blanks) && rest != "" && !IsBlank(rest[0])
    ensures Skip(blanks + rest) == rest
  {
    if blanks == "" {
      assert blanks + rest == rest;
    } else {
      assert (blanks + rest)[1..] == blanks[1..] + rest;
      assert blanks[0] in blanks && forall c <- blanks[1..] :: c in blanks;
      SkipsBlanks(blanks[1..], rest);
    }
  }

  // --- numbers (section 6) ------------------------------------------------------------------------

  ghost predicate AllDigits(s: string) {
    s != "" && forall c <- s :: '0' <= c <= '9'
  }

  ghost predicate IsExponent(s: string) {
    && s != "" && (s[0] == 'e' || s[0] == 'E')
    && (AllDigits(s[1..]) || (|s| > 1 && (s[1] == '+' || s[1] == '-') && AllDigits(s[2..])))
  }

  ghost predicate NumberParts(s: string, sign: string, whole: string, fraction: string, exponent: string) {
    && s == sign + (whole + (fraction + exponent))
    && (sign == "" || sign == "-")
    && (whole == "0" || (AllDigits(whole) && whole[0] != '0'))
    && (fraction == "" || (fraction[0] == '.' && AllDigits(fraction[1..])))
    && (exponent == "" || IsExponent(exponent))
  }

  ghost predicate IsNumber(s: string) {
    exists sign, whole, fraction, exponent :: NumberParts(s, sign, whole, fraction, exponent)
  }

  /** What cannot continue a number. */
  predicate Ends(rest: string) {
    rest == "" || !('0' <= rest[0] <= '9' || rest[0] == '.' || rest[0] == 'e' || rest[0] == 'E' || rest[0] ==
      '+' || rest[0] == '-')
  }

  lemma {:induction false} DigitsStop(digits: string, rest: string)
    requires digits == "" || AllDigits(digits)
    requires rest == "" || !('0' <= rest[0] <= '9')
    ensures Digits(digits + rest) == |digits|
  {
    if digits == "" {
      assert digits + rest == rest;
    } else {
      assert (digits + rest)[1..] == digits[1..] + rest;
      assert digits[0] in digits && forall c <- digits[1..] :: c in digits;
      DigitsStop(digits[1..], rest);
    }
  }

  lemma {:induction false} DigitsAre(s: string)
    ensures forall c <- s[..Digits(s)] :: '0' <= c <= '9'
    ensures Digits(s) > 0 ==> AllDigits(s[..Digits(s)]) && s[..Digits(s)][0] == s[0]
  {
    if s != "" && '0' <= s[0] <= '9' {
      DigitsAre(s[1..]);
      assert s[..Digits(s)] == [s[0]] + s[1..][..Digits(s[1..])];
    }
  }

  lemma WholeReads(sign: string, whole: string, rest: string)
    requires sign == "" || sign == "-"
    requires whole == "0" || (AllDigits(whole) && whole[0] != '0')
    requires rest == "" || !('0' <= rest[0] <= '9')
    ensures IntLength(sign + (whole + rest)) == |sign| + |whole|
  {
    var s := sign + (whole + rest);
    assert whole[0] in whole;
    assert s[|sign|..] == whole + rest && s[|sign|] == whole[0];
    DigitsStop(whole, rest);
  }

  lemma FractionReads(fraction: string, rest: string)
    requires fraction == "" || (fraction[0] == '.' && AllDigits(fraction[1..]))
    requires rest == "" || (!('0' <= rest[0] <= '9') && rest[0] != '.')
    ensures FractionLength(fraction + rest) == |fraction|
  {
    if fraction == "" {
      assert fraction + rest == rest;
    } else {
      assert (fraction + rest)[1..] == fraction[1..] + rest;
      DigitsStop(fraction[1..], rest);
    }
  }

  lemma ExponentReads(exponent: string, rest: string)
    requires (exponent == "" || IsExponent(exponent)) && Ends(rest)
    ensures ExponentLength(exponent + rest) == |exponent|
  {
    if exponent == "" {
      assert exponent + rest == rest;
    } else if AllDigits(exponent[1..]) {
      assert exponent[1] in exponent[1..];
      DropWithin(exponent, rest, 1);
      DigitsStop(exponent[1..], rest);
    } else {
      DropWithin(exponent, rest, 2);
      DigitsStop(exponent[2..], rest);
    }
  }

  lemma DropWithin(first: string, rest: string, n: nat)
    requires n <= |first|
    ensures (first + rest)[n..] == first[n..] + rest
  {
  }

  lemma NumberReads(s: string, rest: string)
    requires IsNumber(s) && Ends(rest)
    ensures NumberLength(s + rest) == |s| > 0
  {
    var sign, whole, fraction, exponent :| NumberParts(s, sign, whole, fraction, exponent);
    ExponentReads(exponent, rest);
    TailStarts(exponent, rest);
    PartsRead(sign, whole, fraction, exponent + rest, |exponent|);
    FiveParts(sign, whole, fraction, exponent, rest);
  }

  lemma TailStarts(exponent: string, rest: string)
    requires (exponent == "" || IsExponent(exponent)) && Ends(rest)
    ensures var tail := exponent + rest; tail == "" || (!('0' <= tail[0] <= '9') && tail[0] != '.')
  {
  }

  lemma FiveParts(a: string, b: string, c: string, d: string, e: string)
    ensures (a + (b + (c + d))) + e == a + (b + (c + (d + e)))
  {
  }

  lemma PartsRead(sign: string, whole: string, fraction: string, tail: string, n: nat)
    requires sign == "" || sign == "-"
    requires whole == "0" || (AllDigits(whole) && whole[0] != '0')
    requires fraction == "" || (fraction[0] == '.' && AllDigits(fraction[1..]))
    requires tail == "" || (!('0' <= tail[0] <= '9') && tail[0] != '.')
    requires ExponentLength(tail) == n
    ensures NumberLength(sign + (whole + (fraction + tail))) == |sign| + |whole| + |fraction| + n > 0
  {
    var s := sign + (whole + (fraction + tail));
    WholeReads(sign, whole, fraction + tail);
    FractionReads(fraction, tail);
    assert s == (sign + whole) + (fraction + tail);
    ThreeLengths(s, sign + whole, fraction, tail, n);
  }

  lemma ThreeLengths(s: string, whole: string, fraction: string, tail: string, n: nat)
    requires s == whole + (fraction + tail) && IntLength(s) == |whole| > 0
    requires FractionLength(fraction + tail) == |fraction| && ExponentLength(tail) == n
    ensures NumberLength(s) == |whole| + |fraction| + n
  {
    assert s[|whole|..] == fraction + tail && s[|whole| + |fraction|..] == tail;
  }

  lemma WholeIs(s: string) returns (sign: string, whole: string)
    requires IntLength(s) > 0
    ensures s[..IntLength(s)] == sign + whole && (sign == "" || sign == "-")
    ensures whole == "0" || (AllDigits(whole) && whole[0] != '0')
  {
    var n := if s != "" && s[0] == '-' then 1 else 0;
    DigitsAre(s[n..]);
    sign, whole := s[..n], s[n..IntLength(s)];
    if s[n] != '0' {
      assert whole == s[n..][..Digits(s[n..])];
    }
  }

  lemma FractionIs(s: string)
    requires FractionLength(s) > 0
    ensures var f := s[..FractionLength(s)]; f[0] == '.' && AllDigits(f[1..])
  {
    DigitsAre(s[1..]);
    assert s[..FractionLength(s)][1..] == s[1..][..Digits(s[1..])];
  }

  lemma ExponentIs(s: string)
    requires ExponentLength(s) > 0
    ensures IsExponent(s[..ExponentLength(s)])
  {
    var n := if |s| > 1 && (s[1] == '+' || s[1] == '-') then 2 else 1;
    var e := s[..ExponentLength(s)];
    DigitsAre(s[n..]);
    assert e[n..] == s[n..][..Digits(s[n..])];
  }

  lemma NumberIs(s: string)
    requires NumberLength(s) > 0
    ensures IsNumber(s[..NumberLength(s)])
  {
    var i := IntLength(s);
    var sign, whole := WholeIs(s);
    var t := s[i..];
    var f := FractionLength(t);
    if f > 0 { FractionIs(t); }
    var e := ExponentLength(s[i + f..]);
    if e > 0 { ExponentIs(s[i + f..]); }
    PartsAre(s, sign, whole, t[..f], s[i + f..][..e]);
  }

  lemma PartsAre(s: string, sign: string, whole: string, fraction: string, exponent: string)
    requires sign + whole <= s && fraction <= s[|sign + whole|..] && exponent <= s[|sign + whole| + |fraction|..]
    requires sign == "" || sign == "-"
    requires whole == "0" || (AllDigits(whole) && whole[0] != '0')
    requires fraction == "" || (fraction[0] == '.' && AllDigits(fraction[1..]))
    requires exponent == "" || IsExponent(exponent)
    requires NumberLength(s) == |sign + whole| + |fraction| + |exponent|
    ensures IsNumber(s[..NumberLength(s)])
  {
    FourPieces(s, sign, whole, fraction, exponent);
    assert NumberParts(s[..NumberLength(s)], sign, whole, fraction, exponent);
  }

  lemma FourPieces(s: string, a: string, b: string, c: string, d: string)
    requires a + b <= s && c <= s[|a + b|..] && d <= s[|a + b| + |c|..]
    ensures s[..|a + b| + |c| + |d|] == a + (b + (c + d))
  {
    assert s[..|a + b|] == a + b;
    assert s[|a + b|..|a + b| + |c|] == c;
    assert s[|a + b| + |c|..|a + b| + |c| + |d|] == d;
  }

  // --- strings (section 7) --------------------------------------------------------------------------

  /** A hexadecimal digit and its value. */
  ghost predicate Hex(c: char, n: int) {
    || ('0' <= c <= '9' && n == c as int - '0' as int)
    || ('a' <= c <= 'f' && n == c as int - 'a' as int + 10)
    || ('A' <= c <= 'F' && n == c as int - 'A' as int + 10)
  }

  /** Four hexadecimal digits behind `\u`, and the code unit they count. */
  ghost predicate Coded(p: string, unit: int) {
    |p| == 6 && p[0] == '\\' && p[1] == 'u' && HexUnit(p[2], p[3], p[4], p[5], unit)
  }

  ghost predicate HexUnit(c: char, c': char, d: char, d': char, unit: int) {
    exists m, m', n, n' :: Hex(c, m) && Hex(c', m') && Hex(d, n) && Hex(d', n')
      && unit == ((m * 16 + m') * 16 + n) * 16 + n'
  }

  ghost predicate Short(e: char, c: char) {
    || (e == '"' && c == '"') || (e == '\\' && c == '\\') || (e == '/' && c == '/')
    || (e == 'b' && c as int == 8) || (e == 'f' && c as int == 12) || (e == 'n' && c as int == 10)
    || (e == 'r' && c as int == 13) || (e == 't' && c as int == 9)
  }

  /** A surrogate pair, and the character it stands for. */
  ghost predicate Pair(p: string, c: char) {
    && |p| == 12
    && exists high, low :: Coded(p[..6], high) && Coded(p[6..], low)
         && 0xD800 <= high < 0xDC00 <= low < 0xE000
         && c as int == 0x10000 + (high - 0xD800) * 0x400 + (low - 0xDC00)
  }

  /** A surrogate, which stands for U+FFFD unless it is part of a pair. */
  ghost predicate Surrogate(p: string, from: int, to: int) {
    exists unit :: Coded(p, unit) && from <= unit < to
  }

  ghost predicate LowFollows(rest: string) {
    |rest| >= 6 && Surrogate(rest[..6], 0xDC00, 0xE000)
  }

  /** `p` spells the character `c`, given what follows it in the string. */
  ghost predicate Spelling(p: string, c: char, rest: string) {
    || (p == [c] && c >= ' ' && c != '"' && c != '\\')
    || (|p| == 2 && p[0] == '\\' && Short(p[1], c))
    || (Coded(p, c as int) && !(0xD800 <= c as int < 0xE000))
    || Pair(p, c)
    || (c as int == 0xFFFD && Surrogate(p, 0xDC00, 0xE000))
    || (c as int == 0xFFFD && Surrogate(p, 0xD800, 0xDC00) && !LowFollows(rest))
  }

  /** The text between the quotes spells the string. */
  ghost predicate Spells(q: string, s: string)
    decreases |s|
  {
    if s == "" then q == ""
    else exists k: nat :: k <= |q| && Spelling(q[..k], s[0], q[k..]) && Spells(q[k..], s[1..])
  }

  ghost predicate Quotes(t: string, s: string) {
    |t| >= 2 && t[0] == '"' && t[|t| - 1] == '"' && Spells(t[1..|t| - 1], s)
  }

  // --- values (sections 3 to 5) -----------------------------------------------------------------------

  /** Besides the numbers of the grammar, the three constants that Python reads. */
  ghost predicate IsLiteral(s: string) {
    IsNumber(s) || s == "NaN" || s == "Infinity" || s == "-Infinity"
  }

  ghost predicate Writes(v: Json, t: string)
    decreases v, 0
  {
    match v
    case Null => t == "null"
    case Bool(b) => t == if b then "true" else "false"
    case Number(literal) => t == literal && IsLiteral(literal)
    case Text(s) => Quotes(t, s)
    case Array(items) =>
      exists b, r :: Opens(t, '[', b, r) && if items.NoItems? then r == "]" else WritesItems(items, r)
    case Object(members) =>
      exists b, r :: Opens(t, '{', b, r) && if members.NoMembers? then r == "}" else WritesMembers(members, r)
  }

  /** One or more items with commas between them, and the closing bracket. */
  ghost predicate WritesItems(items: Items, t: string)
    requires items.Item?
    decreases items, 1
  {
    exists w, a, more :: Parts(t, w, a, more) && Writes(items.value, w) && MoreItems(items.rest, more)
  }

  ghost predicate MoreItems(items: Items, t: string)
    decreases items, 2
  {
    if items.NoItems? then t == "]" else exists b, r :: Opens(t, ',', b, r) && WritesItems(items, r)
  }

  /** One or more members with commas between them, and the closing brace. */
  ghost predicate WritesMembers(members: Members, t: string)
    requires members.Member?
    decreases members, 1
  {
    exists k, a, more :: Parts(t, k, a, more) && Quotes(k, members.key) && WritesValue(members, more)
  }

  /** The colon and the value of the first member, and the members after it. */
  ghost predicate WritesValue(members: Members, t: string)
    requires members.Member?
    decreases members, 0
  {
    exists b, r :: Opens(t, ':', b, r)
      && exists w, a, more :: Parts(r, w, a, more) && Writes(members.value, w) && MoreMembers(members.rest, more)
  }

  ghost predicate MoreMembers(members: Members, t: string)
    decreases members, 2
  {
    if members.NoMembers? then t == "}" else exists b, r :: Opens(t, ',', b, r) && WritesMembers(members, r)
  }

  // --- strings: decoding reads what is spelled ---------------------------------------------------------

  lemma HexReads(c: char, n: int)
    ensures HexValue(c) == Some(n) <==> Hex(c, n)
  {
  }

  lemma UnitReads(p: string, rest: string, unit: int)
    requires |p| == 6 && p[0] == '\\' && p[1] == 'u'
    ensures Unit((p + rest)[2..]) == Some(unit) <==> Coded(p, unit)
  {
    var s := (p + rest)[2..];
    assert s[0] == p[2] && s[1] == p[3] && s[2] == p[4] && s[3] == p[5];
    UnitIs(s, unit);
  }

  lemma UnitIs(s: string, unit: int)
    requires |s| >= 4
    ensures Unit(s) == Some(unit) <==> HexUnit(s[0], s[1], s[2], s[3], unit)
  {
    if HexUnit(s[0], s[1], s[2], s[3], unit) {
      var m, m', n, n' :| Hex(s[0], m) && Hex(s[1], m') && Hex(s[2], n) && Hex(s[3], n')
        && unit == ((m * 16 + m') * 16 + n) * 16 + n';
      HexReads(s[0], m);
      HexReads(s[1], m');
      HexReads(s[2], n);
      HexReads(s[3], n');
    }
    if Unit(s) == Some(unit) {
      HexReads(s[0], HexValue(s[0]).value);
      HexReads(s[1], HexValue(s[1]).value);
      HexReads(s[2], HexValue(s[2]).value);
      HexReads(s[3], HexValue(s[3]).value);
    }
  }

  lemma ShortReads(e: char, c: char, rest: string)
    requires Short(e, c)
    ensures Escape([e] + rest) == Some((c, 1))
  {
  }

  lemma CodeReads(p: string, c: char, rest: string)
    requires Coded(p, c as int) && !(0xD800 <= c as int < 0xE000)
    ensures Escape((p + rest)[1..]) == Some((c, 5))
  {
    UnitReads(p, rest, c as int);
    assert (p + rest)[1..][1..] == (p + rest)[2..];
  }

  /** What the reader makes of a surrogate depends on whether a low one follows. */
  lemma SurrogateReads(p: string, rest: string, unit: int)
    requires Coded(p, unit) && 0xD800 <= unit < 0xE000 && (unit < 0xDC00 ==> !LowFollows(rest))
    ensures Escape((p + rest)[1..]) == Some(('\U{FFFD}', 5))
  {
    var s := (p + rest)[1..];
    UnitReads(p, rest, unit);
    assert s[1..] == (p + rest)[2..];
    if |s| >= 7 && s[5] == '\\' && s[6] == 'u' && Unit(s[7..]).Some? {
      LowIsRead(s, rest);
    }
  }

  lemma LowIsRead(s: string, rest: string)
    requires |s| >= 7 && s[5..] == rest && rest[0] == '\\' && rest[1] == 'u' && Unit(s[7..]).Some?
    ensures |rest| >= 6 && Coded(rest[..6], Unit(s[7..]).value)
  {
    assert rest[..6] + rest[6..] == rest && rest[2..] == s[7..];
    UnitReads(rest[..6], rest[6..], Unit(s[7..]).value);
  }

  lemma PairReads(p: string, c: char, rest: string)
    requires Pair(p, c)
    ensures Escape((p + rest)[1..]) == Some((c, 11))
  {
    var high, low :| Coded(p[..6], high) && Coded(p[6..], low) && 0xD800 <= high < 0xDC00 <= low < 0xE000
      && c as int == 0x10000 + (high - 0xD800) * 0x400 + (low - 0xDC00);
    CutAt(p, 6, rest);
    PairUnits(p[..6], p[6..], rest, high, low, c, p + rest);
  }

  lemma CutAt(p: string, k: nat, rest: string)
    requires k <= |p|
    ensures p + rest == p[..k] + (p[k..] + rest)
  {
  }

  lemma PairUnits(p: string, q: string, rest: string, high: int, low: int, c: char, all: string)
    requires Coded(p, high) && Coded(q, low) && 0xD800 <= high < 0xDC00 <= low < 0xE000
    requires c as int == 0x10000 + (high - 0xD800) * 0x400 + (low - 0xDC00) && all == p + (q + rest)
    ensures Escape(all[1..]) == Some((c, 11))
  {
    var s := all[1..];
    UnitReads(p, q + rest, high);
    UnitReads(q, rest, low);
    assert s[1..] == all[2..] && s[7..] == (q + rest)[2..];
    assert s[5] == q[0] && s[6] == q[1];
  }

  /** One spelled character, followed by what it was spelled before. */
  lemma SpellingReads(p: string, c: char, rest: string)
    requires Spelling(p, c, rest)
    ensures p != "" && DecodeChars(p + rest) == Cons(c, DecodeChars(rest))
  {
    if p == [c] && c >= ' ' && c != '"' && c != '\\' {
      PlainReads(c, rest);
    } else if |p| == 2 && p[0] == '\\' && Short(p[1], c) {
      ShortReads(p[1], c, rest);
      EscapeReads(p, c, rest);
    } else if Coded(p, c as int) && !(0xD800 <= c as int < 0xE000) {
      CodeReads(p, c, rest);
      EscapeReads(p, c, rest);
    } else if Pair(p, c) {
      PairReads(p, c, rest);
      EscapeReads(p, c, rest);
    } else {
      LoneReads(p, c, rest);
    }
  }

  lemma PlainReads(c: char, rest: string)
    requires c >= ' ' && c != '"' && c != '\\'
    ensures DecodeChars([c] + rest) == Cons(c, DecodeChars(rest))
  {
    assert ([c] + rest)[1..] == rest;
  }

  lemma LoneReads(p: string, c: char, rest: string)
    requires c as int == 0xFFFD
    requires Surrogate(p, 0xDC00, 0xE000) || (Surrogate(p, 0xD800, 0xDC00) && !LowFollows(rest))
    ensures p != "" && DecodeChars(p + rest) == Cons(c, DecodeChars(rest))
  {
    var unit :| Coded(p, unit) && 0xD800 <= unit < 0xE000 && (unit < 0xDC00 ==> !LowFollows(rest));
    SurrogateReads(p, rest, unit);
    EscapeReads(p, c, rest);
  }

  lemma EscapeReads(p: string, c: char, rest: string)
    requires |p| > 1 && p[0] == '\\' && Escape((p + rest)[1..]) == Some((c, |p| - 1))
    ensures DecodeChars(p + rest) == Cons(c, DecodeChars(rest))
  {
    assert (p + rest)[|p|..] == rest;
  }

  /** The text up to the closing quote: the rest starts with that quote. */
  lemma {:induction false} SpelledReads(q: string, s: string, rest: string)
    requires Spells(q, s)
    ensures DecodeChars(q + ("\"" + rest)) == Some((s, rest))
    decreases |s|
  {
    var tail := "\"" + rest;
    if s == "" {
      assert q + tail == tail && tail[1..] == rest;
    } else {
      var k: nat :| k <= |q| && Spelling(q[..k], s[0], q[k..]) && Spells(q[k..], s[1..]);
      SpelledReads(q[k..], s[1..], rest);
      QuoteIsNoLow(q[..k], s[0], q[k..], rest);
      CutAt(q, k, tail);
      OneMoreSpelled(q[..k], s[0], q[k..] + tail, q + tail, s[1..], rest);
      assert [s[0]] + s[1..] == s;
    }
  }

  lemma OneMoreSpelled(p: string, c: char, after: string, all: string, s: string, rest: string)
    requires Spelling(p, c, after) && all == p + after && DecodeChars(after) == Some((s, rest))
    ensures DecodeChars(all) == Some(([c] + s, rest))
  {
    SpellingReads(p, c, after);
  }

  /** A quote is no part of an escape, so it changes no spelling. */
  lemma QuoteIsNoLow(p: string, c: char, q: string, rest: string)
    requires Spelling(p, c, q)
    ensures Spelling(p, c, q + ("\"" + rest))
  {
    var all := q + ("\"" + rest);
    if LowFollows(all) {
      var unit :| Coded(all[..6], unit) && 0xDC00 <= unit < 0xE000;
      CodedHasNoQuote(all[..6], unit);
      assert |q| < 6 ==> all[..6][|q|] == '"';
      assert |q| >= 6 ==> all[..6] == q[..6];
    }
  }

  lemma CodedHasNoQuote(p: string, unit: int)
    requires Coded(p, unit)
    ensures forall i :: 0 <= i < |p| ==> p[i] != '"'
  {
  }

  /** The other way round: whatever is read as a character spells it. */
  lemma EscapeSpells(s: string, c: char, n: nat)
    requires s != "" && s[0] == '\\' && Escape(s[1..]) == Some((c, n))
    ensures 1 + n <= |s| && Spelling(s[..1 + n], c, s[1 + n..])
  {
    EscapeIs(s, c, n);
    if n == 5 {
      CodeSpells(s, c, s[..6], s[6..]);
    } else if n == 11 {
      PairSpells(s, c);
    }
  }

  /** The three lengths of an escape without its backslash. */
  lemma EscapeIs(s: string, c: char, n: nat)
    requires s != "" && s[0] == '\\' && Escape(s[1..]) == Some((c, n))
    ensures 1 + n <= |s| && s[1..][1..] == s[2..] && s[1] == s[1..][0]
    ensures (n == 1 && Short(s[1], c)) || (n == 5 && s[1] == 'u' && Unit(s[2..]).Some?) || (n == 11 && s[1] == 'u')
  {
  }

  lemma CodeSpells(s: string, c: char, p: string, rest: string)
    requires |s| >= 6 && p == s[..6] && rest == s[6..]
    requires s[0] == '\\' && s[1] == 'u' && Unit(s[2..]).Some? && Escape(s[1..]) == Some((c, 5))
    ensures Spelling(p, c, rest)
  {
    var unit := Unit(s[2..]).value;
    assert p + rest == s && s[1..][1..] == s[2..];
    UnitReads(p, rest, unit);
    if 0xD800 <= unit < 0xDC00 && LowFollows(rest) {
      NoLowFollows(s, rest);
    }
  }

  lemma NoLowFollows(s: string, rest: string)
    requires |s| >= 6 && rest == s[6..] && LowFollows(rest)
    ensures |s| >= 12 && s[6] == '\\' && s[7] == 'u' && Unit(s[8..]).Some? && 0xDC00 <= Unit(s[8..]).value < 0xE000
  {
    var unit :| Coded(rest[..6], unit) && 0xDC00 <= unit < 0xE000;
    assert rest[..6] + rest[6..] == rest && rest[2..] == s[8..];
    UnitReads(rest[..6], rest[6..], unit);
  }

  lemma TwoCuts(s: string, i: nat, j: nat)
    requires i <= j <= |s|
    ensures s == s[..i] + s[i..] && s[i..] == s[i..j] + s[j..]
  {
  }

  lemma PairSpells(s: string, c: char)
    requires s != "" && s[0] == '\\' && Escape(s[1..]) == Some((c, 11))
    ensures |s| >= 12 && Pair(s[..12], c)
  {
    var p, q, rest := s[..6], s[6..12], s[12..];
    assert s[1..][1..] == s[2..] && s[1..][7..] == s[8..];
    TwoCuts(s, 6, 12);
    assert s[6..][2..] == s[8..];
    UnitReads(p, s[6..], Unit(s[2..]).value);
    UnitReads(q, rest, Unit(s[8..]).value);
    assert s[..12][..6] == p && s[..12][6..] == q;
  }

  lemma {:induction false} ReadIsSpelled(x: string, s: string, rest: string) returns (q: string)
    requires DecodeChars(x) == Some((s, rest))
    ensures Spells(q, s) && x == q + ("\"" + rest)
    decreases |x|
  {
    if x[0] == '"' {
      q := "";
    } else {
      var n := CharRead(x, s, rest);
      var more := ReadIsSpelled(x[n..], s[1..], rest);
      q := x[..n] + more;
      MoreSpelled(x, n, s, more, rest, q);
    }
  }

  lemma CharRead(x: string, s: string, rest: string) returns (n: nat)
    requires x != "" && x[0] != '"' && DecodeChars(x) == Some((s, rest))
    ensures 0 < n <= |x| && s != "" && DecodeChars(x[n..]) == Some((s[1..], rest))
    ensures Spelling(x[..n], s[0], x[n..])
  {
    n := 1;
    if x[0] == '\\' {
      n := 1 + Escape(x[1..]).value.1;
      EscapeSpells(x, s[0], n - 1);
    }
  }

  lemma MoreSpelled(x: string, n: nat, s: string, more: string, rest: string, q: string)
    requires n <= |x| && s != "" && Spelling(x[..n], s[0], x[n..]) && Spells(more, s[1..])
    requires x[n..] == more + ("\"" + rest) && q == x[..n] + more
    ensures Spells(q, s) && x == q + ("\"" + rest)
  {
    LowFollowsLess(x[..n], s[0], more, x[n..]);
    SpellsCons(x[..n], more, s);
    Regroup(x, n, more, "\"" + rest);
  }

  lemma SpellsCons(p: string, more: string, s: string)
    requires s != "" && Spelling(p, s[0], more) && Spells(more, s[1..])
    ensures Spells(p + more, s)
  {
    var q := p + more;
    assert q[..|p|] == p && q[|p|..] == more;
  }

  lemma Regroup(x: string, n: nat, more: string, rest: string)
    requires n <= |x| && x[n..] == more + rest
    ensures x == (x[..n] + more) + rest
  {
    assert x == x[..n] + x[n..];
  }

  lemma LowFollowsLess(p: string, c: char, q: string, longer: string)
    requires Spelling(p, c, longer) && q <= longer
    ensures Spelling(p, c, q)
  {
    assert LowFollows(q) ==> q[..6] == longer[..6];
  }

  /** Strings are read exactly as the grammar writes them. */
  lemma StringMeans(x: string, s: string, rest: string)
    ensures DecodeChars(x) == Some((s, rest)) <==> exists q :: Spells(q, s) && x == q + ("\"" + rest)
  {
    if DecodeChars(x) == Some((s, rest)) {
      var q := ReadIsSpelled(x, s, rest);
    }
    if q :| Spells(q, s) && x == q + ("\"" + rest) {
      SpelledReads(q, s, rest);
    }
  }

  // --- values: every text that writes a value is read as that value -------------------------------------

  lemma WordReads(v: Json, rest: string)
    requires v.Null? || v.Bool?
    ensures Decode(Print(v) + rest) == Some((v, rest))
  {
    var s := Print(v) + rest;
    assert s[|Print(v)|..] == rest && s[..|Print(v)|] == Print(v);
    WordStart(s);
  }

  lemma WordStart(s: string)
    requires s != "" && s[0] != '"' && s[0] != '{' && s[0] != '['
    ensures Decode(s) == DecodeWord(s)
  {
  }

  lemma StartsAlike(s: string, prefix: string)
    ensures StartsWith(s, prefix) && prefix != "" ==> s != "" && s[0] == prefix[0]
  {
    if StartsWith(s, prefix) && prefix != "" {
      assert s[0] == s[..|prefix|][0];
    }
  }

  lemma NotAWord(s: string)
    requires s != "" && s[0] != 'n' && s[0] != 't' && s[0] != 'f'
    ensures !StartsWith(s, "null") && !StartsWith(s, "true") && !StartsWith(s, "false")
  {
    StartsAlike(s, "null");
    StartsAlike(s, "true");
    StartsAlike(s, "false");
  }

  lemma NumberStarts(s: string)
    requires IntLength(s) > 0
    ensures '0' <= s[0] <= '9' || s[0] == '-'
  {
  }

  lemma LiteralReads(literal: string, rest: string)
    requires IsLiteral(literal) && Ends(rest)
    ensures Decode(literal + rest) == Some((Number(literal), rest))
  {
    var s := literal + rest;
    assert s[|literal|..] == rest && s[..|literal|] == literal;
    if IsNumber(literal) {
      NumberReads(literal, rest);
      assert IntLength(s) > 0;
      NumberStarts(s);
      NotAWord(s);
      WordStart(s);
    } else {
      ConstantReads(literal, rest);
    }
  }

  lemma NoNumber(s: string)
    requires s != "" && (s[0] == 'N' || s[0] == 'I' || (s[0] == '-' && |s| > 1 && s[1] == 'I'))
    ensures NumberLength(s) == 0
  {
    assert s[0] == '-' ==> s[1..][0] == 'I' && Digits(s[1..]) == 0;
    assert IntLength(s) == 0;
  }

  lemma ConstantReads(literal: string, rest: string)
    requires literal == "NaN" || literal == "Infinity" || literal == "-Infinity"
    ensures Decode(literal + rest) == Some((Number(literal), rest))
  {
    var s := literal + rest;
    assert s[|literal|..] == rest && s[..|literal|] == literal;
    assert s[0] == literal[0] && s[1] == literal[1];
    NoNumber(s);
    NotAWord(s);
    WordStart(s);
    StartsAlike(s, "NaN");
    StartsAlike(s, "Infinity");
  }

  lemma TextReads(t: string, s: string, rest: string)
    requires Quotes(t, s)
    ensures t + rest != "" && (t + rest)[0] == '"' && DecodeChars((t + rest)[1..]) == Some((s, rest))
  {
    var q := t[1..|t| - 1];
    SpelledReads(q, s, rest);
    assert (t + rest)[1..] == q + ("\"" + rest);
  }

  /** What follows a value inside an array or object never continues a number. */
  lemma BlanksEnd(blanks: string, more: string)
    requires Blanks(blanks) && more != "" && (more[0] == ',' || more[0] == ']' || more[0] == '}')
    ensures Ends(blanks + more) && Skip(blanks + more) == more
  {
    SkipsBlanks(blanks, more);
    if blanks != "" {
      assert blanks[0] in blanks && (blanks + more)[0] == blanks[0];
    } else {
      assert blanks + more == more;
    }
  }

  /** A value's first character is none of those that close, separate or are skipped. */
  lemma WritesStarts(v: Json, t: string)
    requires Writes(v, t)
    ensures t != "" && !IsBlank(t[0]) && t[0] != ']' && t[0] != '}' && t[0] != ','
  {
    if v.Number? && IsNumber(t) {
      var sign, whole, fraction, exponent :| NumberParts(t, sign, whole, fraction, exponent);
      assert whole[0] in whole;
      assert t[0] == if sign == "" then whole[0] else '-';
    }
  }

  lemma {:induction false} WrittenIsRead(v: Json, t: string, rest: string)
    requires Writes(v, t) && (v.Number? ==> Ends(rest))
    ensures Decode(t + rest) == Some((v, rest))
    decreases v, 3
  {
    match v
    case Text(s) => TextReads(t, s, rest);
    case Array(items) => ArrayReads(items, t, rest);
    case Object(members) => ObjectReads(members, t, rest);
    case Number(literal) => LiteralReads(literal, rest);
    case _ => WordReads(v, rest);
  }

  lemma OpensInside(t: string, c: char, b: string, r: string, rest: string)
    requires Opens(t, c, b, r) && r != "" && !IsBlank(r[0])
    ensures t + rest != "" && (t + rest)[0] == c && Skip((t + rest)[1..]) == r + rest
  {
    assert (t + rest)[1..] == b + (r + rest);
    SkipsBlanks(b, r + rest);
  }

  lemma ItemsStart(items: Items, t: string)
    requires items.Item? && WritesItems(items, t)
    ensures t != "" && !IsBlank(t[0]) && t[0] != ']'
  {
    var w, a, more :| Parts(t, w, a, more) && Writes(items.value, w) && MoreItems(items.rest, more);
    WritesStarts(items.value, w);
  }

  lemma MembersStart(members: Members, t: string)
    requires members.Member? && WritesMembers(members, t)
    ensures t != "" && t[0] == '"'
  {
  }

  lemma {:induction false} ArrayReads(items: Items, t: string, rest: string)
    requires Writes(Array(items), t)
    ensures Decode(t + rest) == Some((Array(items), rest))
    decreases items, 4
  {
    var b, r :| Opens(t, '[', b, r) && if items.NoItems? then r == "]" else WritesItems(items, r);
    if items.Item? {
      ItemsStart(items, r);
      ItemsRead(items, r, rest);
    } else {
      assert (r + rest)[1..] == rest;
    }
    OpensInside(t, '[', b, r, rest);
    assert Decode(t + rest) == DecodeArray(t + rest);
  }

  lemma {:induction false} ObjectReads(members: Members, t: string, rest: string)
    requires Writes(Object(members), t)
    ensures Decode(t + rest) == Some((Object(members), rest))
    decreases members, 4
  {
    var b, r :| Opens(t, '{', b, r) && if members.NoMembers? then r == "}" else WritesMembers(members, r);
    if members.Member? {
      MembersStart(members, r);
      MembersRead(members, r, rest);
    } else {
      assert (r + rest)[1..] == rest;
    }
    OpensInside(t, '{', b, r, rest);
    assert Decode(t + rest) == DecodeObject(t + rest);
  }

  /** One value inside an array or object: it is read, and what follows it is reached. */
  lemma {:induction false} PartReads(v: Json, t: string, w: string, a: string, more: string, rest: string)
    requires Parts(t, w, a, more) && Writes(v, w)
    requires more != "" && (more[0] == ',' || more[0] == ']' || more[0] == '}')
    ensures Decode(t + rest) == Some((v, a + (more + rest))) && Skip(a + (more + rest)) == more + rest
    decreases v, 4
  {
    BlanksEnd(a, more + rest);
    WrittenIsRead(v, w, a + (more + rest));
    PartsWithRest(t, w, a, more, rest);
  }

  lemma PartsWithRest(t: string, w: string, a: string, more: string, rest: string)
    requires t == w + (a + more)
    ensures t + rest == w + (a + (more + rest))
  {
  }

  lemma {:induction false} ItemsRead(items: Items, t: string, rest: string)
    requires items.Item? && WritesItems(items, t)
    ensures DecodeItems(t + rest) == Some((items, rest))
    decreases items, 3
  {
    var w, a, more :| Parts(t, w, a, more) && Writes(items.value, w) && MoreItems(items.rest, more);
    PartReads(items.value, t, w, a, more, rest);
    if items.rest.NoItems? {
      assert (more + rest)[1..] == rest;
    } else {
      var b, r :| Opens(more, ',', b, r) && WritesItems(items.rest, r);
      ItemsStart(items.rest, r);
      OpensInside(more, ',', b, r, rest);
      ItemsRead(items.rest, r, rest);
    }
  }

  lemma {:induction false} MembersRead(members: Members, t: string, rest: string)
    requires members.Member? && WritesMembers(members, t)
    ensures DecodeMembers(t + rest) == Some((members, rest))
    decreases members, 3
  {
    var k, a, colon :| Parts(t, k, a, colon) && Quotes(k, members.key) && WritesValue(members, colon);
    var b, r :| Opens(colon, ':', b, r)
      && exists w, d, more :: Parts(r, w, d, more) && Writes(members.value, w) && MoreMembers(members.rest, more);
    var w, d, more :| Parts(r, w, d, more) && Writes(members.value, w) && MoreMembers(members.rest, more);
    KeyReads(t, k, members.key, a, colon, rest);
    WritesStarts(members.value, w);
    OpensInside(colon, ':', b, r, rest);
    PartReads(members.value, r, w, d, more, rest);
    if members.rest.NoMembers? {
      assert (more + rest)[1..] == rest;
    } else {
      var b', r' :| Opens(more, ',', b', r') && WritesMembers(members.rest, r');
      MembersStart(members.rest, r');
      OpensInside(more, ',', b', r', rest);
      MembersRead(members.rest, r', rest);
    }
  }

  lemma KeyReads(t: string, k: string, key: string, a: string, colon: string, rest: string)
    requires Parts(t, k, a, colon) && Quotes(k, key) && colon != "" && colon[0] == ':'
    ensures t + rest != "" && (t + rest)[0] == '"'
    ensures DecodeChars((t + rest)[1..]) == Some((key, a + (colon + rest)))
    ensures Skip(a + (colon + rest)) == colon + rest
  {
    PartsWithRest(t, k, a, colon, rest);
    TextReads(k, key, a + (colon + rest));
    SkipsBlanks(a, colon + rest);
  }

  // --- and every text that is read as a value writes it -------------------------------------------------

  lemma WordIsWritten(s: string, v: Json, rest: string) returns (t: string)
    requires s != "" && DecodeWord(s) == Some((v, rest))
    ensures s == t + rest && Writes(v, t)
  {
    if StartsWith(s, "null") || StartsWith(s, "true") {
      t := s[..4];
    } else if StartsWith(s, "false") {
      t := s[..5];
    } else {
      t := LiteralIsWritten(s, v, rest);
    }
  }

  lemma LiteralIsWritten(s: string, v: Json, rest: string) returns (t: string)
    requires s != "" && DecodeWord(s) == Some((v, rest))
    requires !StartsWith(s, "null") && !StartsWith(s, "true") && !StartsWith(s, "false")
    ensures s == t + rest && Writes(v, t)
  {
    if NumberLength(s) > 0 {
      NumberIs(s);
      t := s[..NumberLength(s)];
    } else if StartsWith(s, "NaN") {
      t := s[..3];
    } else if StartsWith(s, "Infinity") {
      t := s[..8];
    } else {
      t := s[..9];
    }
  }

  lemma TextIsWritten(s: string, text: string, rest: string) returns (t: string)
    requires s != "" && s[0] == '"' && DecodeChars(s[1..]) == Some((text, rest))
    ensures s == t + rest && Quotes(t, text)
  {
    var q := ReadIsSpelled(s[1..], text, rest);
    t := Quoted(q, text, s, rest);
  }

  lemma Quoted(q: string, text: string, s: string, rest: string) returns (t: string)
    requires Spells(q, text) && s != "" && s[0] == '"' && s[1..] == q + ("\"" + rest)
    ensures s == t + rest && Quotes(t, text)
  {
    t := "\"" + q + "\"";
    assert t[1..|t| - 1] == q;
    assert s == [s[0]] + s[1..];
  }

  lemma {:induction false} ReadIsWritten(s: string, v: Json, rest: string) returns (t: string)
    requires Decode(s) == Some((v, rest))
    ensures s == t + rest && Writes(v, t)
    decreases |s|, 0
  {
    if s[0] == '"' {
      t := TextIsWritten(s, v.s, rest);
    } else if s[0] == '{' {
      t := ObjectIsWritten(s, v, rest);
    } else if s[0] == '[' {
      t := ArrayIsWritten(s, v, rest);
    } else {
      t := WordIsWritten(s, v, rest);
    }
  }

  /** The text of an array or object from its first character, the blanks after it, and the rest. */
  lemma OpeningIs(s: string, c: char, inside: string, r: string, rest: string) returns (b: string, t: string)
    requires s != "" && s[0] == c && inside == Skip(s[1..]) && inside == r + rest
    ensures s == t + rest && Opens(t, c, b, r)
  {
    b := SkipIs(s[1..]);
    t := [c] + (b + r);
  }

  lemma {:induction false} ArrayIsWritten(s: string, v: Json, rest: string) returns (t: string)
    requires s != "" && s[0] == '[' && DecodeArray(s) == Some((v, rest))
    ensures s == t + rest && Writes(v, t)
    decreases |s| - 1, 2
  {
    var inside := Skip(s[1..]);
    var b, r;
    if inside[0] == ']' {
      r := "]";
    } else {
      r := ItemsAreWritten(inside, v.items, rest);
    }
    b, t := OpeningIs(s, '[', inside, r, rest);
  }

  lemma {:induction false} ObjectIsWritten(s: string, v: Json, rest: string) returns (t: string)
    requires s != "" && s[0] == '{' && DecodeObject(s) == Some((v, rest))
    ensures s == t + rest && Writes(v, t)
    decreases |s| - 1, 2
  {
    var inside := Skip(s[1..]);
    var b, r;
    if inside[0] == '}' {
      r := "}";
    } else {
      r := MembersAreWritten(inside, v.members, rest);
    }
    b, t := OpeningIs(s, '{', inside, r, rest);
  }

  /** A part that was read, the blanks after it, and what comes next. */
  lemma PartIs(s: string, w: string, after: string, more: string, rest: string) returns (a: string, t: string)
    requires s == w + after && Skip(after) == more + rest
    ensures s == t + rest && Parts(t, w, a, more)
  {
    a := SkipIs(after);
    t := w + (a + more);
  }

  lemma {:induction false} ItemsAreWritten(s: string, items: Items, rest: string) returns (t: string)
    requires DecodeItems(s) == Some((items, rest))
    ensures items.Item? && s == t + rest && WritesItems(items, t)
    decreases |s|, 1
  {
    var (v, afterValue) := Decode(s).value;
    var w := ReadIsWritten(s, v, afterValue);
    var after := Skip(afterValue);
    var more, b, a := "]", "", "";
    if after[0] == ',' {
      var r := ItemsAreWritten(Skip(after[1..]), items.rest, rest);
      b, more := OpeningIs(after, ',', Skip(after[1..]), r, rest);
    }
    a, t := PartIs(s, w, afterValue, more, rest);
  }

  lemma {:induction false} MembersAreWritten(s: string, members: Members, rest: string) returns (t: string)
    requires DecodeMembers(s) == Some((members, rest))
    ensures members.Member? && s == t + rest && WritesMembers(members, t)
    decreases |s|, 1
  {
    var (key, afterKey) := DecodeChars(s[1..]).value;
    var k := TextIsWritten(s, key, afterKey);
    var colon := Skip(afterKey);
    var inside := Skip(colon[1..]);
    var r := ValueIsWritten(inside, members, rest);
    var b, d := OpeningIs(colon, ':', inside, r, rest);
    var a;
    a, t := PartIs(s, k, afterKey, d, rest);
  }

  /** The value of a member and what follows it: more members, or the end. */
  lemma {:induction false} ValueIsWritten(s: string, members: Members, rest: string) returns (r: string)
    requires members.Member? && Decode(s).Some? && Decode(s).value.0 == members.value
    requires var after := Skip(Decode(s).value.1);
      && after != ""
      && (if after[0] == '}' then members.rest.NoMembers? && after[1..] == rest
          else after[0] == ',' && DecodeMembers(Skip(after[1..])) == Some((members.rest, rest)))
    ensures s == r + rest
    ensures exists w, a, more :: Parts(r, w, a, more) && Writes(members.value, w) && MoreMembers(members.rest, more)
    decreases |s|, 2
  {
    var (v, afterValue) := Decode(s).value;
    var w := ReadIsWritten(s, v, afterValue);
    var after := Skip(afterValue);
    var more, b, a := "}", "", "";
    if after[0] == ',' {
      var next := MembersAreWritten(Skip(after[1..]), members.rest, rest);
      b, more := OpeningIs(after, ',', Skip(after[1..]), next, rest);
    }
    a, r := PartIs(s, w, afterValue, more, rest);
  }

  /** A value other than a bare number is read exactly where the grammar writes it, with nothing read
      beyond its text. */
  lemma DecodeMeans(s: string, v: Json, rest: string)
    requires !v.Number?
    ensures Decode(s) == Some((v, rest)) <==> exists t :: s == t + rest && Writes(v, t)
  {
    if Decode(s) == Some((v, rest)) {
      var t := ReadIsWritten(s, v, rest);
    }
    if t :| s == t + rest && Writes(v, t) {
      WrittenIsRead(v, t, rest);
    }
  }

  // --- the printed text is one of them ------------------------------------------------------------------

  /** Every number is a literal. */
  ghost predicate Valid(v: Json) {
    match v
    case Number(literal) => IsLiteral(literal)
    case Array(items) => ValidItems(items)
    case Object(members) => ValidMembers(members)
    case _ => true
  }

  ghost predicate ValidItems(items: Items) {
    items.Item? ==> Valid(items.value) && ValidItems(items.rest)
  }

  ghost predicate ValidMembers(members: Members) {
    members.Member? ==> Valid(members.value) && ValidMembers(members.rest)
  }

  lemma PrintCharSpells(c: char, rest: string)
    ensures Spelling(PrintChar(c), c, rest)
  {
    var p := PrintChar(c);
    if c < ' ' && c != '"' && c != '\\' {
      var a, b := c as int / 16, c as int % 16;
      assert Hex('0', 0) && Hex(HexDigit(a), a) && Hex(HexDigit(b), b);
      assert p[2] == '0' && p[3] == '0' && p[4] == HexDigit(a) && p[5] == HexDigit(b);
      assert c as int == ((0 * 16 + 0) * 16 + a) * 16 + b;
      assert Coded(p, c as int);
    }
  }

  lemma {:induction false} PrintSpells(s: string)
    ensures Spells(PrintChars(s), s)
  {
    if s != "" {
      var p, q := PrintChar(s[0]), PrintChars(s[1..]);
      PrintSpells(s[1..]);
      PrintCharSpells(s[0], q);
      SpellsCons(p, q, s);
    }
  }

  lemma PrintQuotes(s: string)
    ensures Quotes(PrintString(s), s)
  {
    PrintSpells(s);
    assert PrintString(s)[1..|PrintString(s)| - 1] == PrintChars(s);
  }

  lemma {:induction false} PrintWrites(v: Json)
    requires Valid(v)
    ensures Writes(v, Print(v))
    decreases v, 0
  {
    match v
    case Text(s) => PrintQuotes(s);
    case Array(items) =>
      if items.Item? {
        PrintWritesItems(items);
      }
      OpenWrites(Print(v), '[', if items.NoItems? then "]" else PrintItems(items));
    case Object(members) =>
      if members.Member? {
        PrintWritesMembers(members);
      }
      OpenWrites(Print(v), '{', if members.NoMembers? then "}" else PrintMembers(members));
    case _ =>
  }

  lemma OpenWrites(t: string, c: char, r: string)
    requires t == [c] + r
    ensures Opens(t, c, "", r)
  {
    assert "" + r == r;
  }

  lemma CommaWrites(t: string, c: char, r: string)
    requires t == [c, ' '] + r
    ensures Opens(t, c, " ", r)
  {
    assert [c, ' '] + r == [c] + (" " + r);
  }

  lemma PartWrites(t: string, first: string, r: string)
    requires t == first + r
    ensures Parts(t, first, "", r)
  {
    assert "" + r == r;
  }

  lemma {:induction false} PrintWritesItems(items: Items)
    requires items.Item? && ValidItems(items)
    ensures WritesItems(items, PrintItems(items))
    decreases items, 1
  {
    PrintWrites(items.value);
    var more := if items.rest.NoItems? then "]" else ", " + PrintItems(items.rest);
    if items.rest.Item? {
      PrintWritesItems(items.rest);
      CommaWrites(more, ',', PrintItems(items.rest));
    }
    ItemWrites(items, PrintItems(items), Print(items.value), more);
  }

  lemma ItemWrites(items: Items, t: string, w: string, more: string)
    requires items.Item? && t == w + more && Writes(items.value, w) && MoreItems(items.rest, more)
    ensures WritesItems(items, t)
  {
    PartWrites(t, w, more);
  }

  lemma {:induction false} PrintWritesMembers(members: Members)
    requires members.Member? && ValidMembers(members)
    ensures WritesMembers(members, PrintMembers(members))
    decreases members, 1
  {
    PrintQuotes(members.key);
    PrintWrites(members.value);
    var more := if members.rest.NoMembers? then "}" else ", " + PrintMembers(members.rest);
    if members.rest.Member? {
      PrintWritesMembers(members.rest);
      CommaWrites(more, ',', PrintMembers(members.rest));
    }
    MemberWrites(members, PrintMembers(members), PrintString(members.key), Print(members.value), more);
  }

  lemma MemberWrites(members: Members, t: string, k: string, w: string, more: string)
    requires members.Member? && t == k + (": " + (w + more))
    requires Quotes(k, members.key) && Writes(members.value, w) && MoreMembers(members.rest, more)
    ensures WritesMembers(members, t)
  {
    PartWrites(w + more, w, more);
    CommaWrites(": " + (w + more), ':', w + more);
    assert WritesValue(members, ": " + (w + more));
    PartWrites(t, k, ": " + (w + more));
  }

  /** Decoding a printed value, whatever follows it, gives back the value and what follows; only a
      bare number needs something that ends it. */
  lemma DecodePrint(v: Json, rest: string)
    requires Valid(v) && (v.Number? ==> Ends(rest))
    ensures Decode(Print(v) + rest) == Some((v, rest))
  {
    PrintWrites(v);
    WrittenIsRead(v, Print(v), rest);
  }
}
