/** The canonical timestamp text: writing, reading and comparing it. */
module TimeText {
  import opened Wrappers
  import opened Strings
  import opened Timestamps

  function Digit(n: int): (c: char)
    requires 0 <= n < 10
    ensures '0' <= c <= '9' && c == '0' + n as char
  {
    '0' + n as char
  }

  predicate IsDigit(c: char) {
    '0' <= c <= '9'
  }

  function Value(c: char): int
    requires IsDigit(c)
  {
    (c - '0') as int
  }

  function Two(n: int): (s: string)
    requires 0 <= n < 100
    ensures |s| == 2
  {
    [Digit(n / 10), Digit(n % 10)]
  }

  /** `strftime("%Y-%m-%dT%H:%M:%SZ")`. */
  function Format(c: Civil): (s: string)
    requires c.Valid()
    ensures |s| == 20
  {
    Two(c.y / 100) + (Two(c.y % 100) + (['-'] + (Two(c.mo) + (['-'] + (Two(c.d) + (['T'] +
    (Two(c.h) + ([':'] + (Two(c.mi) + ([':'] + (Two(c.s) + ['Z'])))))))))))
  }

  predicate TwoDigits(s: string, i: nat) {
    i + 1 < |s| && IsDigit(s[i]) && IsDigit(s[i + 1])
  }

  function Pair(s: string, i: nat): (n: int)
    requires TwoDigits(s, i)
    ensures 0 <= n < 100 && Two(n) == s[i..i + 2]
  {
    10 * Value(s[i]) + Value(s[i + 1])
  }

  predicate Shaped(s: string) {
    && |s| == 20
    && s[4] == '-' && s[7] == '-' && s[10] == 'T' && s[13] == ':' && s[16] == ':' && s[19] == 'Z'
    && TwoDigits(s, 0) && TwoDigits(s, 2) && TwoDigits(s, 5) && TwoDigits(s, 8)
    && TwoDigits(s, 11) && TwoDigits(s, 14) && TwoDigits(s, 17)
  }

  function Fields(s: string): Civil
    requires Shaped(s)
  {
    Civil(100 * Pair(s, 0) + Pair(s, 2), Pair(s, 5), Pair(s, 8), Pair(s, 11), Pair(s, 14), Pair(s, 17))
  }

  /** Read back the canonical form; everything else, such as an unpadded or impossible date, is
      not canonical. */
  function Parse(s: string): (r: Option<Civil>)
    ensures r.Some? ==> r.value.Valid()
  {
    if Shaped(s) && Fields(s).Valid() then Some(Fields(s)) else None
  }

  lemma Next(s: string, i: nat, x: string, rest: string)
    requires i <= |s| && s[i..] == x + rest
    ensures i + |x| <= |s| && s[i..i + |x|] == x && s[i + |x|..] == rest
    ensures |x| == 1 ==> s[i] == x[0]
  {
    assert |s| - i == |x| + |rest|;
    assert s[i..i + |x|] == s[i..][..|x|] && s[i + |x|..] == s[i..][|x|..];
    assert |x| == 1 ==> s[i] == s[i..][0];
  }

  lemma FormatAt(c: Civil)
    requires c.Valid()
    ensures var s := Format(c);
      && s[..2] == Two(c.y / 100) && s[2..4] == Two(c.y % 100) && s[4] == '-' && s[5..7] == Two(c.mo) && s[7] == '-'
      && s[8..10] == Two(c.d) && s[10] == 'T' && s[11..13] == Two(c.h) && s[13] == ':' && s[14..16] == Two(c.mi)
      && s[16] == ':' && s[17..19] == Two(c.s) && s[19] == 'Z'
  {
    var s := Format(c);
    var secs := Two(c.s) + ['Z'];
    var mins := Two(c.mi) + ([':'] + secs);
    var time := Two(c.h) + ([':'] + mins);
    var day := Two(c.d) + (['T'] + time);
    var month := Two(c.mo) + (['-'] + day);
    var year := Two(c.y % 100) + (['-'] + month);
    assert s[0..] == s == Two(c.y / 100) + year;
    Next(s, 0, Two(c.y / 100), year);
    Next(s, 2, Two(c.y % 100), ['-'] + month);
    Next(s, 4, ['-'], month);
    Next(s, 5, Two(c.mo), ['-'] + day);
    Next(s, 7, ['-'], day);
    Next(s, 8, Two(c.d), ['T'] + time);
    Next(s, 10, ['T'], time);
    Next(s, 11, Two(c.h), [':'] + mins);
    Next(s, 13, [':'], mins);
    Next(s, 14, Two(c.mi), [':'] + secs);
    Next(s, 16, [':'], secs);
    Next(s, 17, Two(c.s), ['Z']);
  }

  /** A text with the pieces of a written one reads as what was written. */
  lemma PairOfTwo(s: string, i: nat, n: int)
    requires 0 <= n < 100 && i + 2 <= |s| && s[i..i + 2] == Two(n)
    ensures TwoDigits(s, i) && Pair(s, i) == n
  {
    assert s[i] == s[i..i + 2][0] && s[i + 1] == s[i..i + 2][1];
  }

  lemma ParseFormat(c: Civil)
    requires c.Valid()
    ensures Parse(Format(c)) == Some(c)
  {
    var s := Format(c);
    FormatAt(c);
    PairOfTwo(s, 0, c.y / 100);
    PairOfTwo(s, 2, c.y % 100);
    PairOfTwo(s, 5, c.mo);
    PairOfTwo(s, 8, c.d);
    PairOfTwo(s, 11, c.h);
    PairOfTwo(s, 14, c.mi);
    PairOfTwo(s, 17, c.s);
  }

  /** The text that is read is the text that is written: canonical texts are exactly the written
      ones. */
  lemma FormatParse(s: string)
    requires Parse(s).Some?
    ensures Format(Parse(s).value) == s
  {
    var c := Parse(s).value;
    assert c.y / 100 == Pair(s, 0) && c.y % 100 == Pair(s, 2);
    FormatAt(c);
    Pieces(s);
    Pieces(Format(c));
  }

  lemma Pieces(s: string)
    requires |s| == 20
    ensures s == s[..2] + s[2..4] + [s[4]] + s[5..7] + [s[7]] + s[8..10] + [s[10]] + s[11..13] + [s[13]]
                 + s[14..16] + [s[16]] + s[17..19] + [s[19]]
  {
  }

  // --- order ------------------------------------------------------------------------------

  lemma SameHead(c: char, x: string, y: string)
    ensures LexLess([c] + x, [c] + y) <==> LexLess(x, y)
  {
    assert ([c] + x)[1..] == x && ([c] + y)[1..] == y;
  }

  lemma TwoOrder(a: int, b: int, x: string, y: string)
    requires 0 <= a < 100 && 0 <= b < 100
    ensures LexLess(Two(a) + x, Two(b) + y) <==> a < b || (a == b && LexLess(x, y))
  {
    assert (Two(a) + x)[1..] == [Digit(a % 10)] + x && (Two(b) + y)[1..] == [Digit(b % 10)] + y;
    assert ([Digit(a % 10)] + x)[1..] == x && ([Digit(b % 10)] + y)[1..] == y;
  }

  /** One block of the text: a separator and a two-digit field, most significant first. */
  lemma BlockOrder(sep: char, a: int, b: int, x: string, y: string)
    requires 0 <= a < 100 && 0 <= b < 100
    ensures LexLess([sep] + (Two(a) + x), [sep] + (Two(b) + y)) <==> a < b || (a == b && LexLess(x, y))
  {
    SameHead(sep, Two(a) + x, Two(b) + y);
    TwoOrder(a, b, x, y);
  }

  function Clock(c: Civil): string
    requires c.Valid()
  {
    ['T'] + (Two(c.h) + ([':'] + (Two(c.mi) + ([':'] + (Two(c.s) + ['Z'])))))
  }

  lemma ClockOrder(a: Civil, b: Civil)
    requires a.Valid() && b.Valid()
    ensures LexLess(Clock(a), Clock(b)) <==> a.h * 3600 + a.mi * 60 + a.s < b.h * 3600 + b.mi * 60 + b.s
  {
    BlockOrder(':', a.s, b.s, ['Z'], ['Z']);
    BlockOrder(':', a.mi, b.mi, [':'] + (Two(a.s) + ['Z']), [':'] + (Two(b.s) + ['Z']));
    BlockOrder('T', a.h, b.h, [':'] + (Two(a.mi) + ([':'] + (Two(a.s) + ['Z']))),
               [':'] + (Two(b.mi) + ([':'] + (Two(b.s) + ['Z']))));
    assert !LexLess(['Z'], ['Z']);
  }

  /** String order is time order (section 5.1 of RFC 3339). */
  lemma StringOrderIsTimeOrder(a: Civil, b: Civil)
    requires a.Valid() && b.Valid()
    ensures LexLess(Format(a), Format(b)) <==> Epoch(a) < Epoch(b)
    ensures Format(a) == Format(b) <==> Epoch(a) == Epoch(b)
  {
    ClockOrder(a, b);
    BlockOrder('-', a.d, b.d, Clock(a), Clock(b));
    BlockOrder('-', a.mo, b.mo, ['-'] + (Two(a.d) + Clock(a)), ['-'] + (Two(b.d) + Clock(b)));
    var dateA, dateB := ['-'] + (Two(a.mo) + (['-'] + (Two(a.d) + Clock(a)))),
      ['-'] + (Two(b.mo) + (['-'] + (Two(b.d) + Clock(b))));
    TwoOrder(a.y % 100, b.y % 100, dateA, dateB);
    TwoOrder(a.y / 100, b.y / 100, Two(a.y % 100) + dateA, Two(b.y % 100) + dateB);
    assert Format(a) == Two(a.y / 100) + (Two(a.y % 100) + dateA);
    assert Format(b) == Two(b.y / 100) + (Two(b.y % 100) + dateB);
    EpochOrder(a, b);
    ParseFormat(a);
    ParseFormat(b);
  }

  /** The same for canonical texts, in the form the filters use: `ts >= since`. */
  lemma CanonicalOrder(ts: string, since: string)
    requires Parse(ts).Some? && Parse(since).Some?
    ensures !LexLess(ts, since) <==> Epoch(Parse(ts).value) >= Epoch(Parse(since).value)
  {
    FormatParse(ts);
    FormatParse(since);
    StringOrderIsTimeOrder(Parse(ts).value, Parse(since).value);
  }
}
