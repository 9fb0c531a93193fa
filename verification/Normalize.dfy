/** Field normalisation (src/quellgeist/ingest/normalize.py): timestamps and levels. Epochs are
    whole numbers; texts outside the profile of section 5.6 of RFC 3339 that is read here go to an
    arbitrary reader. */
module Normalize {
  import opened Wrappers
  import opened Strings
  import opened Timestamps
  import opened TimeText
  import opened IsoText

  /** A raw field value. */
  datatype Value = Missing | Flag(b: bool) | Number(n: int) | Text(s: string) | Other(repr: string)

  /** What `float` makes of a text: nothing (or no number), a number, or an infinity. */
  datatype Numeral = NoNumeral | Whole(n: int) | Infinite

  /** A text that is not canonical, with nothing to strip. */
  type Uncanonical = s: string | s != "" && Stripped(s) && Parse(s).None? witness "?"

  /** The library's readers for everything else: an ISO-8601 text as the second its instant falls
      in, a numeric text, and a text that `int` accepts. And the platform: the seconds it can
      count, for which a year out of range is a ValueError and not an OverflowError or OSError, and
      what `strftime` makes of the years 1 to 999. */
  datatype Library = Library(
    iso: string -> Option<int>,
    numeric: string -> Numeral,
    whole: string -> Option<int>,
    counts: int -> bool,
    early: int -> Uncanonical)

  // --- epochs -----------------------------------------------------------------------------

  const SWITCH := 100_000_000_000

  predicate Milliseconds(n: int) {
    n >= SWITCH || n <= -SWITCH
  }

  /** The second an epoch number falls in; the division floors. */
  function Second(n: int): int {
    if Milliseconds(n) then n / 1000 else n
  }

  /** The first second of year 1. */
  const FIRST_EPOCH := -62_135_596_800

  /** An instant of the years 1 to 999. */
  predicate IsEarly(second: int) {
    FIRST_EPOCH <= second < MIN_EPOCH
  }

  function Written(lib: Library, second: int): Option<string> {
    if InRange(second) then Some(Format(FromEpoch(second)))
    else if IsEarly(second) then Some(lib.early(second))
    else None
  }

  /** `_from_epoch`; None when the instant's year is not one of 1 to 9999. */
  function FromNumber(lib: Library, n: int): Option<string> {
    Written(lib, Second(n))
  }

  lemma EarlyDiffers(lib: Library, second: int, c: Civil)
    requires c.Valid()
    ensures lib.early(second) != Format(c)
  {
    ParseFormat(c);
  }

  lemma WrittenIs(lib: Library, second: int, c: Civil)
    requires c.Valid()
    ensures Written(lib, second) == Some(Format(c)) <==> second == Epoch(c)
  {
    FromEpochInverts(c);
    if InRange(second) {
      StringOrderIsTimeOrder(FromEpoch(second), c);
    } else {
      EarlyDiffers(lib, second, c);
    }
  }

  /** Exactly the numbers whose reading raises: past year 9999 in milliseconds, before year 1 in
      seconds (a hole just inside the switch), and before year 1 in milliseconds. */
  lemma NumbersThatRaise(lib: Library, n: int)
    ensures FromNumber(lib, n).None? <==>
      n >= 253_402_300_800_000 || -100_000_000_000 < n < -62_135_596_800 || n < -62_135_596_800_000
  {
    if Milliseconds(n) {
      assert 1000 * (n / 1000) <= n < 1000 * (n / 1000) + 1000;
    }
  }

  /** Reading an epoch in seconds gives back the instant it counts, exactly on the near side of
      the switch. */
  lemma SecondsInvert(lib: Library, c: Civil)
    requires c.Valid()
    ensures FromNumber(lib, Epoch(c)) == Some(Format(c)) <==> !Milliseconds(Epoch(c))
  {
    WrittenIs(lib, Second(Epoch(c)), c);
  }

  /** Reading an epoch in milliseconds gives back the second it falls in, exactly on the far side
      of the switch, except for the two numbers that mean the same either way. */
  lemma MillisecondsInvert(lib: Library, c: Civil, ms: int)
    requires c.Valid() && 0 <= ms < 1000
    ensures var n := 1000 * Epoch(c) + ms;
      FromNumber(lib, n) == Some(Format(c)) <==> Milliseconds(n) || n == 0 || n == -1
  {
    var e := Epoch(c);
    WrittenIs(lib, Second(1000 * e + ms), c);
    assert (1000 * e + ms) / 1000 == e;
  }

  /** The whole order of epoch readings: it is the order of the numbers, except that a number of
      seconds close below the switch reads later than milliseconds not far above it, and the
      mirror image below zero. */
  lemma EpochOrderExactly(lib: Library, m: int, n: int)
    requires m < n && InRange(Second(m)) && InRange(Second(n))
    ensures LexLess(FromNumber(lib, n).value, FromNumber(lib, m).value) <==>
      || (-SWITCH < m < SWITCH <= n && n / 1000 < m)
      || (m <= -SWITCH < n < SWITCH && n < m / 1000)
  {
    StringOrderIsTimeOrder(FromEpoch(Second(n)), FromEpoch(Second(m)));
    if m >= SWITCH || n <= -SWITCH {
      assert m / 1000 <= n / 1000;
    }
  }

  /** The two sides of the switch really do overlap: a second in 2050 reads later than a
      millisecond count of 1973. */
  lemma SwitchIsNotMonotone(lib: Library)
    ensures var m, n := 2_524_608_000, SWITCH;
      && m < n && FromNumber(lib, m).Some? && FromNumber(lib, n).Some?
      && LexLess(FromNumber(lib, n).value, FromNumber(lib, m).value)
  {
    EpochOrderExactly(lib, 2_524_608_000, SWITCH);
  }

  // --- texts ----------------------------------------------------------------------------------

  /** The second a canonical text denotes. */
  function Instant(s: string): Option<int> {
    if Parse(s).Some? then Some(Epoch(Parse(s).value)) else None
  }

  function Iso(lib: Library, s: string): Option<int> {
    if Profile(Instant, s).Some? then Profile(Instant, s) else lib.iso(s)
  }

  /** A numeric text: here a ValueError is caught and gives the text back, other errors are not. */
  function FromNumeral(lib: Library, s: string): Option<string> {
    match lib.numeric(s)
    case NoNumeral => Some(s)
    case Infinite => None
    case Whole(n) => if FromNumber(lib, n).Some? || !lib.counts(Second(n)) then FromNumber(lib, n) else Some(s)
  }

  /** `normalize_ts` on a text that is already stripped; None when it raises. */
  function NormalizeText(lib: Library, s: string): Option<string> {
    if s == "" then Some("")
    else if Parse(s).Some? then Some(s)
    else if Iso(lib, Unzulu(s)).Some? then Written(lib, Iso(lib, Unzulu(s)).value)
    else FromNumeral(lib, s)
  }

  /** `str(value)`, with Python's names for the constants. */
  function Shown(v: Value): string {
    match v
    case Missing => "None"
    case Flag(b) => if b then "True" else "False"
    case Number(n) => Decimal(n)
    case Text(s) => s
    case Other(repr) => repr
  }

  function NormalizeTs(lib: Library, v: Value): Option<string> {
    match v
    case Missing => Some("")
    case Number(n) => FromNumber(lib, n)
    case _ => NormalizeText(lib, Strip(Shown(v)))
  }

  lemma WrittenIsCanonical(lib: Library, second: int)
    requires InRange(second)
    ensures Parse(Written(lib, second).value).Some? && Epoch(Parse(Written(lib, second).value).value) == second
    ensures var s := Written(lib, second).value; s != "" && Strip(s) == s
  {
    var c := FromEpoch(second);
    ParseFormat(c);
    FormatAt(c);
    assert Two(c.y / 100)[0] == Format(c)[0];
  }

  /** What the platform writes for the years 1 to 999 reads back as that instant, or as nothing. */
  ghost predicate RereadsEarly(lib: Library) {
    forall t :: IsEarly(t) ==> EarlyRereads(lib, t, lib.early(t))
  }

  predicate EarlyRereads(lib: Library, t: int, s: string) {
    var iso := Iso(lib, Unzulu(s));
    if iso.Some? then iso.value == t else lib.numeric(s).NoNumeral?
  }

  /** There are such platforms: one whose early texts nothing reads. */
  lemma SomePlatformRereads(e: Uncanonical)
    requires |e| < 14
    ensures RereadsEarly(Library(_ => None, _ => NoNumeral, _ => None, _ => true, _ => e))
  {
    var lib := Library(_ => None, _ => NoNumeral, _ => None, _ => true, _ => e);
    assert |Unzulu(e)| < 19;
    assert Iso(lib, Unzulu(e)).None?;
  }

  predicate EarlyText(lib: Library, s: string) {
    var iso, n := Iso(lib, Unzulu(s)), lib.numeric(s);
    && s != "" && Parse(s).None?
    && if iso.Some? then IsEarly(iso.value) else n.Whole? && IsEarly(Second(n.n))
  }

  /** The value is a timestamp of the years 1 to 999. */
  predicate Early(lib: Library, v: Value) {
    match v
    case Missing => false
    case Number(n) => IsEarly(Second(n))
    case _ => EarlyText(lib, Strip(Shown(v)))
  }

  lemma WrittenRereads(lib: Library, second: int)
    requires (IsEarly(second) ==> RereadsEarly(lib)) && Written(lib, second).Some?
    ensures var s := Written(lib, second).value; s != "" && Strip(s) == s && NormalizeText(lib, s) == Some(s)
  {
    if InRange(second) {
      WrittenIsCanonical(lib, second);
    } else {
      assert EarlyRereads(lib, second, lib.early(second));
    }
  }

  lemma NormalizeTextTwice(lib: Library, s: string)
    requires (EarlyText(lib, s) ==> RereadsEarly(lib)) && Stripped(s) && NormalizeText(lib, s).Some?
    ensures var once := NormalizeText(lib, s).value;
      && NormalizeText(lib, once) == Some(once) && Strip(once) == once
      && (Parse(s).Some? ==> once == s)
  {
    if s != "" && Parse(s).None? {
      var iso, n := Iso(lib, Unzulu(s)), lib.numeric(s);
      if iso.Some? {
        WrittenRereads(lib, iso.value);
      } else if n.Whole? && FromNumber(lib, n.n).Some? {
        WrittenRereads(lib, Second(n.n));
      }
    }
  }

  /** Canonical texts are fixed, and normalising twice is normalising once; only for a timestamp of
      the years 1 to 999 does that depend on the platform. */
  lemma NormalizeTsTwice(lib: Library, v: Value)
    requires (Early(lib, v) ==> RereadsEarly(lib)) && NormalizeTs(lib, v).Some?
    ensures var once := NormalizeTs(lib, v).value;
      && NormalizeTs(lib, Text(once)) == Some(once)
      && (v.Text? && Parse(v.s).Some? ==> once == v.s)
  {
    if v.Number? {
      WrittenRereads(lib, Second(v.n));
    } else if !v.Missing? {
      NormalizeTextTwice(lib, Strip(Shown(v)));
      if v.Text? && Parse(v.s).Some? {
        assert !IsSpace(v.s[0]) && !IsSpace(v.s[19]);
      }
    }
  }

  // --- offset texts keep their instant --------------------------------------------------------

  function Head(c: Civil, sep: char): (s: string)
    requires c.Valid()
    ensures |s| == 19
  {
    Format(c)[..10] + [sep] + Format(c)[11..19]
  }

  /** A date and time with any one-character separator, any fraction and any zone. */
  function Stamp(c: Civil, sep: char, fraction: string, zone: Zone): string
    requires c.Valid() && zone.Valid()
  {
    Head(c, sep) + Tail(fraction, zone)
  }

  lemma HeadReads(c: Civil, sep: char)
    requires c.Valid()
    ensures var h := Head(c, sep);
      && Instant(h[..10] + ['T'] + h[11..] + ['Z']) == Some(Epoch(c))
      && IsDigit(h[0]) && IsDigit(h[18])
  {
    var f, h := Format(c), Head(c, sep);
    FormatAt(c);
    ParseFormat(c);
    assert f == f[..10] + [f[10]] + f[11..19] + [f[19]];
    assert h[..10] == f[..10] && h[11..] == f[11..19];
    assert IsDigit(f[0]) && IsDigit(f[18]);
  }

  /** A canonical text of the given instant. */
  predicate Denotes(r: Option<string>, second: int) {
    r.Some? && Instant(r.value) == Some(second)
  }

  /** A canonical text of the given instant where it has one, and in any case what is written
      for it; so a raise exactly when its year is none of 1 to 9999. */
  predicate Keeps(lib: Library, r: Option<string>, second: int) {
    r == Written(lib, second) && (InRange(second) ==> Denotes(r, second))
  }

  lemma InstantIsStrict()
    ensures Strict(Instant)
  {
  }

  lemma HeadReadsAs(head: string, s: string, t: int, fraction: string, zone: Zone, second: int)
    requires |head| == 19 && IsDigit(head[0]) && IsDigit(head[18])
    requires Instant(head[..10] + ['T'] + head[11..] + ['Z']) == Some(t)
    requires zone.Valid() && Digits(fraction) && s == head + Tail(fraction, zone)
    requires second == t - zone.Ahead()
    ensures s != "" && Stripped(s) && Reads(Instant, s, second)
  {
    InstantIsStrict();
    StampReads(Instant, s, head, t, fraction, zone);
    StampIsText(s, head, fraction, zone);
  }

  lemma NormalizeStripped(lib: Library, s: string)
    requires s != "" && Stripped(s)
    ensures NormalizeTs(lib, Text(s)) == NormalizeText(lib, s)
  {
    assert Strip(s) == s;
  }

  /** A text that reads as an instant is written as that instant, or raises. */
  lemma ReadIsWritten(lib: Library, s: string, second: int)
    requires s != "" && Reads(Instant, s, second)
    ensures Keeps(lib, NormalizeText(lib, s), second)
  {
    if Instant(s).None? {
      assert NormalizeText(lib, s) == Written(lib, second);
      if InRange(second) {
        WrittenIsCanonical(lib, second);
      }
    } else {
      CanonicalIsKept(lib, s, Parse(s).value);
    }
  }

  lemma CanonicalIsKept(lib: Library, s: string, c: Civil)
    requires Parse(s) == Some(c)
    ensures Written(lib, Epoch(c)) == Some(s)
  {
    FormatParse(s);
    WrittenIs(lib, Epoch(c), c);
  }

  lemma TextKeepsInstant(lib: Library, s: string, second: int, r: Option<string>)
    requires s != "" && Stripped(s) && Reads(Instant, s, second) && r == NormalizeTs(lib, Text(s))
    ensures Keeps(lib, r, second)
  {
    NormalizeStripped(lib, s);
    ReadIsWritten(lib, s, second);
  }

  lemma StampReadsAs(c: Civil, sep: char, fraction: string, zone: Zone, s: string, second: int)
    requires c.Valid() && zone.Valid() && Digits(fraction) && s == Stamp(c, sep, fraction, zone)
    requires second == Epoch(c) - zone.Ahead()
    ensures s != "" && Stripped(s) && Reads(Instant, s, second)
  {
    HeadReads(c, sep);
    HeadReadsAs(Head(c, sep), s, Epoch(c), fraction, zone, second);
  }

  /** Whatever the separator, the fraction and the offset: the result is the canonical text of
      the same instant, floored to the second, and reading raises exactly when there is none. */
  lemma OffsetsKeepTheirInstant(lib: Library, c: Civil, sep: char, fraction: string, zone: Zone, s: string, second: int,
                                r: Option<string>)
    requires c.Valid() && zone.Valid() && Digits(fraction) && s == Stamp(c, sep, fraction, zone)
    requires second == Epoch(c) - zone.Ahead() && r == NormalizeTs(lib, Text(s))
    ensures Keeps(lib, r, second)
  {
    StampReadsAs(c, sep, fraction, zone, s, second);
    TextKeepsInstant(lib, s, second, r);
  }

  // --- exactly when a timestamp raises --------------------------------------------------------

  predicate NoYear(second: int) {
    second < FIRST_EPOCH || second > MAX_EPOCH
  }

  /** An instant outside the calendar, or a number no instant can be made of. */
  predicate TextRaises(lib: Library, s: string) {
    var iso, n := Iso(lib, Unzulu(s)), lib.numeric(s);
    && s != "" && Parse(s).None?
    && (iso.Some? ==> NoYear(iso.value))
    && (iso.None? ==> n.Infinite? || (n.Whole? && NoYear(Second(n.n)) && !lib.counts(Second(n.n))))
  }

  predicate Raises(lib: Library, v: Value) {
    match v
    case Missing => false
    case Number(n) => n >= 253_402_300_800_000 || -100_000_000_000 < n < -62_135_596_800 || n < -62_135_596_800_000
    case _ => TextRaises(lib, Strip(Shown(v)))
  }

  lemma NormalizeTsRaises(lib: Library, v: Value)
    ensures NormalizeTs(lib, v).None? <==> Raises(lib, v)
  {
    if v.Number? {
      NumbersThatRaise(lib, v.n);
    }
  }

  /** So reading is not total: a count of microseconds of any time since mid-January 1978 raises. */
  lemma MicrosecondsRaise(lib: Library, v: Value)
    requires v.Number? && v.n >= 1_000_000 * 253_402_301
    ensures NormalizeTs(lib, v).None?
  {
    NormalizeTsRaises(lib, v);
  }

  /** And raising is not a matter of size: there are readable numbers on both sides of the hole. */
  lemma HoleInsideSwitch(lib: Library, far: int, within: int, near: int)
    requires -62_135_596_800_000 <= far <= -SWITCH < within < FIRST_EPOCH <= near < 0
    ensures far < within < near && FromNumber(lib, within).None?
    ensures FromNumber(lib, far).Some? && FromNumber(lib, near).Some?
  {
    NumbersThatRaise(lib, far);
    NumbersThatRaise(lib, within);
    NumbersThatRaise(lib, near);
  }

  /** So does the last hour of the calendar with an offset behind UTC. */
  lemma LastHourRaises(lib: Library, s: string, r: Option<string>)
    requires s == "9999-12-31T23:59:59-01:00" && r == NormalizeTs(lib, Text(s))
    ensures r.None?
  {
    var c, zone := Civil(9999, 12, 31, 23, 59, 59), Shift(false, 1, 0, None);
    RangeEnds();
    LastHourText(c, zone);
    BehindRaises(lib, c, zone, s, r);
  }

  lemma LastHourText(c: Civil, zone: Zone)
    requires c == Civil(9999, 12, 31, 23, 59, 59) && zone == Shift(false, 1, 0, None)
    ensures Stamp(c, 'T', "", zone) == "9999-12-31T23:59:59-01:00"
  {
    LastSecondText(c);
    assert Tail("", zone) == "-01:00";
    assert Format(c)[..10] == "9999-12-31" && Format(c)[11..19] == "23:59:59";
  }

  lemma LastSecondText(c: Civil)
    requires c == Civil(9999, 12, 31, 23, 59, 59)
    ensures Format(c) == "9999-12-31T23:59:59Z"
  {
    var s := "9999-12-31T23:59:59Z";
    assert Shaped(s) && Pair(s, 0) == 99 && Pair(s, 5) == 12 && Pair(s, 11) == 23;
    assert Fields(s) == c;
    FormatParse(s);
  }

  lemma BehindRaises(lib: Library, c: Civil, zone: Zone, s: string, r: Option<string>)
    requires c.Valid() && Epoch(c) == MAX_EPOCH && zone.Valid() && zone.Ahead() < 0
    requires s == Stamp(c, 'T', "", zone) && r == NormalizeTs(lib, Text(s))
    ensures r.None?
  {
    OffsetsKeepTheirInstant(lib, c, 'T', "", zone, s, Epoch(c) - zone.Ahead(), r);
  }

  // --- levels -------------------------------------------------------------------------------

  /** The vocabulary's level that a lower-case synonym folds onto. */
  function Folded(s: string): Option<string> {
    if s in ["err", "error", "fatal", "crit", "critical", "emerg", "alert"] then Some("ERROR")
    else if s in ["warn", "warning"] then Some("WARNING")
    else if s in ["notice", "info", "information"] then Some("INFO")
    else if s in ["debug", "trace"] then Some("DEBUG")
    else None
  }

  function NormalizeLevel(v: Value): string {
    if v.Missing? || Strip(Shown(v)) == "" then "INFO"
    else LevelOf(Strip(Shown(v)))
  }

  function LevelOf(s: string): string {
    if Folded(Lower(s)).Some? then Folded(Lower(s)).value else Upper(s)
  }

  lemma LevelsFold(level: string)
    requires level == "ERROR" || level == "WARNING" || level == "INFO" || level == "DEBUG"
    ensures Folded(Lower(level)) == Some(level) && Stripped(level)
  {
    if level == "ERROR" {
      assert Lower(level) == "error" == ["err", "error", "fatal", "crit", "critical", "emerg", "alert"][1];
    } else if level == "WARNING" {
      assert Lower(level) == "warning" == ["warn", "warning"][1];
    } else if level == "INFO" {
      assert Lower(level) == "info" == ["notice", "info", "information"][1];
    } else {
      assert Lower(level) == "debug" == ["debug", "trace"][0];
    }
  }

  lemma LevelOfTwice(s: string)
    requires s != "" && Stripped(s)
    ensures LevelOf(LevelOf(s)) == LevelOf(s) && LevelOf(s) != "" && Stripped(LevelOf(s))
  {
    if Folded(Lower(s)).Some? {
      LevelsFold(LevelOf(s));
    } else {
      CaseTwice(s);
    }
  }

  lemma NormalizeLevelTwice(v: Value)
    ensures NormalizeLevel(Text(NormalizeLevel(v))) == NormalizeLevel(v)
  {
    var once := NormalizeLevel(v);
    if v.Missing? || Strip(Shown(v)) == "" {
      LevelsFold("INFO");
    } else {
      LevelOfTwice(Strip(Shown(v)));
    }
    assert Strip(once) == once;
  }

  predicate ErrorWord(s: string) {
    s == "err" || s == "error" || s == "fatal" || s == "crit" || s == "critical" || s == "emerg" || s == "alert"
  }

  /** Which level every text becomes: the seven words for an error, the two for a warning, the three
      for information (and nothing at all), the two for debugging, in any case and with any white
      space around them; every other text is upper-cased. */
  lemma LevelsMean(v: Value)
    requires v.Text? || v.Missing?
    ensures var s, level := if v.Text? then Strip(v.s) else "", NormalizeLevel(v);
      var word := Lower(s);
      && (level == "ERROR" <==> ErrorWord(word))
      && (level == "WARNING" <==> word == "warn" || word == "warning")
      && (level == "INFO" <==> word == "" || word == "notice" || word == "info" || word == "information")
      && (level == "DEBUG" <==> word == "debug" || word == "trace")
      && (level == "ERROR" || level == "WARNING" || level == "INFO" || level == "DEBUG" || level == Upper(s))
  {
    var s := if v.Text? then Strip(v.s) else "";
    LowerOfUpper(s);
    if s != "" {
      LevelOfMeans(s);
    }
  }

  lemma LowerOfUpper(s: string)
    ensures Lower(Upper(s)) == Lower(s) && (s != "" <==> Lower(s) != "")
    ensures Lower("ERROR") == "error" && Lower("WARNING") == "warning" && Lower("INFO") == "info"
      && Lower("DEBUG") == "debug"
  {
    CaseTwice(s);
  }

  lemma LevelOfMeans(s: string)
    ensures var level, word := LevelOf(s), Lower(s);
      && (level == "ERROR" <==> ErrorWord(word))
      && (level == "WARNING" <==> word == "warn" || word == "warning")
      && (level == "INFO" <==> word == "notice" || word == "info" || word == "information")
      && (level == "DEBUG" <==> word == "debug" || word == "trace")
      && (Folded(word).None? ==> level == Upper(s))
      && (Folded(word).Some? ==> level == "ERROR" || level == "WARNING" || level == "INFO" || level == "DEBUG")
  {
    FoldedMeans(Lower(s));
    LowerOfUpper(s);
  }

  lemma FoldedMeans(word: string)
    ensures Folded(word) ==
      if ErrorWord(word) then Some("ERROR")
      else if word == "warn" || word == "warning" then Some("WARNING")
      else if word == "notice" || word == "info" || word == "information" then Some("INFO")
      else if word == "debug" || word == "trace" then Some("DEBUG")
      else None
  {
    var errors := ["err", "error", "fatal", "crit", "critical", "emerg", "alert"];
    assert word in errors <==> ErrorWord(word) by {
      assert errors[0] == "err" && errors[1] == "error" && errors[2] == "fatal" && errors[3] == "crit"
        && errors[4] == "critical" && errors[5] == "emerg" && errors[6] == "alert";
    }
    var infos := ["notice", "info", "information"];
    assert infos[0] == "notice" && infos[1] == "info" && infos[2] == "information";
    assert ["warn", "warning"][0] == "warn" && ["warn", "warning"][1] == "warning";
    assert ["debug", "trace"][0] == "debug" && ["debug", "trace"][1] == "trace";
  }
}
