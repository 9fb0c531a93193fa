/** Date-times with an offset: `date <any separator> time [fraction] [offset]`, the profile of
    section 5.6 of RFC 3339 that `datetime.fromisoformat` reads, over an arbitrary reader of
    canonical texts. */
module IsoText {
  import opened Wrappers
  import opened Strings
  import opened TimeText

  /** A reader of canonical texts: the second such a text denotes. */
  type Dates = string -> Option<int>

  ghost predicate Strict(date: Dates) {
    forall s :: date(s).Some? ==> |s| == 20 && s[10] == 'T' && s[19] == 'Z'
  }

  /** The position after the digits that start at `i`. */
  function SkipDigits(s: string, i: nat): (j: nat)
    requires i <= |s|
    ensures i <= j <= |s|
    decreases |s| - i
  {
    if i < |s| && IsDigit(s[i]) then SkipDigits(s, i + 1) else i
  }

  /** An optional fraction of a second, starting at `i`; None when the point has no digits. */
  function AfterFraction(s: string, i: nat): (j: Option<nat>)
    requires i <= |s|
    ensures j.Some? ==> i <= j.value <= |s|
  {
    if i < |s| && (s[i] == '.' || s[i] == ',') then
      (if SkipDigits(s, i + 1) == i + 1 then None else Some(SkipDigits(s, i + 1)))
    else Some(i)
  }

  /** An offset in seconds: nothing, or a sign, hours, minutes and perhaps seconds, starting at `i`. */
  function Offset(s: string, i: nat): Option<int>
    requires i <= |s|
  {
    if i == |s| then Some(0)
    else if i + 6 <= |s| && (s[i] == '+' || s[i] == '-') && TwoDigits(s, i + 1) && s[i + 3] == ':'
      && TwoDigits(s, i + 4) && Pair(s, i + 1) < 24 && Pair(s, i + 4) < 60 && OffsetSeconds(s, i + 6).Some?
    then
      var seconds := 3600 * Pair(s, i + 1) + 60 * Pair(s, i + 4) + OffsetSeconds(s, i + 6).value;
      Some(if s[i] == '+' then seconds else -seconds)
    else None
  }

  function OffsetSeconds(s: string, i: nat): Option<int>
    requires i <= |s|
  {
    if i == |s| then Some(0)
    else if |s| == i + 3 && s[i] == ':' && TwoDigits(s, i + 1) && Pair(s, i + 1) < 60 then Some(Pair(s, i + 1))
    else None
  }

  /** `date <any separator> time [fraction] [offset]`, read as the second its instant falls in. */
  function Profile(date: Dates, s: string): Option<int> {
    if |s| < 19 then None
    else
      var stem := s[..10] + ['T'] + s[11..19] + ['Z'];
      var at := AfterFraction(s, 19);
      if date(stem).None? || at.None? || Offset(s, at.value).None? then None
      else Some(date(stem).value - Offset(s, at.value).value)
  }

  function Unzulu(s: string): string {
    if s != "" && (s[|s| - 1] == 'Z' || s[|s| - 1] == 'z') then s[..|s| - 1] + "+00:00" else s
  }

  // --- stamps ---------------------------------------------------------------------------------

  datatype Zone = Local | Zulu(lower: bool) | Shift(east: bool, hours: int, minutes: int, seconds: Option<int>)
  {
    predicate Valid() {
      Shift? ==> 0 <= hours < 24 && 0 <= minutes < 60 && (seconds.Some? ==> 0 <= seconds.value < 60)
    }

    /** Seconds ahead of UTC. */
    function Ahead(): int {
      if !Shift? then 0
      else
        var size := 3600 * hours + 60 * minutes + if seconds.Some? then seconds.value else 0;
        if east then size else -size
    }

    function Shown(): string
      requires Valid()
    {
      match this
      case Local => ""
      case Zulu(lower) => if lower then "z" else "Z"
      case Shift(east, hours, minutes, seconds) =>
        [if east then '+' else '-'] + Two(hours) + ":" + Two(minutes)
        + if seconds.Some? then ":" + Two(seconds.value) else ""
    }
  }

  predicate Digits(s: string) {
    forall c <- s :: IsDigit(c)
  }

  function AsOffset(zone: Zone): (offset: Zone)
    requires zone.Valid()
    ensures offset.Valid() && !offset.Zulu? && offset.Ahead() == zone.Ahead()
  {
    if zone.Zulu? then Shift(true, 0, 0, None) else zone
  }

  function Tail(fraction: string, zone: Zone): string
    requires zone.Valid()
  {
    (if fraction == "" then "" else "." + fraction) + zone.Shown()
  }

  lemma {:induction false} SkipsDigits(s: string, i: nat, n: nat)
    requires i + n <= |s| && Digits(s[i..i + n]) && (i + n < |s| ==> !IsDigit(s[i + n]))
    ensures SkipDigits(s, i) == i + n
    decreases n
  {
    if n > 0 {
      assert s[i] in s[i..i + n];
      assert s[i + 1..i + n] == s[i..i + n][1..];
      SkipsDigits(s, i + 1, n - 1);
    }
  }

  lemma ReadsZone(s: string, i: nat, zone: Zone)
    requires i <= |s| && zone.Valid() && !zone.Zulu? && s[i..] == zone.Shown()
    ensures Offset(s, i).Some? && Offset(s, i).value == zone.Ahead()
    ensures zone.Shown() != "" ==> zone.Shown()[0] == '+' || zone.Shown()[0] == '-'
    ensures i < |s| ==> s[i] == '+' || s[i] == '-'
  {
    if zone.Shift? {
      ReadsShift(s, i, zone);
    }
  }

  lemma ReadsShift(s: string, i: nat, zone: Zone)
    requires i <= |s| && zone.Valid() && zone.Shift? && s[i..] == zone.Shown()
    ensures Offset(s, i) == Some(zone.Ahead())
    ensures s[i] == (if zone.east then '+' else '-')
  {
    var t := s[i..];
    assert s[i] == t[0] && s[i + 3] == t[3];
    assert s[i + 1..i + 3] == t[1..3] == Two(zone.hours);
    assert s[i + 4..i + 6] == t[4..6] == Two(zone.minutes);
    PairOfTwo(s, i + 1, zone.hours);
    PairOfTwo(s, i + 4, zone.minutes);
    if zone.seconds.Some? {
      assert s[i + 6] == t[6] && s[i + 7..i + 9] == t[7..9] == Two(zone.seconds.value);
      PairOfTwo(s, i + 7, zone.seconds.value);
    }
  }

  lemma ReadsFraction(head: string, fraction: string, rest: string)
    requires |head| == 19 && fraction != "" && Digits(fraction) && (rest != "" ==> !IsDigit(rest[0]))
    ensures var s := head + ("." + fraction + rest);
      AfterFraction(s, 19) == Some(20 + |fraction|) && s[20 + |fraction|..] == rest
  {
    var s := head + ("." + fraction + rest);
    assert s[19] == '.' && s[20..20 + |fraction|] == fraction;
    SkipsDigits(s, 20, |fraction|);
  }

  lemma ReadsTail(s: string, fraction: string, zone: Zone)
    requires zone.Valid() && !zone.Zulu? && Digits(fraction) && |s| >= 19 && s[19..] == Tail(fraction, zone)
    ensures var at := AfterFraction(s, 19);
      at.Some? && Offset(s, at.value).Some? && Offset(s, at.value).value == zone.Ahead()
  {
    var rest := zone.Shown();
    if fraction == "" {
      assert s[19..] == rest;
      ReadsZone(s, 19, zone);
    } else {
      assert rest != "" ==> !IsDigit(rest[0]) by {
        assert rest[0..] == rest;
        ReadsZone(rest, 0, zone);
      }
      assert s == s[..19] + ("." + fraction + rest);
      ReadsFraction(s[..19], fraction, rest);
      ReadsZone(s, 20 + |fraction|, zone);
    }
  }

  /** A tail with a `Z`, once the code has rewritten it, is the tail with the offset zero. */
  lemma UnzuluTail(head: string, fraction: string, zone: Zone)
    requires |head| == 19 && IsDigit(head[18]) && zone.Valid() && Digits(fraction)
    ensures Unzulu(head + Tail(fraction, zone)) == head + Tail(fraction, AsOffset(zone))
  {
    var s, utc := head + Tail(fraction, zone), Shift(true, 0, 0, None);
    if zone.Zulu? {
      assert utc.Shown() == "+00:00";
      assert s[..|s| - 1] + utc.Shown() == head + Tail(fraction, utc);
    } else {
      TailEnds(head, fraction, zone);
    }
  }

  lemma TailEnds(head: string, fraction: string, zone: Zone)
    requires |head| == 19 && IsDigit(head[18]) && zone.Valid() && Digits(fraction)
    ensures var s := head + Tail(fraction, zone);
      var last := s[|s| - 1];
      if zone.Zulu? then last == 'Z' || last == 'z' else IsDigit(last)
  {
    var s := head + Tail(fraction, zone);
    if zone.Local? && fraction != "" {
      assert s[|s| - 1] == fraction[|fraction| - 1];
      assert fraction[|fraction| - 1] in fraction;
    } else if !zone.Local? {
      assert s[|s| - 1] == zone.Shown()[|zone.Shown()| - 1];
    }
  }

  /** A stamp that is already canonical spells its own date and time. */
  lemma CanonicalStamp(date: Dates, s: string, head: string, fraction: string, zone: Zone)
    requires Strict(date) && |head| == 19 && zone.Valid() && Digits(fraction)
    requires s == head + Tail(fraction, zone) && date(s).Some?
    ensures zone.Ahead() == 0 && s == head[..10] + ['T'] + head[11..] + ['Z']
  {
    assert s == head[..10] + [head[10]] + head[11..] + Tail(fraction, zone);
    assert s[19] == 'Z' && s[10] == head[10] == 'T';
    assert s[19..] == Tail(fraction, zone) && |Tail(fraction, zone)| == 1;
    assert Tail(fraction, zone) == ['Z'];
    assert zone.Zulu?;
  }

  /** As it stands, or with its `Z` as an offset, the text reads as that second. */
  predicate Reads(date: Dates, s: string, second: int) {
    if date(s).Some? then date(s).value == second else Profile(date, Unzulu(s)) == Some(second)
  }

  lemma OffsetIsRead(date: Dates, s: string, head: string, t: int, fraction: string, offset: Zone)
    requires |head| == 19 && date(head[..10] + ['T'] + head[11..] + ['Z']) == Some(t)
    requires offset.Valid() && !offset.Zulu? && Digits(fraction) && s == head + Tail(fraction, offset)
    ensures Profile(date, s) == Some(t - offset.Ahead())
  {
    assert s[..10] == head[..10] && s[11..19] == head[11..] && s[19..] == Tail(fraction, offset);
    ReadsTail(s, fraction, offset);
  }

  lemma UnzuluReads(date: Dates, s: string, head: string, t: int, fraction: string, zone: Zone)
    requires |head| == 19 && date(head[..10] + ['T'] + head[11..] + ['Z']) == Some(t)
    requires zone.Valid() && Digits(fraction) && s == head + Tail(fraction, AsOffset(zone))
    ensures Profile(date, s) == Some(t - zone.Ahead())
  {
    OffsetIsRead(date, s, head, t, fraction, AsOffset(zone));
  }

  /** Whatever the fraction and the zone, a stamp reads as its date and time less the offset. */
  lemma StampReads(date: Dates, s: string, head: string, t: int, fraction: string, zone: Zone)
    requires Strict(date) && |head| == 19 && IsDigit(head[18])
      && date(head[..10] + ['T'] + head[11..] + ['Z']) == Some(t)
    requires zone.Valid() && Digits(fraction) && s == head + Tail(fraction, zone)
    ensures Reads(date, s, t - zone.Ahead())
  {
    if date(s).Some? {
      CanonicalStamp(date, s, head, fraction, zone);
    } else {
      UnzuluTail(head, fraction, zone);
      UnzuluReads(date, Unzulu(s), head, t, fraction, zone);
    }
  }

  predicate Stripped(s: string) {
    s != "" ==> !IsSpace(s[0]) && !IsSpace(s[|s| - 1])
  }

  lemma StampIsText(s: string, head: string, fraction: string, zone: Zone)
    requires |head| == 19 && IsDigit(head[0]) && IsDigit(head[18])
    requires zone.Valid() && Digits(fraction) && s == head + Tail(fraction, zone)
    ensures s != "" && Stripped(s)
  {
    TailEnds(head, fraction, zone);
  }

  // --- nothing else is read as one ----------------------------------------------------------------

  /** The text is 19 characters that denote `second + zone.Ahead()`, then perhaps a point or comma with
      digits, then the offset. */
  ghost predicate IsStamp(date: Dates, s: string, second: int, fraction: string, zone: Zone) {
    && |s| >= 19 && zone.Valid() && !zone.Zulu? && s[19..] == fraction + zone.Shown()
    && date(s[..10] + ['T'] + s[11..19] + ['Z']) == Some(second + zone.Ahead())
    && (fraction == "" || ((fraction[0] == '.' || fraction[0] == ',') && |fraction| > 1 && Digits(fraction[1..])))
  }

  lemma {:induction false} SkipsOnlyDigits(s: string, i: nat)
    requires i <= |s|
    ensures Digits(s[i..SkipDigits(s, i)])
    decreases |s| - i
  {
    if i < |s| && IsDigit(s[i]) {
      SkipsOnlyDigits(s, i + 1);
      assert s[i..SkipDigits(s, i)] == [s[i]] + s[i + 1..SkipDigits(s, i + 1)];
    }
  }

  lemma OffsetIsZone(s: string, i: nat) returns (zone: Zone)
    requires i <= |s| && Offset(s, i).Some?
    ensures zone.Valid() && !zone.Zulu? && s[i..] == zone.Shown() && Offset(s, i) == Some(zone.Ahead())
  {
    if i == |s| {
      zone := Local;
    } else {
      var seconds := if |s| == i + 6 then None else Some(Pair(s, i + 7));
      zone := Shift(s[i] == '+', Pair(s, i + 1), Pair(s, i + 4), seconds);
      assert s[i..i + 6] == [s[i]] + s[i + 1..i + 3] + [s[i + 3]] + s[i + 4..i + 6];
      assert s[i..] == s[i..i + 6] + s[i + 6..];
      if seconds.Some? {
        assert s[i + 6..] == [s[i + 6]] + s[i + 7..i + 9];
      }
    }
  }

  /** Only stamps are read by the profile, and as what they say. */
  lemma OnlyStampsAreRead(date: Dates, s: string) returns (fraction: string, zone: Zone)
    requires Profile(date, s).Some?
    ensures IsStamp(date, s, Profile(date, s).value, fraction, zone)
  {
    var at := AfterFraction(s, 19).value;
    zone := OffsetIsZone(s, at);
    fraction := s[19..at];
    assert s[19..] == s[19..at] + s[at..];
    if fraction != "" {
      SkipsOnlyDigits(s, 20);
      assert fraction[1..] == s[20..at] && fraction[0] == s[19];
    }
  }
}
