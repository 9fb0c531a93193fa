/** Taking the JSON object out of a model's reply (src/quellgeist/agent/actions.py). */
module Actions {
  import opened Wrappers
  import opened JsonText
  import opened JsonGrammar

  datatype Extracted = Found(members: Members) | NoBrace | Undecodable

  /** The object that starts exactly at `k`, if there is one. */
  function ObjectAt(text: string, k: nat): (o: Option<Members>)
    requires k <= |text|
    ensures o.Some? ==> k < |text|
  {
    var value := Decode(text[k..]);
    if k < |text| && text[k] == '{' && value.Some? && value.value.0.Object? then Some(value.value.0.members) else None
  }

  predicate First(text: string, k: nat) {
    k < |text| && ObjectAt(text, k).Some? && forall j :: 0 <= j < k ==> ObjectAt(text, j).None?
  }

  /** The text of this object starts at `k`. */
  ghost predicate WrittenAt(text: string, k: nat, members: Members) {
    k <= |text| && exists t :: t <= text[k..] && Writes(Object(members), t)
  }

  /** Decoding at `k` finds an object exactly where one is written, and that one. */
  lemma ObjectAtMeans(text: string, k: nat, members: Members)
    requires k <= |text|
    ensures ObjectAt(text, k) == Some(members) <==> WrittenAt(text, k, members)
  {
    var s := text[k..];
    if ObjectAt(text, k) == Some(members) {
      var rest := Decode(s).value.1;
      DecodeMeans(s, Object(members), rest);
      var t :| s == t + rest && Writes(Object(members), t);
      assert t <= s;
    }
    if t :| t <= s && Writes(Object(members), t) {
      assert s == t + s[|t|..] && t[0] == '{' && text[k] == s[0];
      DecodeMeans(s, Object(members), s[|t|..]);
    }
  }

  ghost predicate NoneAt(text: string, k: nat) {
    forall members :: !WrittenAt(text, k, members)
  }

  lemma NoObjectMeans(text: string, k: nat)
    requires k <= |text|
    ensures ObjectAt(text, k).None? <==> NoneAt(text, k)
  {
    forall members ensures ObjectAt(text, k) == Some(members) <==> WrittenAt(text, k, members) {
      ObjectAtMeans(text, k, members);
    }
    if ObjectAt(text, k).Some? {
      assert WrittenAt(text, k, ObjectAt(text, k).value);
    }
  }

  /** `str.find` of an opening brace. */
  method FindBrace(text: string, from: nat) returns (k: int)
    requires from <= |text|
    ensures k == -1 ==> forall j :: from <= j < |text| ==> text[j] != '{'
    ensures k != -1 ==> from <= k < |text| && text[k] == '{' && forall j :: from <= j < k ==> text[j] != '{'
  {
    k := from;
    while k < |text|
      invariant from <= k <= |text|
      invariant forall j :: from <= j < k ==> text[j] != '{'
    {
      if text[k] == '{' { return; }
      k := k + 1;
    }
    k := -1;
  }

  /** The leftmost object written in the text. */
  ghost predicate FirstWritten(text: string, members: Members) {
    exists k :: WrittenAt(text, k, members) && NoneBefore(text, k)
  }

  ghost predicate NoneBefore(text: string, k: nat) {
    forall j: nat :: j < k ==> NoneAt(text, j)
  }

  /** What the decoder finds first is what is written first. */
  lemma FirstMeans(text: string, members: Members)
    ensures FirstWritten(text, members) <==> exists k: nat :: First(text, k) && ObjectAt(text, k) == Some(members)
  {
    forall k: nat | k <= |text|
      ensures WrittenAt(text, k, members) <==> ObjectAt(text, k) == Some(members)
      ensures NoneBefore(text, k) <==> forall j :: 0 <= j < k ==> ObjectAt(text, j).None?
    {
      ObjectAtMeans(text, k, members);
      forall j: nat | j < k ensures ObjectAt(text, j).None? <==> NoneAt(text, j) {
        NoObjectMeans(text, j);
      }
    }
  }

  /** `extract_json`: the object at the leftmost brace that begins one; an error exactly when no
      brace does. */
  method ExtractJson(text: string) returns (res: Extracted)
    ensures res.Found? ==> FirstWritten(text, res.members)
    ensures !res.Found? ==> forall k: nat :: NoneAt(text, k)
    ensures res.Found? <==> exists k: nat :: First(text, k)
    ensures res.Found? ==> forall k: nat :: First(text, k) ==> ObjectAt(text, k) == Some(res.members)
    ensures res.NoBrace? <==> '{' !in text
    ensures res.Undecodable? <==> '{' in text && forall k: nat :: k < |text| ==> ObjectAt(text, k).None?
  {
    var start := FindBrace(text, 0);
    if start == -1 {
      NothingWritten(text);
      return NoBrace;
    }
    while start != -1
      invariant start != -1 ==> 0 <= start < |text| && text[start] == '{'
      invariant '{' in text
      invariant forall j :: 0 <= j < |text| && (start == -1 || j < start) ==> ObjectAt(text, j).None?
      decreases if start == -1 then 0 else |text| - start
    {
      var decoded := Decode(text[start..]);
      if decoded.Some? && decoded.value.0.Object? {
        assert First(text, start);
        FirstMeans(text, decoded.value.0.members);
        return Found(decoded.value.0.members);
      }
      var next := FindBrace(text, start + 1);
      start := next;
    }
    NothingWritten(text);
    return Undecodable;
  }

  lemma NothingWritten(text: string)
    requires forall k: nat :: k < |text| ==> ObjectAt(text, k).None?
    ensures forall k: nat :: NoneAt(text, k)
  {
    forall k: nat | k <= |text| ensures NoneAt(text, k) {
      NoObjectMeans(text, k);
    }
  }

  /** A printed object is found behind any preamble in which no object starts, even one that
      reaches into it, and before any suffix. */
  lemma PrintedIsFound(preamble: string, members: Members, suffix: string)
    requires ValidMembers(members)
    ensures var text := preamble + Print(Object(members)) + suffix;
      && ObjectAt(text, |preamble|) == Some(members)
      && (First(text, |preamble|) <==> forall j :: 0 <= j < |preamble| ==> ObjectAt(text, j).None?)
  {
    var text := preamble + Print(Object(members)) + suffix;
    assert text[|preamble|..] == Print(Object(members)) + suffix;
    assert Print(Object(members))[0] == '{';
    DecodePrint(Object(members), suffix);
  }

  /** In particular behind any preamble without a brace. */
  lemma ExtractPrinted(preamble: string, members: Members, suffix: string)
    requires ValidMembers(members) && '{' !in preamble
    ensures var text := preamble + Print(Object(members)) + suffix;
      First(text, |preamble|) && ObjectAt(text, |preamble|) == Some(members)
  {
    var text := preamble + Print(Object(members)) + suffix;
    PrintedIsFound(preamble, members, suffix);
    forall j | 0 <= j < |preamble| ensures ObjectAt(text, j).None? {
      assert text[j] == preamble[j];
    }
  }
}
