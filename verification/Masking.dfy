/** Training-example labels and their audit (finetune/rendering.py). One method writes the loss
    labels by span arithmetic, the other finds the spans again from outside. */
module Masking {
  import opened Wrappers
  import opened Loop

  /** A turn of an example; `train` unless the example says it is not to be trained on. */
  datatype Turn = Turn(message: Message, train: bool)

  /** The ids of a rendered conversation, the ids of the assistant header, and decoding. */
  datatype Tokenizer = Tokenizer(ids: seq<Message> -> seq<int>, header: seq<int>, decode: seq<int> -> string)

  datatype Features = Features(ids: seq<int>, labels: seq<int>, mask: seq<int>)

  const IGNORED := -100
  const ASSISTANT_HEADER := "<|im_start|>assistant\n"
  const IM_END := "<|im_end|>"

  predicate Trained(t: Turn) {
    t.message.role.Assistant? && t.train
  }

  predicate StartsWith(s: string, prefix: string) {
    |prefix| <= |s| && s[..|prefix|] == prefix
  }

  predicate Contains(s: string, part: string) {
    exists i :: 0 <= i <= |s| && StartsWith(s[i..], part)
  }

  predicate Clean(content: string) {
    !Contains(content, "<|im_") && !Contains(content, "<think>")
  }

  /** A slice whose bounds may lie anywhere. */
  function Slice(s: seq<int>, from: nat, to: nat): seq<int> {
    var end := if to < |s| then to else |s|;
    if from < end then s[from..end] else []
  }

  /** `strip_train_flags`. */
  function Plain(turns: seq<Turn>): (ms: seq<Message>)
    ensures |ms| == |turns| && forall i :: 0 <= i < |turns| ==> ms[i] == turns[i].message
  {
    seq(|turns|, i requires 0 <= i < |turns| => turns[i].message)
  }

  function Prefix(tok: Tokenizer, turns: seq<Turn>, i: nat): seq<int>
    requires i <= |turns|
  {
    tok.ids(Plain(turns[..i]))
  }

  // --- what rendering checks, and what it writes -----------------------------------------------

  /** Turn `i` renders independently of what follows and opens with the assistant header. */
  predicate Framed(tok: Tokenizer, turns: seq<Turn>, full: seq<int>, i: nat)
    requires i < |turns|
  {
    var start, end := |Prefix(tok, turns, i)|, |Prefix(tok, turns, i + 1)|;
    Slice(full, 0, end) == Prefix(tok, turns, i + 1) && tok.decode(Slice(full, start, start + |tok.header|)) ==
      ASSISTANT_HEADER
  }

  /** The targets of turn `i` decode to its content and the end marker. */
  predicate Targets(tok: Tokenizer, turns: seq<Turn>, full: seq<int>, i: nat)
    requires i < |turns|
  {
    var text := tok.decode(Slice(full, |Prefix(tok, turns, i)| + |tok.header|, |Prefix(tok, turns, i + 1)|));
    StartsWith(text, turns[i].message.content) && Contains(text, IM_END)
  }

  predicate TurnRenders(tok: Tokenizer, turns: seq<Turn>, full: seq<int>, i: nat)
    requires i < |turns|
  {
    turns[i].message.role.Assistant? ==>
      Framed(tok, turns, full, i) && (turns[i].train ==> Targets(tok, turns, full, i))
  }

  predicate Renders(tok: Tokenizer, turns: seq<Turn>, max: int) {
    var full := tok.ids(Plain(turns));
    && (forall t <- turns :: Clean(t.message.content))
    && |full| <= max
    && tok.decode(tok.header) == ASSISTANT_HEADER
    && (forall i :: 0 <= i < |turns| ==> TurnRenders(tok, turns, full, i))
    && (exists t <- turns :: Trained(t))
  }

  // --- the checks, told by what the texts and ids are -------------------------------------------

  ghost predicate Occurs(part: string, s: string) {
    exists before, after :: Holds(s, before, part, after)
  }

  ghost predicate Holds(s: string, before: string, part: string, after: string) {
    s == before + part + after
  }

  lemma ContainsMeans(s: string, part: string)
    ensures Contains(s, part) <==> Occurs(part, s)
  {
    if Contains(s, part) {
      var i :| 0 <= i <= |s| && StartsWith(s[i..], part);
      assert s == s[..i] + s[i..] && s[i..] == part + s[i + |part|..];
      assert Holds(s, s[..i], part, s[i + |part|..]);
    }
    if before, after :| Holds(s, before, part, after) {
      assert s[|before|..] == part + after;
      assert StartsWith(s[|before|..], part);
    }
  }

  /** Of the positions from `from` up to `to`, those there are. */
  lemma SliceMeans(s: seq<int>, from: nat, to: nat)
    ensures var part := Slice(s, from, to);
      && (forall k :: from <= k < to && k < |s| ==> k - from < |part| && part[k - from] == s[k])
      && (part == [] || from + |part| <= to) && (part == [] || from + |part| <= |s|)
  {
  }

  /** A further assistant turn: what is rendered up to its end starts the whole, and where its own
      ids start they decode to the header. */
  ghost predicate OpensRight(tok: Tokenizer, turns: seq<Turn>, i: nat)
    requires i < |turns|
  {
    var full, at := tok.ids(Plain(turns)), |tok.ids(Plain(turns[..i]))|;
    && tok.ids(Plain(turns[..i + 1])) <= full
    && tok.decode(Slice(full, at, at + |tok.header|)) == "<|im_start|>assistant\n"
  }

  /** What follows its header decodes to its content and then something; the end marker occurs. */
  ghost predicate SaysRight(tok: Tokenizer, turns: seq<Turn>, i: nat)
    requires i < |turns|
  {
    var at, end := |tok.ids(Plain(turns[..i]))| + |tok.header|, |tok.ids(Plain(turns[..i + 1]))|;
    var text := tok.decode(Slice(tok.ids(Plain(turns)), at, end));
    turns[i].message.content <= text && Occurs("<|im_end|>", text)
  }

  lemma FramedMeans(tok: Tokenizer, turns: seq<Turn>, i: nat)
    requires i < |turns|
    ensures Framed(tok, turns, tok.ids(Plain(turns)), i) <==> OpensRight(tok, turns, i)
    ensures Targets(tok, turns, tok.ids(Plain(turns)), i) <==> SaysRight(tok, turns, i)
  {
    var full, upto := tok.ids(Plain(turns)), tok.ids(Plain(turns[..i + 1]));
    assert Slice(full, 0, |upto|) == upto <==> upto <= full;
    ContainsMeans(tok.decode(Slice(full, |Prefix(tok, turns, i)| + |tok.header|, |upto|)), "<|im_end|>");
  }

  /** When an example renders, for any tokenizer whatever: no marker in any content, short enough,
      the header decodes to itself, every assistant turn stands where it should, every trained one
      says what it should, and there is one. */
  lemma RendersMeans(tok: Tokenizer, turns: seq<Turn>, max: int)
    ensures Renders(tok, turns, max) <==>
      && (forall t <- turns :: !Occurs("<|im_", t.message.content) && !Occurs("<think>", t.message.content))
      && |tok.ids(Plain(turns))| <= max && tok.decode(tok.header) == "<|im_start|>assistant\n"
      && (forall i :: 0 <= i < |turns| && turns[i].message.role == Assistant ==> OpensRight(tok, turns, i))
      && (forall i :: 0 <= i < |turns| && turns[i].message.role == Assistant && turns[i].train ==>
            SaysRight(tok, turns, i))
      && exists t <- turns :: t.message.role == Assistant && t.train
  {
    forall t <- turns
      ensures Clean(t.message.content) <==>
        !Occurs("<|im_", t.message.content) && !Occurs("<think>", t.message.content)
    {
      ContainsMeans(t.message.content, "<|im_");
      ContainsMeans(t.message.content, "<think>");
    }
    forall i | 0 <= i < |turns|
      ensures TurnRenders(tok, turns, tok.ids(Plain(turns)), i) <==>
        (turns[i].message.role == Assistant ==>
          OpensRight(tok, turns, i) && (turns[i].train ==> SaysRight(tok, turns, i)))
    {
      FramedMeans(tok, turns, i);
    }
  }

  /** Position `k` lies between the header and the end of turn `i`. */
  predicate Within(tok: Tokenizer, turns: seq<Turn>, i: nat, k: nat)
    requires i < |turns|
  {
    |Prefix(tok, turns, i)| + |tok.header| <= k < |Prefix(tok, turns, i + 1)|
  }

  /** Position `k` is a target of one of the first `upto` turns. */
  predicate Target(tok: Tokenizer, turns: seq<Turn>, upto: nat, k: nat)
    requires upto <= |turns|
  {
    exists i :: 0 <= i < upto && Trained(turns[i]) && Within(tok, turns, i, k)
  }

  ghost predicate Labelled(tok: Tokenizer, turns: seq<Turn>, upto: nat, full: seq<int>, labels: seq<int>)
    requires upto <= |turns|
  {
    && |labels| == |full|
    && forall k :: 0 <= k < |full| ==> labels[k] == (if Target(tok, turns, upto, k) then full[k] else IGNORED)
  }

  /** `labels[start:end] = ids[start:end]`. */
  method CopySpan(labels: array<int>, ids: seq<int>, start: nat, end: nat)
    requires labels.Length == |ids|
    modifies labels
    ensures forall k :: 0 <= k < |ids| ==> labels[k] == if start <= k < end then ids[k] else old(labels[k])
  {
    var k := start;
    while k < end && k < |ids|
      invariant forall j :: 0 <= j < |ids| ==> labels[j] == if start <= j < end && j < k then ids[j] else old(labels[j])
    {
      labels[k] := ids[k];
      k := k + 1;
    }
  }

  /** `render_example`, for an arbitrary tokenizer: fails unless every check holds; then exactly
      the positions inside a trained turn, past its header, carry their own id as label. */
  method RenderExample(tok: Tokenizer, turns: seq<Turn>, max: int) returns (res: Option<Features>)
    ensures res.Some? <==> Renders(tok, turns, max)
    ensures res.Some? ==>
      && res.value.ids == tok.ids(Plain(turns))
      && |res.value.mask| == |res.value.ids| && (forall k :: 0 <= k < |res.value.mask| ==> res.value.mask[k] == 1)
      && Labelled(tok, turns, |turns|, res.value.ids, res.value.labels)
  {
    for i := 0 to |turns|
      invariant forall j :: 0 <= j < i ==> Clean(turns[j].message.content)
    {
      if !Clean(turns[i].message.content) {
        assert turns[i] in turns;
        return None;
      }
    }
    var full := tok.ids(Plain(turns));
    if |full| > max { return None; }
    if tok.decode(tok.header) != ASSISTANT_HEADER { return None; }
    var labels := new int[|full|](_ => IGNORED);
    var spans := 0;
    for i := 0 to |turns|
      invariant forall j :: 0 <= j < i ==> TurnRenders(tok, turns, full, j)
      invariant Labelled(tok, turns, i, full, labels[..])
      invariant spans > 0 <==> exists j :: 0 <= j < i && Trained(turns[j])
      invariant spans >= 0
    {
      var message := turns[i].message;
      ghost var before := labels[..];
      if !message.role.Assistant? {
        LabelStep(tok, turns, i, full, before, before);
        continue;
      }
      var start, end := |Prefix(tok, turns, i)|, |Prefix(tok, turns, i + 1)|;
      if !Framed(tok, turns, full, i) {
        assert !TurnRenders(tok, turns, full, i);
        return None;
      }
      if !turns[i].train {
        LabelStep(tok, turns, i, full, before, before);
        continue;
      }
      CopySpan(labels, full, start + |tok.header|, end);
      if !Targets(tok, turns, full, i) {
        assert !TurnRenders(tok, turns, full, i);
        return None;
      }
      LabelStep(tok, turns, i, full, before, labels[..]);
      spans := spans + 1;
    }
    if spans < 1 { return None; }
    res := Some(Features(full, labels[..], seq(|full|, _ => 1)));
  }

  lemma LabelStep(tok: Tokenizer, turns: seq<Turn>, i: nat, full: seq<int>, before: seq<int>, after: seq<int>)
    requires i < |turns| && Labelled(tok, turns, i, full, before) && |after| == |full|
    requires forall k :: 0 <= k < |full| ==>
      after[k] == if Trained(turns[i]) && Within(tok, turns, i, k) then full[k] else before[k]
    ensures Labelled(tok, turns, i + 1, full, after)
  {
  }

  // --- the audit --------------------------------------------------------------------------------

  /** The maximal runs of labelled positions, as their ids; `current` is the run that is open. */
  function Runs(ids: seq<int>, labels: seq<int>, current: seq<int>): seq<seq<int>>
    requires |ids| == |labels|
  {
    if ids == [] then Close(current)
    else if labels[0] != IGNORED then Runs(ids[1..], labels[1..], current + [ids[0]])
    else Close(current) + Runs(ids[1..], labels[1..], [])
  }

  function Close(current: seq<int>): seq<seq<int>> {
    if current == [] then [] else [current]
  }

  function Decoded(tok: Tokenizer, runs: seq<seq<int>>): (texts: seq<string>)
    ensures |texts| == |runs| && forall i :: 0 <= i < |runs| ==> texts[i] == tok.decode(runs[i])
  {
    seq(|runs|, i requires 0 <= i < |runs| => tok.decode(runs[i]))
  }

  /** The contents that the audit expects to find. */
  function Expected(turns: seq<Turn>): seq<string> {
    if turns == [] then []
    else (if Trained(turns[0]) then [turns[0].message.content] else []) + Expected(turns[1..])
  }

  function StripNewlines(s: string): string {
    if s != "" && s[|s| - 1] == '\n' then StripNewlines(s[..|s| - 1]) else s
  }

  predicate Matches(got: string, want: string) {
    StartsWith(got, want) && StripNewlines(got[|want|..]) == IM_END
  }

  predicate Passes(spans: seq<string>, wanted: seq<string>) {
    |spans| == |wanted| && forall i :: 0 <= i < |spans| ==> Matches(spans[i], wanted[i])
  }

  /** A span matches if it is the content, the end marker, and line breaks. */
  lemma MatchesMeans(got: string, want: string)
    ensures Matches(got, want) <==> exists n: nat :: got == want + "<|im_end|>" + LineBreaks(n)
  {
    if Matches(got, want) {
      var n := StripsLineBreaks(got[|want|..]);
      assert got == want + got[|want|..];
    }
    if n: nat :| got == want + "<|im_end|>" + LineBreaks(n) {
      assert got[..|want|] == want && got[|want|..] == IM_END + LineBreaks(n);
      LineBreaksStrip(IM_END, n);
    }
  }

  function LineBreaks(n: nat): (s: string)
    ensures |s| == n && forall c <- s :: c == '\n'
  {
    seq(n, _ => '\n')
  }

  lemma {:induction false} StripsLineBreaks(s: string) returns (n: nat)
    ensures s == StripNewlines(s) + LineBreaks(n)
  {
    n := 0;
    if s != "" && s[|s| - 1] == '\n' {
      n := StripsLineBreaks(s[..|s| - 1]);
      assert LineBreaks(n + 1) == LineBreaks(n) + "\n" && s == s[..|s| - 1] + "\n";
      n := n + 1;
    }
  }

  lemma {:induction false} LineBreaksStrip(s: string, n: nat)
    requires s != "" && s[|s| - 1] != '\n'
    ensures StripNewlines(s + LineBreaks(n)) == s
  {
    if n == 0 {
      assert s + LineBreaks(0) == s;
    } else {
      var all := s + LineBreaks(n);
      assert all[..|all| - 1] == s + LineBreaks(n - 1);
      LineBreaksStrip(s, n - 1);
    }
  }

  /** The runs of one example, found by a single scan. */
  method FindSpans(tok: Tokenizer, ids: seq<int>, labels: seq<int>) returns (spans: seq<string>)
    requires |ids| == |labels|
    ensures spans == Decoded(tok, Runs(ids, labels, []))
  {
    spans := [];
    var current: seq<int> := [];
    for k := 0 to |ids|
      invariant spans + Decoded(tok, Runs(ids[k..], labels[k..], current)) == Decoded(tok, Runs(ids, labels, []))
    {
      assert ids[k..][1..] == ids[k + 1..] && labels[k..][1..] == labels[k + 1..];
      ghost var rest := Runs(ids[k + 1..], labels[k + 1..], []);
      if labels[k] != IGNORED {
        current := current + [ids[k]];
      } else if current != [] {
        DecodedCons(tok, current, rest);
        assert Close(current) + rest == [current] + rest;
        spans := spans + [tok.decode(current)];
        current := [];
      } else {
        assert Close(current) + rest == rest;
      }
    }
    assert ids[|ids|..] == [] && labels[|ids|..] == [];
    if current != [] {
      assert Decoded(tok, [current]) == [tok.decode(current)];
      spans := spans + [tok.decode(current)];
    }
  }

  lemma DecodedCons(tok: Tokenizer, run: seq<int>, rest: seq<seq<int>>)
    ensures Decoded(tok, [run] + rest) == [tok.decode(run)] + Decoded(tok, rest)
  {
  }

  method ExpectedContents(turns: seq<Turn>) returns (wanted: seq<string>)
    ensures wanted == Expected(turns)
  {
    wanted := [];
    for i := 0 to |turns|
      invariant wanted + Expected(turns[i..]) == Expected(turns)
    {
      assert turns[i..][1..] == turns[i + 1..];
      if Trained(turns[i]) {
        wanted := wanted + [turns[i].message.content];
      }
    }
  }

  /** `audit_example`: the token count, when the example renders and its spans check out. */
  method AuditExample(tok: Tokenizer, turns: seq<Turn>, max: int) returns (count: Option<nat>)
    ensures count.Some? ==> Renders(tok, turns, max) && count.value == |tok.ids(Plain(turns))|
    ensures Renders(tok, turns, max) ==> exists labels: seq<int> :: Audited(tok, turns, labels, count.Some?)
  {
    var features := RenderExample(tok, turns, max);
    if features.None? { return None; }
    var ids, labels := features.value.ids, features.value.labels;
    var spans := FindSpans(tok, ids, labels);
    var wanted := ExpectedContents(turns);
    ghost var passes := Passes(spans, wanted);
    assert Audited(tok, turns, labels, passes);
    if |spans| != |wanted| {
      assert !passes;
      return None;
    }
    for i := 0 to |spans|
      invariant forall j :: 0 <= j < i ==> Matches(spans[j], wanted[j])
    {
      if !Matches(spans[i], wanted[i]) {
        assert !passes;
        return None;
      }
    }
    assert passes;
    return Some(|ids|);
  }

  ghost predicate Audited(tok: Tokenizer, turns: seq<Turn>, labels: seq<int>, ok: bool) {
    && Labelled(tok, turns, |turns|, tok.ids(Plain(turns)), labels)
    && ok == Passes(Decoded(tok, Runs(tok.ids(Plain(turns)), labels, [])), Expected(turns))
  }

  // --- the round trip ----------------------------------------------------------------------------

  type Render = Message -> seq<int>

  function Flat(render: Render, turns: seq<Turn>): seq<int> {
    if turns == [] then [] else render(turns[0].message) + Flat(render, turns[1..])
  }

  function Ignored(n: nat): (s: seq<int>)
    ensures |s| == n && forall i :: 0 <= i < n ==> s[i] == IGNORED
  {
    seq(n, _ => IGNORED)
  }

  /** A ChatML tokenizer: each message renders on its own, to ids that are never negative; an
      assistant message renders to the header and a body, and the body reads as the content,
      the end marker and a line break. */
  ghost predicate ChatML(tok: Tokenizer, render: Render) {
    && (forall turns: seq<Turn> :: tok.ids(Plain(turns)) == Flat(render, turns))
    && tok.header != [] && tok.decode(tok.header) == ASSISTANT_HEADER
    && forall m: Message :: RendersWell(tok, render, m)
  }

  ghost predicate RendersWell(tok: Tokenizer, render: Render, m: Message) {
    && (forall id <- render(m) :: id >= 0)
    && (m.role.Assistant? ==>
          && |tok.header| < |render(m)| && render(m)[..|tok.header|] == tok.header
          && tok.decode(render(m)[|tok.header|..]) == m.content + IM_END + "\n")
  }

  // One such tokenizer: one id per character.

  function Codes(s: string): (ids: seq<int>)
    ensures |ids| == |s| && forall i :: 0 <= i < |s| ==> ids[i] == s[i] as int
  {
    seq(|s|, i requires 0 <= i < |s| => s[i] as int)
  }

  function Chars(ids: seq<int>): (s: string)
    ensures |s| == |ids|
  {
    seq(|ids|, i requires 0 <= i < |ids| =>
      if 0 <= ids[i] < 0xD800 || 0xE000 <= ids[i] < 0x11_0000 then ids[i] as char else ' ')
  }

  function Template(m: Message): seq<int> {
    match m.role
    case Assistant => Codes(ASSISTANT_HEADER) + Codes(m.content + IM_END + "\n")
    case System => Codes("<|im_start|>system\n" + m.content + IM_END + "\n")
    case User => Codes("<|im_start|>user\n" + m.content + IM_END + "\n")
  }

  function Conversation(ms: seq<Message>): seq<int> {
    if ms == [] then [] else Template(ms[0]) + Conversation(ms[1..])
  }

  const CHARACTERS := Tokenizer((ms: seq<Message>) => Conversation(ms), Codes(ASSISTANT_HEADER),
    (ids: seq<int>) => Chars(ids))

  lemma CharsOfCodes(s: string)
    ensures Chars(Codes(s)) == s
  {
  }

  lemma {:induction false} ConversationIsFlat(turns: seq<Turn>)
    ensures Conversation(Plain(turns)) == Flat(Template, turns)
  {
    if turns != [] {
      ConversationIsFlat(turns[1..]);
      assert Plain(turns)[1..] == Plain(turns[1..]);
    }
  }

  lemma CharactersAreChatML()
    ensures ChatML(CHARACTERS, Template)
  {
    CharsOfCodes(ASSISTANT_HEADER);
    forall turns: seq<Turn> ensures CHARACTERS.ids(Plain(turns)) == Flat(Template, turns) {
      ConversationIsFlat(turns);
    }
    forall m: Message ensures RendersWell(CHARACTERS, Template, m) {
      if m.role.Assistant? {
        var body := m.content + IM_END + "\n";
        CharsOfCodes(body);
        assert Template(m)[|ASSISTANT_HEADER|..] == Codes(body);
        assert Template(m)[..|ASSISTANT_HEADER|] == Codes(ASSISTANT_HEADER);
      }
    }
  }

  /** The labels of one turn. */
  function Block(tok: Tokenizer, render: Render, t: Turn): (labels: seq<int>)
    requires t.message.role.Assistant? ==> |tok.header| <= |render(t.message)|
    ensures |labels| == |render(t.message)|
  {
    if Trained(t) then Ignored(|tok.header|) + render(t.message)[|tok.header|..] else Ignored(|render(t.message)|)
  }

  ghost function Blocks(tok: Tokenizer, render: Render, turns: seq<Turn>): (labels: seq<int>)
    requires ChatML(tok, render)
    ensures |labels| == |Flat(render, turns)|
  {
    if turns == [] then []
    else
      assert RendersWell(tok, render, turns[0].message);
      Block(tok, render, turns[0]) + Blocks(tok, render, turns[1..])
  }

  ghost function Bodies(tok: Tokenizer, render: Render, turns: seq<Turn>): seq<seq<int>>
    requires ChatML(tok, render)
  {
    if turns == [] then []
    else
      assert RendersWell(tok, render, turns[0].message);
      (if Trained(turns[0]) then [render(turns[0].message)[|tok.header|..]] else []) + Bodies(tok, render, turns[1..])
  }

  lemma {:induction false} FlatSnoc(render: Render, turns: seq<Turn>, t: Turn)
    ensures Flat(render, turns + [t]) == Flat(render, turns) + render(t.message)
  {
    if turns != [] {
      assert (turns + [t])[1..] == turns[1..] + [t];
      FlatSnoc(render, turns[1..], t);
    } else {
      assert [t][1..] == [];
    }
  }

  lemma {:induction false} BlocksSnoc(tok: Tokenizer, render: Render, turns: seq<Turn>, t: Turn)
    requires ChatML(tok, render)
    ensures RendersWell(tok, render, t.message)
    ensures Blocks(tok, render, turns + [t]) == Blocks(tok, render, turns) + Block(tok, render, t)
  {
    assert RendersWell(tok, render, t.message);
    if turns != [] {
      assert (turns + [t])[1..] == turns[1..] + [t];
      BlocksSnoc(tok, render, turns[1..], t);
    } else {
      assert [t][1..] == [] && Blocks(tok, render, []) == [];
      assert Block(tok, render, t) + [] == Block(tok, render, t);
    }
  }

  lemma PrefixIsFlat(tok: Tokenizer, render: Render, turns: seq<Turn>, i: nat)
    requires ChatML(tok, render) && i <= |turns|
    ensures Prefix(tok, turns, i) == Flat(render, turns[..i])
  {
  }

  /** Turn `n` alone decides the labels of its own positions, and of no earlier ones. */
  lemma TargetStep(tok: Tokenizer, render: Render, turns: seq<Turn>, n: nat, k: nat)
    requires ChatML(tok, render) && n < |turns| && k < |Prefix(tok, turns, n + 1)|
    ensures Target(tok, turns, n + 1, k) <==>
      if k < |Prefix(tok, turns, n)| then Target(tok, turns, n, k) else Trained(turns[n]) && Within(tok, turns, n, k)
  {
    forall i: nat | i < n && Within(tok, turns, i, k) ensures k < |Prefix(tok, turns, n)| {
      PrefixesGrow(tok, render, turns, i + 1, n);
    }
    if k < |Prefix(tok, turns, n)| {
      assert !Within(tok, turns, n, k);
    }
  }

  lemma EarlierLabels(tok: Tokenizer, render: Render, turns: seq<Turn>, n: nat, labels: seq<int>)
    requires ChatML(tok, render) && n < |turns|
    requires Labelled(tok, turns, n + 1, Prefix(tok, turns, n + 1), labels)
    ensures |Prefix(tok, turns, n)| <= |labels|
    ensures Labelled(tok, turns, n, Prefix(tok, turns, n), labels[..|Prefix(tok, turns, n)|])
  {
    var before, after := Prefix(tok, turns, n), Prefix(tok, turns, n + 1);
    PrefixesGrow(tok, render, turns, n, n + 1);
    forall k | 0 <= k < |before| ensures labels[k] == (if Target(tok, turns, n, k) then before[k] else IGNORED) {
      TargetStep(tok, render, turns, n, k);
      assert after[k] == before[k];
    }
  }

  lemma LastLabels(tok: Tokenizer, render: Render, turns: seq<Turn>, n: nat, labels: seq<int>)
    requires ChatML(tok, render) && n < |turns| && RendersWell(tok, render, turns[n].message)
    requires Labelled(tok, turns, n + 1, Prefix(tok, turns, n + 1), labels)
    ensures |Prefix(tok, turns, n)| <= |labels|
    ensures labels[|Prefix(tok, turns, n)|..] == Block(tok, render, turns[n])
  {
    var before, after := Prefix(tok, turns, n), Prefix(tok, turns, n + 1);
    var ids, block := render(turns[n].message), Block(tok, render, turns[n]);
    PrefixIsFlat(tok, render, turns, n);
    PrefixIsFlat(tok, render, turns, n + 1);
    assert turns[..n + 1] == turns[..n] + [turns[n]];
    FlatSnoc(render, turns[..n], turns[n]);
    assert after == before + ids;
    forall k | |before| <= k < |after| ensures labels[k] == block[k - |before|] {
      TargetStep(tok, render, turns, n, k);
    }
  }

  lemma LastBlock(tok: Tokenizer, render: Render, turns: seq<Turn>, n: nat, labels: seq<int>, at: nat)
    requires ChatML(tok, render) && n < |turns| && RendersWell(tok, render, turns[n].message)
    requires at == |Prefix(tok, turns, n)|
    requires Labelled(tok, turns, n + 1, Prefix(tok, turns, n + 1), labels)
    ensures at <= |labels| && labels[at..] == Block(tok, render, turns[n])
  {
    LastLabels(tok, render, turns, n, labels);
  }

  lemma LabelsSnoc(tok: Tokenizer, render: Render, turns: seq<Turn>, n: nat, labels: seq<int>, at: nat)
    requires ChatML(tok, render) && 0 < n <= |turns| && RendersWell(tok, render, turns[n - 1].message)
    requires at <= |labels| && labels[..at] == Blocks(tok, render, turns[..n - 1])
    requires labels[at..] == Block(tok, render, turns[n - 1])
    ensures labels == Blocks(tok, render, turns[..n])
  {
    assert turns[..n] == turns[..n - 1] + [turns[n - 1]];
    BlocksSnoc(tok, render, turns[..n - 1], turns[n - 1]);
    assert labels == labels[..at] + labels[at..];
  }

  /** The labels that rendering writes are the turns' blocks, one after the other. */
  lemma {:induction false} LabelsAreBlocks(tok: Tokenizer, render: Render, turns: seq<Turn>, n: nat, labels: seq<int>)
    requires ChatML(tok, render) && n <= |turns|
    requires Labelled(tok, turns, n, Prefix(tok, turns, n), labels)
    ensures labels == Blocks(tok, render, turns[..n])
  {
    if n == 0 {
      assert turns[..0] == [];
      PrefixIsFlat(tok, render, turns, 0);
    } else {
      var at := |Prefix(tok, turns, n - 1)|;
      assert RendersWell(tok, render, turns[n - 1].message);
      EarlierLabels(tok, render, turns, n - 1, labels);
      LabelsAreBlocks(tok, render, turns, n - 1, labels[..at]);
      LastBlock(tok, render, turns, n - 1, labels, at);
      LabelsSnoc(tok, render, turns, n, labels, at);
    }
  }

  lemma {:induction false} PrefixesGrow(tok: Tokenizer, render: Render, turns: seq<Turn>, i: nat, j: nat)
    requires ChatML(tok, render) && i <= j <= |turns|
    ensures Flat(render, turns[..i]) <= Flat(render, turns[..j])
    ensures Prefix(tok, turns, i) == Flat(render, turns[..i]) && Prefix(tok, turns, j) == Flat(render, turns[..j])
    decreases j - i
  {
    PrefixIsFlat(tok, render, turns, i);
    PrefixIsFlat(tok, render, turns, j);
    if i < j {
      PrefixesGrow(tok, render, turns, i, j - 1);
      assert turns[..j] == turns[..j - 1] + [turns[j - 1]];
      FlatSnoc(render, turns[..j - 1], turns[j - 1]);
    }
  }

  lemma {:induction false} ScanIgnored(ids: seq<int>, rest: seq<int>, labels: seq<int>, current: seq<int>)
    requires ids != [] && |rest| == |labels|
    ensures Runs(ids + rest, Ignored(|ids|) + labels, current) == Close(current) + Runs(rest, labels, [])
    decreases |ids|
  {
    assert (ids + rest)[1..] == ids[1..] + rest;
    assert (Ignored(|ids|) + labels)[1..] == Ignored(|ids[1..]|) + labels;
    if |ids| > 1 {
      ScanIgnored(ids[1..], rest, labels, []);
    } else {
      assert ids[1..] + rest == rest && Ignored(0) + labels == labels;
    }
  }

  lemma {:induction false} ScanTargets(ids: seq<int>, rest: seq<int>, labels: seq<int>, current: seq<int>)
    requires |rest| == |labels| && forall id <- ids :: id != IGNORED
    ensures Runs(ids + rest, ids + labels, current) == Runs(rest, labels, current + ids)
    decreases |ids|
  {
    if ids == [] {
      assert ids + rest == rest && ids + labels == labels && current + ids == current;
    } else {
      assert ids[0] in ids;
      assert (ids + rest)[1..] == ids[1..] + rest && (ids + labels)[1..] == ids[1..] + labels;
      assert current + [ids[0]] + ids[1..] == current + ids;
      assert forall id <- ids[1..] :: id in ids;
      ScanTargets(ids[1..], rest, labels, current + [ids[0]]);
    }
  }

  lemma ScanTrained(header: seq<int>, body: seq<int>, rest: seq<int>, labels: seq<int>, current: seq<int>)
    requires header != [] && |rest| == |labels| && forall id <- body :: id != IGNORED
    ensures Runs((header + body) + rest, (Ignored(|header|) + body) + labels, current) ==
      Close(current) + Runs(rest, labels, body)
  {
    assert (header + body) + rest == header + (body + rest);
    assert (Ignored(|header|) + body) + labels == Ignored(|header|) + (body + labels);
    ScanIgnored(header, body + rest, body + labels, current);
    ScanTargets(body, rest, labels, []);
    assert [] + body == body;
  }

  lemma ScanUntrained(ids: seq<int>, rest: seq<int>, labels: seq<int>, current: seq<int>)
    requires |rest| == |labels|
    ensures Runs(ids + rest, Ignored(|ids|) + labels, current) ==
      if ids == [] then Runs(rest, labels, current) else Close(current) + Runs(rest, labels, [])
  {
    if ids == [] {
      assert ids + rest == rest && Ignored(0) + labels == labels;
    } else {
      ScanIgnored(ids, rest, labels, current);
    }
  }

  /** The scan finds exactly the trained bodies, in order. */
  lemma {:induction false} RunsAreBodies(tok: Tokenizer, render: Render, turns: seq<Turn>, current: seq<int>)
    requires ChatML(tok, render)
    ensures Runs(Flat(render, turns), Blocks(tok, render, turns), current) ==
      Close(current) + Bodies(tok, render, turns)
  {
    if turns != [] {
      var t, ids := turns[0], render(turns[0].message);
      var rest, labels := Flat(render, turns[1..]), Blocks(tok, render, turns[1..]);
      assert RendersWell(tok, render, t.message);
      if Trained(t) {
        var body := ids[|tok.header|..];
        assert ids == tok.header + body && forall id <- body :: id in ids;
        ScanTrained(tok.header, body, rest, labels, current);
        RunsAreBodies(tok, render, turns[1..], body);
      } else {
        ScanUntrained(ids, rest, labels, current);
        RunsAreBodies(tok, render, turns[1..], if ids == [] then current else []);
      }
    }
  }

  /** Under a ChatML tokenizer, what rendering labels is what the audit finds: headers, untrained
      turns and other roles are ignored throughout, every other label is its own id, and the
      maximal labelled runs are exactly, in order, the bodies of the trained turns. */
  lemma MaskingRoundTrip(tok: Tokenizer, render: Render, turns: seq<Turn>, labels: seq<int>)
    requires ChatML(tok, render) && Labelled(tok, turns, |turns|, tok.ids(Plain(turns)), labels)
    ensures tok.ids(Plain(turns)) == Flat(render, turns)
    ensures labels == Blocks(tok, render, turns)
    ensures Runs(tok.ids(Plain(turns)), labels, []) == Bodies(tok, render, turns)
  {
    assert turns[..|turns|] == turns;
    PrefixIsFlat(tok, render, turns, |turns|);
    LabelsAreBlocks(tok, render, turns, |turns|, labels);
    RunsAreBodies(tok, render, turns, []);
  }

  lemma BodyMatches(content: string)
    ensures Matches(content + IM_END + "\n", content)
    ensures StartsWith(content + IM_END + "\n", content) && Contains(content + IM_END + "\n", IM_END)
  {
    var text := content + IM_END + "\n";
    assert text[..|content|] == content;
    assert text[|content|..] == IM_END + "\n";
    assert (IM_END + "\n")[..|IM_END|] == IM_END;
    assert StripNewlines(IM_END + "\n") == StripNewlines(IM_END) == IM_END;
    assert StartsWith(text[|content|..], IM_END);
  }

  lemma {:induction false} BodiesMatch(tok: Tokenizer, render: Render, turns: seq<Turn>)
    requires ChatML(tok, render)
    ensures Passes(Decoded(tok, Bodies(tok, render, turns)), Expected(turns))
  {
    if turns != [] {
      BodiesMatch(tok, render, turns[1..]);
      assert RendersWell(tok, render, turns[0].message);
      BodyMatches(turns[0].message.content);
    }
  }

  lemma SlicesOf(pre: seq<int>, header: seq<int>, body: seq<int>, post: seq<int>)
    ensures var full, end := pre + (header + body) + post, |pre| + |header + body|;
      && Slice(full, 0, end) == pre + (header + body)
      && Slice(full, |pre|, |pre| + |header|) == header
      && Slice(full, |pre| + |header|, end) == body
  {
  }

  lemma FullSplits(tok: Tokenizer, render: Render, turns: seq<Turn>, i: nat) returns (post: seq<int>)
    requires ChatML(tok, render) && i < |turns|
    ensures Prefix(tok, turns, i + 1) == Prefix(tok, turns, i) + render(turns[i].message)
    ensures tok.ids(Plain(turns)) == Prefix(tok, turns, i + 1) + post
  {
    var full := Flat(render, turns);
    assert turns[..|turns|] == turns && turns[..i + 1] == turns[..i] + [turns[i]];
    PrefixesGrow(tok, render, turns, i, i + 1);
    PrefixesGrow(tok, render, turns, i + 1, |turns|);
    FlatSnoc(render, turns[..i], turns[i]);
    post := full[|Prefix(tok, turns, i + 1)|..];
  }

  lemma TurnsRender(tok: Tokenizer, render: Render, turns: seq<Turn>, i: nat)
    requires ChatML(tok, render) && i < |turns|
    ensures TurnRenders(tok, turns, tok.ids(Plain(turns)), i)
  {
    var m := turns[i].message;
    if m.role.Assistant? {
      assert RendersWell(tok, render, m);
      var post := FullSplits(tok, render, turns, i);
      WellRenderedTurn(tok, turns, i, render(m), post);
    }
  }

  lemma WellRenderedTurn(tok: Tokenizer, turns: seq<Turn>, i: nat, ids: seq<int>, post: seq<int>)
    requires i < |turns| && tok.decode(tok.header) == ASSISTANT_HEADER
    requires |tok.header| < |ids| && ids[..|tok.header|] == tok.header
    requires tok.decode(ids[|tok.header|..]) == turns[i].message.content + IM_END + "\n"
    requires Prefix(tok, turns, i + 1) == Prefix(tok, turns, i) + ids
    requires tok.ids(Plain(turns)) == Prefix(tok, turns, i + 1) + post
    ensures Framed(tok, turns, tok.ids(Plain(turns)), i) && Targets(tok, turns, tok.ids(Plain(turns)), i)
  {
    var body := ids[|tok.header|..];
    assert ids == tok.header + body;
    SlicesOf(Prefix(tok, turns, i), tok.header, body, post);
    BodyMatches(turns[i].message.content);
  }

  /** So the audit passes on every example that renders; and an example renders exactly when its
      texts are free of markers, it fits, and something in it is trained. */
  lemma AuditPasses(tok: Tokenizer, render: Render, turns: seq<Turn>, max: int, labels: seq<int>)
    requires ChatML(tok, render)
    requires Labelled(tok, turns, |turns|, tok.ids(Plain(turns)), labels)
    ensures Passes(Decoded(tok, Runs(tok.ids(Plain(turns)), labels, [])), Expected(turns))
    ensures Renders(tok, turns, max) <==>
      && (forall t <- turns :: Clean(t.message.content))
      && |Flat(render, turns)| <= max
      && exists t <- turns :: Trained(t)
  {
    MaskingRoundTrip(tok, render, turns, labels);
    BodiesMatch(tok, render, turns);
    forall i | 0 <= i < |turns| ensures TurnRenders(tok, turns, tok.ids(Plain(turns)), i) {
      TurnsRender(tok, render, turns, i);
    }
  }
}
