/** The evidence-gathering loop (src/quellgeist/agent/loop.py), the operator-hint wrapper that
    appends to its live message list (src/quellgeist/orchestrator/hint.py) and the scripted
    provider that replays a transcript (evals/training/trajectories.py). */
module Loop {
  import opened Wrappers
  import opened Evidence
  import opened Tools

  datatype Role = System | User | Assistant

  datatype Message = Message(role: Role, content: string)

  /** An arbitrary provider: its n-th call, on the messages so far; None when it raises. */
  type Provider = (nat, seq<Message>) -> Option<string>

  type ValidDiagnosis = d: Diagnosis | d.Valid() witness Abstain("loop did not run")

  /** What JSON extraction and the diagnosis schema make of one reply. */
  datatype Reply =
    | NotJson(error: string)
    | Object(action: Option<string>, args: Option<Args>, diagnosis: Payload)

  datatype Payload = Accepted(d: ValidDiagnosis) | Refused(error: string)

  /** How replies are read and how the loop words what it says back. */
  datatype Wording = Wording(
    read: string -> Reply,
    retry: string -> string,
    badArgs: string -> string,
    failed: (string, Args) -> string,
    unknown: Option<string> -> string,
    observed: (string, seq<Row>) -> string,
    number: int -> string)

  datatype Env = Env(tools: map<string, Tool>, words: Wording, system: string, trigger: string, maxSteps: int)

  datatype Trace = Trace(
    messages: seq<Message>,
    calls: seq<(string, Args)>,
    violations: seq<string>,
    seen: set<Handle>)

  datatype LoopResult = LoopResult(diagnosis: ValidDiagnosis, steps: nat, trace: Trace)
  {
    /** `cited_but_unseen_handles`. */
    function CitedButUnseen(): set<Handle> {
      Cited(diagnosis) - trace.seen
    }
  }

  function Exhausted(env: Env, violations: nat): ValidDiagnosis {
    Abstain("no valid diagnosis within " + env.words.number(env.maxSteps) + " steps ("
            + env.words.number(violations) + " schema violation(s))")
  }

  /** A schema violation: recorded, and answered with a retry message. */
  function Retry(env: Env, error: string, t: Trace): Trace {
    t.(violations := t.violations + [error], messages := t.messages + [Message(User, env.words.retry(error))])
  }

  /** One reply: the trace after it, and the diagnosis if the loop returns here. */
  function Take(env: Env, text: string, before: Trace): (Trace, Option<ValidDiagnosis>) {
    var t := before.(messages := before.messages + [Message(Assistant, text)]);
    match env.words.read(text)
    case NotJson(error) => (Retry(env, error, t), None)
    case Object(action, args, diagnosis) =>
      if action == Some("diagnose") then
        match diagnosis
        case Accepted(d) => (t, Some(d))
        case Refused(error) => (Retry(env, error, t), None)
      else if action.Some? && action.value in env.tools then
        if args.None? then (Retry(env, env.words.badArgs(action.value), t), None)
        else
          var called := t.(calls := t.calls + [(action.value, args.value)]);
          match env.tools[action.value](args.value)
          case None => (Retry(env, env.words.failed(action.value, args.value), called), None)
          case Some(rows) =>
            (called.(seen := called.seen + Seen(rows),
                     messages := called.messages + [Message(User, env.words.observed(action.value, rows))]), None)
      else (Retry(env, env.words.unknown(action), t), None)
  }

  /** The loop after `step` steps; None when the provider raises. */
  function Run(p: Provider, env: Env, step: nat, t: Trace): Option<LoopResult>
    decreases env.maxSteps - step
  {
    if step >= env.maxSteps then Some(LoopResult(Exhausted(env, |t.violations|), step, t))
    else
      match p(step, t.messages)
      case None => None
      case Some(text) =>
        var (t', d) := Take(env, text, t);
        if d.Some? then Some(LoopResult(d.value, step + 1, t')) else Run(p, env, step + 1, t')
  }

  function Note(hint: string): Message {
    Message(User, "Operator hint: " + hint)
  }

  /** The messages the first call sees: a hint is the third one, if there is a first call. */
  function Opening(env: Env, hint: Option<string>): Trace {
    Trace([Message(System, env.system), Message(User, env.trigger)]
            + (if hint.Some? && env.maxSteps >= 1 then [Note(hint.value)] else []),
          [], [], {})
  }

  function RunFrom(p: Provider, env: Env, hint: Option<string>): Option<LoopResult> {
    Run(p, env, 0, Opening(env, hint))
  }

  // --- what a transcript holds, reply by reply ----------------------------------------------------

  /** The tool call a reply makes. */
  function Request(env: Env, text: string): Option<(string, Args)> {
    match env.words.read(text)
    case NotJson(_) => None
    case Object(action, args, _) =>
      if action.None? || action.value == "diagnose" || action.value !in env.tools || args.None? then None
      else Some((action.value, args.value))
  }

  /** What the tool returns for the call; None when it raises. */
  function Returns(env: Env, call: (string, Args)): Option<seq<Row>> {
    if call.0 in env.tools then env.tools[call.0](call.1) else None
  }

  /** The diagnosis a reply concludes with. */
  function Conclusion(env: Env, text: string): Option<ValidDiagnosis> {
    match env.words.read(text)
    case Object(Some(action), _, Accepted(d)) => if action == "diagnose" then Some(d) else None
    case _ => None
  }

  /** Why a reply that neither concludes nor gets rows is turned down. */
  function Objection(env: Env, text: string): string {
    match env.words.read(text)
    case NotJson(error) => error
    case Object(action, args, diagnosis) =>
      if action == Some("diagnose") then (if diagnosis.Refused? then diagnosis.error else "")
      else if action.None? || action.value !in env.tools then env.words.unknown(action)
      else if args.None? then env.words.badArgs(action.value)
      else env.words.failed(action.value, args.value)
  }

  /** The rows that a reply gets to see: those its call returned. */
  function RowsFor(env: Env, text: string): Option<seq<Row>> {
    if Request(env, text).None? then None else Returns(env, Request(env, text).value)
  }

  /** The user message that follows a reply which does not conclude: the observation of exactly the
      rows its call returned, or the request to try again for exactly the recorded objection. */
  function Answer(env: Env, text: string): Message {
    var rows := RowsFor(env, text);
    Message(User,
            if rows.Some? then env.words.observed(Request(env, text).value.0, rows.value)
            else env.words.retry(Objection(env, text)))
  }

  /** The replies and their answers, in turn. */
  function Dialogue(env: Env, replies: seq<string>): (ms: seq<Message>)
    ensures |ms| == 2 * |replies|
  {
    if replies == [] then []
    else [Message(Assistant, replies[0]), Answer(env, replies[0])] + Dialogue(env, replies[1..])
  }

  /** The calls among the replies, in order. */
  function Requests(env: Env, replies: seq<string>): seq<(string, Args)> {
    if replies == [] then []
    else
      (if Request(env, replies[0]).Some? then [Request(env, replies[0]).value] else []) + Requests(env, replies[1..])
  }

  /** The objections to the replies that got no rows, in order. */
  function Objections(env: Env, replies: seq<string>): seq<string> {
    if replies == [] then []
    else (if RowsFor(env, replies[0]).None? then [Objection(env, replies[0])] else []) + Objections(env, replies[1..])
  }

  /** The handles of all rows the replies got to see. */
  function SeenBy(env: Env, replies: seq<string>): set<Handle> {
    if replies == [] then {}
    else
      (if RowsFor(env, replies[0]).Some? then Seen(RowsFor(env, replies[0]).value) else {}) + SeenBy(env, replies[1..])
  }

  /** The trace after these replies, none of which concluded. */
  function Told(env: Env, t: Trace, replies: seq<string>): Trace {
    Trace(t.messages + Dialogue(env, replies), t.calls + Requests(env, replies),
          t.violations + Objections(env, replies), t.seen + SeenBy(env, replies))
  }

  // --- the code ------------------------------------------------------------------------------

  /** The message list that the loop, the provider and the result share. */
  class Transcript {
    var items: seq<Message>

    constructor (opening: seq<Message>)
      ensures items == opening
    {
      items := opening;
    }

    method Append(role: Role, content: string)
      modifies this
      ensures items == old(items) + [Message(role, content)]
    {
      items := items + [Message(role, content)];
    }
  }

  /** A provider, wrapped to inject a hint when there is one. */
  class HintProvider {
    const base: Provider
    const hint: Option<string>
    var injected: bool
    var calls: nat

    constructor (base: Provider, hint: Option<string>)
      ensures this.base == base && this.hint == hint && !injected && calls == 0
    {
      this.base, this.hint, this.injected, this.calls := base, hint, false, 0;
    }

    /** `complete`: the first call appends the hint to the caller's list. */
    method Complete(live: Transcript) returns (text: Option<string>)
      modifies this, live
      ensures live.items == old(live.items) + if hint.Some? && !old(injected) then [Note(hint.value)] else []
      ensures injected == (old(injected) || hint.Some?) && calls == old(calls) + 1
      ensures text == base(old(calls), live.items)
    {
      if hint.Some? && !injected {
        live.Append(User, "Operator hint: " + hint.value);
        injected := true;
      }
      text := base(calls, live.items);
      calls := calls + 1;
    }
  }

  /** `_record_seen`. */
  method RecordSeen(before: set<Handle>, rows: seq<Row>) returns (seen: set<Handle>)
    ensures seen == before + Seen(rows)
  {
    seen := before;
    for i := 0 to |rows|
      invariant seen == before + Seen(rows[..i])
    {
      var row := rows[i];
      assert rows[..i + 1] == rows[..i] + [row];
      SeenSnoc(rows[..i], row);
      if "metric" in row {
        seen := seen + {Handle(MetricKind, row["metric"])};
      } else if "id" in row {
        seen := seen + {Handle(LogKind, row["id"])};
      }
      if "sha" in row {
        seen := seen + {Handle(CommitKind, row["sha"])};
      }
    }
    assert rows[..|rows|] == rows;
  }

  /** The body of the loop after a reply has been appended. */
  method TakeReply(live: Transcript, env: Env, text: string, before: Trace) returns (t: Trace,
    d: Option<ValidDiagnosis>)
    requires live.items == before.messages
    modifies live
    ensures (t, d) == Take(env, text, before) && live.items == t.messages
    ensures d == Conclusion(env, text) && Replied(env, text, before, t)
  {
    TakeTells(env, text, before);
    live.Append(Assistant, text);
    t, d := before, None;
    var error: string;
    match env.words.read(text) {
      case NotJson(e) => error := e;
      case Object(action, args, diagnosis) =>
        if action == Some("diagnose") {
          match diagnosis {
            case Accepted(accepted) => return t.(messages := live.items), Some(accepted);
            case Refused(e) => error := e;
          }
        } else if action.Some? && action.value in env.tools {
          if args.None? {
            error := env.words.badArgs(action.value);
          } else {
            t := t.(calls := t.calls + [(action.value, args.value)]);
            var rows := env.tools[action.value](args.value);
            if rows.Some? {
              var seen := RecordSeen(t.seen, rows.value);
              live.Append(User, env.words.observed(action.value, rows.value));
              return t.(seen := seen, messages := live.items), None;
            }
            error := env.words.failed(action.value, args.value);
          }
        } else {
          error := env.words.unknown(action);
        }
    }
    live.Append(User, env.words.retry(error));
    t := t.(violations := t.violations + [error], messages := live.items);
  }

  /** `run_loop` around a hint wrapper: the same as the bare provider started on the messages
      [system, trigger, hint], and the live list the caller holds is the result's transcript. */
  method RunLoop(model: HintProvider, env: Env) returns (res: Option<LoopResult>, live: Transcript)
    requires !model.injected && model.calls == 0
    modifies model
    ensures fresh(live)
    ensures res == RunFrom(model.base, env, model.hint)
    ensures res.Some? ==> live.items == res.value.trace.messages
    ensures res.Some? ==> exists replies, last :: Transcribes(model.base, env, model.hint, res.value, replies, last)
  {
    RunIsTranscribed(model.base, env, model.hint);
    live := new Transcript([Message(System, env.system), Message(User, env.trigger)]);
    var t := Trace(live.items, [], [], {});
    var step := 0;
    assert live.items + [] == live.items;
    while step < env.maxSteps
      invariant fresh(live) && model.calls == step && live.items == t.messages
      invariant model.injected == (step > 0 && model.hint.Some?)
      invariant step == 0 ==> t == Opening(env, None)
      invariant step > 0 ==>
        step <= env.maxSteps && RunFrom(model.base, env, model.hint) == Run(model.base, env, step, t)
    {
      var text := model.Complete(live);
      ghost var before := t;
      t := t.(messages := live.items);
      assert if step == 0 then t == Opening(env, model.hint) else t == before;
      assert RunFrom(model.base, env, model.hint) == Run(model.base, env, step, t);
      Unfold(model.base, env, step, t);
      if text.None? { return None, live; }
      step := step + 1;
      var d;
      t, d := TakeReply(live, env, text.value, t);
      if d.Some? {
        return Some(LoopResult(d.value, step, t)), live;
      }
    }
    res := Some(LoopResult(Exhausted(env, |t.violations|), step, t));
  }

  /** The trace after a reply, told without the loop: the reply alone if it concludes; else the reply
      and its answer, the call it makes, the objection if it gets no rows, and what its rows show. */
  ghost predicate Replied(env: Env, text: string, t: Trace, next: Trace) {
    if Conclusion(env, text).Some? then next == t.(messages := t.messages + [Message(Assistant, text)])
    else next == Trace(
      t.messages + [Message(Assistant, text), Answer(env, text)],
      t.calls + (if Request(env, text).Some? then [Request(env, text).value] else []),
      t.violations + (if RowsFor(env, text).None? then [Objection(env, text)] else []),
      t.seen + (if RowsFor(env, text).Some? then Seen(RowsFor(env, text).value) else {}))
  }

  /** One reply: it concludes, or it gets its answer. */
  lemma TakeTells(env: Env, text: string, t: Trace)
    ensures Take(env, text, t).1 == Conclusion(env, text) && Replied(env, text, t, Take(env, text, t).0)
  {
    var said := t.messages + [Message(Assistant, text)];
    assert forall m: Message :: said + [m] == t.messages + [Message(Assistant, text), m];
  }

  lemma ToldCons(env: Env, t: Trace, text: string, rest: seq<string>)
    requires Conclusion(env, text).None?
    ensures Told(env, t, [text] + rest) == Told(env, Take(env, text, t).0, rest)
  {
    TakeTells(env, text, t);
    ToldNext(env, t, text, rest, Take(env, text, t).0);
  }

  lemma ToldNext(env: Env, t: Trace, text: string, rest: seq<string>, next: Trace)
    requires Conclusion(env, text).None? && Replied(env, text, t, next)
    ensures Told(env, t, [text] + rest) == Told(env, next, rest)
  {
    var all := [text] + rest;
    assert all[0] == text && all[1..] == rest;
    MoreReplies(env, text, all, rest);
    Regroup(t.messages, [Message(Assistant, text), Answer(env, text)], Dialogue(env, rest));
    Regroup(t.calls, if Request(env, text).Some? then [Request(env, text).value] else [], Requests(env, rest));
    Regroup(t.violations, if RowsFor(env, text).None? then [Objection(env, text)] else [], Objections(env, rest));
    assert t.seen + SeenBy(env, all) == next.seen + SeenBy(env, rest);
  }

  lemma Regroup<T>(a: seq<T>, b: seq<T>, c: seq<T>)
    ensures a + (b + c) == (a + b) + c
  {
  }

  lemma MoreReplies(env: Env, text: string, all: seq<string>, rest: seq<string>)
    requires all != [] && all[0] == text && all[1..] == rest
    ensures Dialogue(env, all) == [Message(Assistant, text), Answer(env, text)] + Dialogue(env, rest)
    ensures Requests(env, all) ==
      (if Request(env, text).Some? then [Request(env, text).value] else []) + Requests(env, rest)
    ensures Objections(env, all) ==
      (if RowsFor(env, text).None? then [Objection(env, text)] else []) + Objections(env, rest)
    ensures SeenBy(env, all) ==
      (if RowsFor(env, text).Some? then Seen(RowsFor(env, text).value) else {}) + SeenBy(env, rest)
  {
  }

  /** What the model was given when it wrote each reply. */
  ghost predicate Wrote(p: Provider, env: Env, step: nat, t: Trace, replies: seq<string>) {
    forall i :: 0 <= i < |replies| ==>
      && p(step + i, Told(env, t, replies[..i]).messages) == Some(replies[i])
      && Conclusion(env, replies[i]).None?
  }

  /** How a run that has got to this trace goes on and ends: with a last reply that concludes, or
      with the budget spent. */
  ghost predicate GoesOn(p: Provider, env: Env, step: nat, t: Trace, replies: seq<string>, last: Option<string>,
                         res: LoopResult) {
    var end, n := Told(env, t, replies), step + |replies|;
    && Wrote(p, env, step, t, replies)
    && (last.None? ==>
          n >= env.maxSteps && res.steps == n && res.trace == end && res.diagnosis == Exhausted(env, |end.violations|))
    && (last.Some? ==>
          && n < env.maxSteps && res.steps == n + 1
          && p(n, end.messages) == last && Conclusion(env, last.value) == Some(res.diagnosis)
          && res.trace == end.(messages := end.messages + [Message(Assistant, last.value)]))
  }

  lemma WroteCons(p: Provider, env: Env, step: nat, t: Trace, text: string, rest: seq<string>)
    requires p(step, t.messages) == Some(text) && Conclusion(env, text).None?
    requires Wrote(p, env, step + 1, Take(env, text, t).0, rest)
    ensures Wrote(p, env, step, t, [text] + rest)
  {
    var replies := [text] + rest;
    forall i | 0 <= i < |replies|
      ensures p(step + i, Told(env, t, replies[..i]).messages) == Some(replies[i]) && Conclusion(env, replies[i]).None?
    {
      if i == 0 {
        assert Told(env, t, []).messages == t.messages;
      } else {
        assert replies[..i] == [text] + rest[..i - 1];
        ToldCons(env, t, text, rest[..i - 1]);
      }
    }
  }

  lemma GoesOnFrom(p: Provider, env: Env, step: nat, t: Trace, text: string, rest: seq<string>, last: Option<string>,
    res: LoopResult)
    requires p(step, t.messages) == Some(text) && Conclusion(env, text).None?
    requires GoesOn(p, env, step + 1, Take(env, text, t).0, rest, last, res)
    ensures GoesOn(p, env, step, t, [text] + rest, last, res)
  {
    WroteCons(p, env, step, t, text, rest);
    ToldCons(env, t, text, rest);
  }

  lemma {:induction false} RunTells(p: Provider, env: Env, step: nat, t: Trace)
    returns (replies: seq<string>, last: Option<string>)
    requires Run(p, env, step, t).Some?
    ensures GoesOn(p, env, step, t, replies, last, Run(p, env, step, t).value)
    decreases env.maxSteps - step
  {
    replies, last := [], None;
    assert Told(env, t, []) == t;
    if step < env.maxSteps {
      var text := p(step, t.messages).value;
      TakeTells(env, text, t);
      Unfold(p, env, step, t);
      var (t', d) := Take(env, text, t);
      if d.None? {
        var rest;
        rest, last := RunTells(p, env, step + 1, t');
        replies := [text] + rest;
        GoesOnFrom(p, env, step, t, text, rest, last, Run(p, env, step + 1, t').value);
      } else {
        last := Some(text);
      }
    }
  }

  lemma {:induction false} DialogueAt(env: Env, replies: seq<string>, i: nat)
    requires i < |replies|
    ensures Dialogue(env, replies)[2 * i] == Message(Assistant, replies[i])
    ensures Dialogue(env, replies)[2 * i + 1] == Answer(env, replies[i])
    ensures Dialogue(env, replies)[..2 * i] == Dialogue(env, replies[..i])
  {
    MoreReplies(env, replies[0], replies, replies[1..]);
    if i > 0 {
      DialogueAt(env, replies[1..], i - 1);
      assert replies[..i][1..] == replies[1..][..i - 1];
      MoreReplies(env, replies[0], replies[..i], replies[1..][..i - 1]);
      PairBefore(Message(Assistant, replies[0]), Answer(env, replies[0]), Dialogue(env, replies[1..]),
        Dialogue(env, replies), 2 * i - 2);
    }
  }

  lemma PairBefore<T>(a: T, b: T, rest: seq<T>, all: seq<T>, k: nat)
    requires all == [a, b] + rest && k + 1 < |rest|
    ensures all[k + 2] == rest[k] && all[k + 3] == rest[k + 1] && all[..k + 2] == [a, b] + rest[..k]
  {
  }

  /** The opening messages. */
  function Started(env: Env, hint: Option<string>): seq<Message> {
    [Message(System, env.system), Message(User, env.trigger)]
    + if hint.Some? && env.maxSteps >= 1 then [Message(User, "Operator hint: " + hint.value)] else []
  }

  /** A reply that does not conclude and its answer, from this position on. */
  ghost predicate TurnAt(p: Provider, env: Env, ms: seq<Message>, at: nat, n: nat, text: string) {
    && at + 1 < |ms| && ms[at] == Message(Assistant, text) && ms[at + 1] == Answer(env, text)
    && p(n, ms[..at]) == Some(text) && Conclusion(env, text).None?
  }

  /** The replies and their answers, one after the other from position `o` on. */
  ghost predicate AllTurns(p: Provider, env: Env, ms: seq<Message>, o: nat, replies: seq<string>) {
    forall i :: 0 <= i < |replies| ==> TurnAt(p, env, ms, o + 2 * i, i, replies[i])
  }

  lemma PrefixAt<T>(all: seq<T>, head: seq<T>, body: seq<T>, k: nat)
    requires head + body <= all && k <= |body|
    ensures all[..|head| + k] == head + body[..k]
    ensures k < |body| ==> |head| + k < |all| && all[|head| + k] == body[k]
  {
    assert all[..|head| + |body|] == head + body;
    if k < |body| {
      assert all[|head| + k] == (head + body)[|head| + k];
    }
  }

  lemma TurnIs(p: Provider, env: Env, t: Trace, replies: seq<string>, body: seq<Message>, ms: seq<Message>, i: nat)
    requires Wrote(p, env, 0, t, replies) && i < |replies|
    requires body == Dialogue(env, replies) && t.messages + body <= ms
    ensures TurnAt(p, env, ms, |t.messages| + 2 * i, i, replies[i])
  {
    WroteAt(p, env, t, replies, i);
    DialogueAt(env, replies, i);
    TurnStands(p, env, t.messages, replies[i], body, ms, i);
  }

  lemma WroteAt(p: Provider, env: Env, t: Trace, replies: seq<string>, i: nat)
    requires Wrote(p, env, 0, t, replies) && i < |replies|
    ensures p(i, t.messages + Dialogue(env, replies[..i])) == Some(replies[i]) && Conclusion(env, replies[i]).None?
  {
    assert p(0 + i, Told(env, t, replies[..i]).messages) == Some(replies[i]);
  }

  lemma TurnStands(p: Provider, env: Env, head: seq<Message>, text: string, body: seq<Message>, ms: seq<Message>,
    i: nat)
    requires head + body <= ms && 2 * i + 1 < |body|
    requires body[2 * i] == Message(Assistant, text) && body[2 * i + 1] == Answer(env, text)
    requires p(i, head + body[..2 * i]) == Some(text) && Conclusion(env, text).None?
    ensures TurnAt(p, env, ms, |head| + 2 * i, i, text)
  {
    PrefixAt(ms, head, body, 2 * i);
    PrefixAt(ms, head, body, 2 * i + 1);
  }

  lemma TurnsAre(p: Provider, env: Env, t: Trace, replies: seq<string>, ms: seq<Message>)
    requires Wrote(p, env, 0, t, replies) && t.messages + Dialogue(env, replies) <= ms
    ensures AllTurns(p, env, ms, |t.messages|, replies)
  {
    forall i | 0 <= i < |replies| ensures TurnAt(p, env, ms, |t.messages| + 2 * i, i, replies[i]) {
      TurnIs(p, env, t, replies, Dialogue(env, replies), ms, i);
    }
  }

  /** The messages of a run: the opening; then every reply that does not conclude, followed by its
      answer; then the concluding reply, if there is one. Each reply is what the model wrote on exactly
      the messages before it. */
  ghost predicate Written(p: Provider, env: Env, hint: Option<string>, ms: seq<Message>, replies: seq<string>,
    last: Option<string>)
  {
    var o := |Started(env, hint)|;
    && |ms| == o + 2 * |replies| + (if last.Some? then 1 else 0) && ms[..o] == Started(env, hint)
    && AllTurns(p, env, ms, o, replies)
    && (last.Some? ==> ms[o + 2 * |replies|] == Message(Assistant, last.value)
                       && p(|replies|, ms[..o + 2 * |replies|]) == last)
  }

  /** Calls, violations and seen handles are those of the replies, in order, and so is how it ends. */
  ghost predicate AddsUp(env: Env, res: LoopResult, replies: seq<string>, last: Option<string>) {
    && res.trace.calls == Requests(env, replies) && res.trace.violations == Objections(env, replies)
    && res.trace.seen == SeenBy(env, replies)
    && (if last.Some? then Conclusion(env, last.value) == Some(res.diagnosis)
        else res.diagnosis == Exhausted(env, |res.trace.violations|))
    && res.steps == |replies| + (if last.Some? then 1 else 0)
    && (if last.Some? then res.steps <= env.maxSteps else |replies| >= env.maxSteps)
  }

  ghost predicate Transcribes(p: Provider, env: Env, hint: Option<string>, res: LoopResult, replies: seq<string>,
    last: Option<string>)
  {
    Written(p, env, hint, res.trace.messages, replies, last) && AddsUp(env, res, replies, last)
  }

  lemma RunIsTranscribed(p: Provider, env: Env, hint: Option<string>)
    ensures RunFrom(p, env, hint).Some? ==>
      exists replies, last :: Transcribes(p, env, hint, RunFrom(p, env, hint).value, replies, last)
  {
    if RunFrom(p, env, hint).Some? {
      var replies, last := TranscriptMeans(p, env, hint);
    }
  }

  /** Every run, told without the loop: what its replies say and what answers them. An answer observes
      exactly the rows that the reply's call returned, or turns it down for the recorded objection. */
  lemma TranscriptMeans(p: Provider, env: Env, hint: Option<string>)
    returns (replies: seq<string>, last: Option<string>)
    requires RunFrom(p, env, hint).Some?
    ensures Transcribes(p, env, hint, RunFrom(p, env, hint).value, replies, last)
  {
    var t := Opening(env, hint);
    replies, last := RunTells(p, env, 0, t);
    var res := RunFrom(p, env, hint).value;
    var o, ms := |t.messages|, res.trace.messages;
    TurnsAre(p, env, t, replies, ms);
    PrefixAt(ms, t.messages, Dialogue(env, replies), 2 * |replies|);
    assert Dialogue(env, replies)[..2 * |replies|] == Dialogue(env, replies);
  }

  lemma Unfold(p: Provider, env: Env, step: nat, t: Trace)
    requires step < env.maxSteps
    ensures Run(p, env, step, t) ==
      match p(step, t.messages)
      case None => None
      case Some(text) =>
        var (t', d) := Take(env, text, t);
        if d.Some? then Some(LoopResult(d.value, step + 1, t')) else Run(p, env, step + 1, t')
  {
  }

  // --- replay ----------------------------------------------------------------------------------

  function AssistantTurns(ms: seq<Message>): seq<string> {
    if ms == [] then []
    else
      var n := |ms| - 1;
      AssistantTurns(ms[..n]) + if ms[n].role.Assistant? then [ms[n].content] else []
  }

  /** `ScriptedProvider`: past its script it raises. */
  function Scripted(script: seq<string>): Provider {
    (n: nat, ms: seq<Message>) => if n < |script| then Some(script[n]) else None
  }

  lemma TurnsSnoc(ms: seq<Message>, m: Message)
    ensures AssistantTurns(ms + [m]) == AssistantTurns(ms) + if m.role.Assistant? then [m.content] else []
  {
    assert (ms + [m])[..|ms|] == ms;
  }

  /** The reply is appended, and answered by at most one message, which is not the assistant's. */
  lemma TakeAppends(env: Env, text: string, t: Trace)
    ensures var said, after := t.messages + [Message(Assistant, text)], Take(env, text, t).0.messages;
      after == said || (after == said + [after[|after| - 1]] && !after[|after| - 1].role.Assistant?)
  {
  }

  lemma TakeAddsOneTurn(env: Env, text: string, t: Trace)
    ensures AssistantTurns(Take(env, text, t).0.messages) == AssistantTurns(t.messages) + [text]
    ensures t.messages <= Take(env, text, t).0.messages
  {
    TakeAppends(env, text, t);
    var said, after := t.messages + [Message(Assistant, text)], Take(env, text, t).0.messages;
    OneTurn(t.messages, text, said, after);
  }

  lemma OneTurn(before: seq<Message>, text: string, said: seq<Message>, after: seq<Message>)
    requires said == before + [Message(Assistant, text)]
    requires after == said || (after != [] && after == said + [after[|after| - 1]]
      && !after[|after| - 1].role.Assistant?)
    ensures AssistantTurns(after) == AssistantTurns(before) + [text] && before <= after
  {
    TurnsSnoc(before, Message(Assistant, text));
    if after != said {
      TurnsSnoc(said, after[|after| - 1]);
    }
  }

  /** One assistant turn for each step from `step` on, after the messages so far. */
  ghost predicate AddsTurns(step: nat, before: seq<Message>, res: LoopResult) {
    && step <= res.steps
    && |AssistantTurns(res.trace.messages)| == |AssistantTurns(before)| + res.steps - step
    && AssistantTurns(before) <= AssistantTurns(res.trace.messages)
    && before <= res.trace.messages
  }

  lemma {:induction false} RunAddsTurns(p: Provider, env: Env, step: nat, t: Trace)
    requires Run(p, env, step, t).Some?
    ensures AddsTurns(step, t.messages, Run(p, env, step, t).value)
    decreases env.maxSteps - step
  {
    if step < env.maxSteps {
      var text := p(step, t.messages).value;
      TakeAddsOneTurn(env, text, t);
      Unfold(p, env, step, t);
      var (t', d) := Take(env, text, t);
      if d.None? {
        RunAddsTurns(p, env, step + 1, t');
      }
    }
  }

  lemma {:induction false} ReplayRest(p: Provider, env: Env, step: nat, t: Trace, script: seq<string>)
    requires Run(p, env, step, t).Some? && |AssistantTurns(t.messages)| == step
    requires script == AssistantTurns(Run(p, env, step, t).value.trace.messages)
    ensures Run(Scripted(script), env, step, t) == Run(p, env, step, t)
    decreases env.maxSteps - step
  {
    if step < env.maxSteps {
      var text := p(step, t.messages).value;
      TakeAddsOneTurn(env, text, t);
      Unfold(p, env, step, t);
      var (t', d) := Take(env, text, t);
      if d.None? {
        RunAddsTurns(p, env, step + 1, t');
        ReplayRest(p, env, step + 1, t', script);
      }
      assert AssistantTurns(t'.messages) <= script;
      assert script[step] == AssistantTurns(t'.messages)[step] == text;
      Unfold(Scripted(script), env, step, t);
    }
  }

  lemma OpeningHasNoTurns(env: Env, hint: Option<string>)
    ensures AssistantTurns(Opening(env, hint).messages) == []
  {
    var system, trigger := Message(System, env.system), Message(User, env.trigger);
    TwoNoTurns(system, trigger);
    if hint.Some? && env.maxSteps >= 1 {
      TurnsSnoc([system, trigger], Note(hint.value));
    } else {
      assert [system, trigger] + [] == [system, trigger];
    }
  }

  lemma TwoNoTurns(a: Message, b: Message)
    requires !a.role.Assistant? && !b.role.Assistant?
    ensures AssistantTurns([a, b]) == []
  {
    TurnsSnoc([], a);
    TurnsSnoc([a], b);
    assert [] + [a] == [a] && [a] + [b] == [a, b];
  }

  /** Playing a transcript's assistant turns back through the loop reproduces everything: the
      messages, tool calls, violations, seen handles, steps and diagnosis. */
  lemma Replay(p: Provider, env: Env, hint: Option<string>)
    requires RunFrom(p, env, hint).Some?
    ensures RunFrom(Scripted(AssistantTurns(RunFrom(p, env, hint).value.trace.messages)), env, hint) ==
      RunFrom(p, env, hint)
  {
    OpeningHasNoTurns(env, hint);
    ReplayRest(p, env, 0, Opening(env, hint), AssistantTurns(RunFrom(p, env, hint).value.trace.messages));
  }

  // --- what a run has seen ---------------------------------------------------------------------

  function Answered(env: Env, calls: seq<(string, Args)>): nat {
    if calls == [] then 0
    else
      var (name, args) := calls[|calls| - 1];
      Answered(env, calls[..|calls| - 1]) + if name in env.tools && env.tools[name](args).Some? then 1 else 0
  }

  function Returned(env: Env, calls: seq<(string, Args)>): set<Handle> {
    if calls == [] then {}
    else
      var (name, args) := calls[|calls| - 1];
      Returned(env, calls[..|calls| - 1])
      + if name in env.tools && env.tools[name](args).Some? then Seen(env.tools[name](args).value) else {}
  }

  /** The trace accounts for itself: the seen handles are those the recorded calls returned, and
      every step is a violation, an answered call or the concluding diagnosis. */
  predicate Accounted(env: Env, t: Trace, steps: int) {
    t.seen == Returned(env, t.calls) && |t.violations| + Answered(env, t.calls) == steps
  }

  /** The transcript ends with the reply that concluded the run. */
  predicate Concluded(t: Trace) {
    t.messages != [] && t.messages[|t.messages| - 1].role.Assistant?
  }

  lemma TakeAccounts(env: Env, text: string, t: Trace, steps: int)
    requires Accounted(env, t, steps)
    ensures var (t', d) := Take(env, text, t);
      Accounted(env, t', if d.Some? then steps else steps + 1) && (Concluded(t') <==> d.Some?)
  {
    TakeTells(env, text, t);
    var (t', d) := Take(env, text, t);
    if d.None? {
      AnswerAccounts(env, text, t, steps, t');
    }
  }

  lemma OneMoreCall(env: Env, calls: seq<(string, Args)>, call: (string, Args))
    ensures Answered(env, calls + [call]) == Answered(env, calls) + if Returns(env, call).Some? then 1 else 0
    ensures Returned(env, calls + [call]) ==
      Returned(env, calls) + if Returns(env, call).Some? then Seen(Returns(env, call).value) else {}
  {
    assert (calls + [call])[..|calls|] == calls;
  }

  lemma AnswerAccounts(env: Env, text: string, t: Trace, steps: int, next: Trace)
    requires Accounted(env, t, steps)
    requires Conclusion(env, text).None? && Replied(env, text, t, next)
    ensures Accounted(env, next, steps + 1) && !Concluded(next)
  {
    CallsAfter(env, text, t.calls, next.calls);
  }

  lemma CallsAfter(env: Env, text: string, calls: seq<(string, Args)>, after: seq<(string, Args)>)
    requires after == calls + if Request(env, text).Some? then [Request(env, text).value] else []
    ensures Answered(env, after) == Answered(env, calls) + if RowsFor(env, text).Some? then 1 else 0
    ensures Returned(env, after) ==
      Returned(env, calls) + if RowsFor(env, text).Some? then Seen(RowsFor(env, text).value) else {}
  {
    if Request(env, text).Some? {
      OneMoreCall(env, calls, Request(env, text).value);
    } else {
      assert after == calls;
    }
  }

  /** How a run that had taken `step` steps ended. */
  predicate Ended(env: Env, step: nat, res: LoopResult) {
    if Concluded(res.trace) then
      step < res.steps <= env.maxSteps && Accounted(env, res.trace, res.steps - 1)
    else
      && res.steps == (if step < env.maxSteps then env.maxSteps else step)
      && Accounted(env, res.trace, res.steps)
      && res.diagnosis == Exhausted(env, |res.trace.violations|)
  }

  lemma {:induction false} RunAccounts(p: Provider, env: Env, step: nat, t: Trace)
    requires Accounted(env, t, step) && !Concluded(t) && Run(p, env, step, t).Some?
    ensures Ended(env, step, Run(p, env, step, t).value)
    decreases env.maxSteps - step
  {
    if step < env.maxSteps {
      var text := p(step, t.messages).value;
      TakeAccounts(env, text, t, step);
      Unfold(p, env, step, t);
      var (t', d) := Take(env, text, t);
      if d.None? {
        RunAccounts(p, env, step + 1, t');
      }
    }
  }

  /** Every run ends in one of two ways: the model concludes within the budget, or every step was
      spent on a violation or an answered call and the loop abstains on the model's behalf. */
  lemma EveryStepAccounted(p: Provider, env: Env, hint: Option<string>)
    requires RunFrom(p, env, hint).Some?
    ensures var res := RunFrom(p, env, hint).value;
      && res.trace.seen == Returned(env, res.trace.calls)
      && |res.trace.violations| + Answered(env, res.trace.calls) + (if Concluded(res.trace) then 1 else 0) == res.steps
      && (Concluded(res.trace) ==> 1 <= res.steps <= env.maxSteps)
      && (!Concluded(res.trace) ==>
            && res.steps == (if env.maxSteps > 0 then env.maxSteps else 0)
            && res.diagnosis == Exhausted(env, |res.trace.violations|))
  {
    RunAccounts(p, env, 0, Opening(env, hint));
  }

  lemma {:induction false} ReturnedReal(env: Env, calls: seq<(string, Args)>, sig: Signals)
    requires Confined(env.tools, sig)
    ensures Returned(env, calls) <= RealHandles(sig)
  {
    if calls != [] {
      ReturnedReal(env, calls[..|calls| - 1], sig);
      var (name, args) := calls[|calls| - 1];
      if name in env.tools && env.tools[name](args).Some? {
        assert Seen(env.tools[name](args).value) <= RealHandles(sig);
      }
    }
  }

  /** Over the incident's tools, for every provider, every reading of its replies and every
      argument it passes: nothing but real handles is ever seen, so the early-read measurement
      never misses a fabricated citation. */
  lemma UnseenCoversFabricated(p: Provider, env: Env, hint: Option<string>, sig: Signals, maxRows: nat, maxPoints: nat)
    requires Readable(sig) && NoStray(sig) && env.tools == IncidentTools(sig, maxRows, maxPoints)
    requires RunFrom(p, env, hint).Some?
    ensures var res := RunFrom(p, env, hint).value;
      && res.trace.seen <= RealHandles(sig)
      && Fabricated(res.diagnosis, sig) <= res.CitedButUnseen()
  {
    ToolsConfinedIff(sig, maxRows, maxPoints);
    EveryStepAccounted(p, env, hint);
    ReturnedReal(env, RunFrom(p, env, hint).value.trace.calls, sig);
  }

  // --- exactly when the measurement is sound -----------------------------------------------------

  lemma {:induction false} ReturnedShown(env: Env, calls: seq<(string, Args)>, sig: Signals, maxRows: nat,
                                         maxPoints: nat)
    requires Readable(sig) && env.tools == IncidentTools(sig, maxRows, maxPoints)
    ensures Returned(env, calls) <= RealHandles(sig) + Seen(sig.commits) + Seen(sig.metrics)
  {
    if calls != [] {
      ReturnedShown(env, calls[..|calls| - 1], sig, maxRows, maxPoints);
      var (name, args) := calls[|calls| - 1];
      if name in env.tools && env.tools[name](args).Some? {
        ToolsShow(sig, maxRows, maxPoints, name, args);
      }
    }
  }

  /** The early-read measurement misses no fabricated citation of the run. */
  predicate Covers(res: LoopResult, sig: Signals) {
    Fabricated(res.diagnosis, sig) <= res.CitedButUnseen()
  }

  lemma CitedIsCitable(d: Diagnosis)
    ensures forall h <- Cited(d) :: Citable(h)
  {
  }

  lemma NoCitableStrayCovers(p: Provider, env: Env, hint: Option<string>, sig: Signals, maxRows: nat, maxPoints: nat)
    requires Readable(sig) && NoCitableStray(sig) && env.tools == IncidentTools(sig, maxRows, maxPoints)
    requires RunFrom(p, env, hint).Some?
    ensures Covers(RunFrom(p, env, hint).value, sig)
  {
    var res := RunFrom(p, env, hint).value;
    EveryStepAccounted(p, env, hint);
    ReturnedShown(env, res.trace.calls, sig, maxRows, maxPoints);
    CitedIsCitable(res.diagnosis);
  }

  /** The text calls the tool without arguments. */
  predicate Calls(env: Env, text: string, name: string) {
    var r := env.words.read(text);
    r.Object? && r.action == Some(name) && r.args == Some(map[])
  }

  /** The text concludes with a diagnosis that cites the handle. */
  predicate Cites(env: Env, text: string, h: Handle) {
    var r := env.words.read(text);
    r.Object? && r.action == Some("diagnose") && r.diagnosis.Accepted? && h in Cited(r.diagnosis.d)
  }

  ghost predicate CanCite(env: Env, h: Handle) {
    exists text :: Cites(env, text, h)
  }

  /** A model can express a bare call of the two strictly read sources and a diagnosis that cites
      any handle there is to cite, and has the steps for one of each. */
  ghost predicate Speaks(env: Env) {
    && env.maxSteps >= 2
    && (exists text :: Calls(env, text, "get_recent_commits")) && (exists text :: Calls(env, text, "query_metrics"))
    && forall h :: Citable(h) ==> CanCite(env, h)
  }

  /** A model that makes one call and then concludes. */
  lemma CallThenConclude(env: Env, call: string, name: string, rows: seq<Row>, last: string, cited: Handle)
    requires env.maxSteps >= 2 && Calls(env, call, name) && Cites(env, last, cited)
    requires name != "diagnose" && name in env.tools && env.tools[name](map[]) == Some(rows)
    ensures var run := RunFrom(Scripted([call, last]), env, None);
      run.Some? && cited in Cited(run.value.diagnosis) && run.value.trace.seen == Seen(rows)
  {
    var p := Scripted([call, last]);
    var t0 := Opening(env, None);
    var t1 := Take(env, call, t0).0;
    Unfold(p, env, 0, t0);
    assert t1.seen == Seen(rows);
    Unfold(p, env, 1, t1);
  }

  /** Any handle of the two strictly read sources can be shown to a model that then cites what it
      likes. */
  lemma ShownThenCited(env: Env, sig: Signals, maxRows: nat, maxPoints: nat, h: Handle, cited: Handle)
    returns (p: Provider)
    requires Readable(sig) && env.tools == IncidentTools(sig, maxRows, maxPoints) && Speaks(env)
    requires h in Seen(sig.commits) + Seen(sig.metrics) && Citable(cited)
    ensures RunFrom(p, env, None).Some?
    ensures var res := RunFrom(p, env, None).value; cited in Cited(res.diagnosis) && h in res.trace.seen
  {
    UnfilteredShowsAll(sig, maxPoints);
    assert env.tools["get_recent_commits"](map[]) == GetRecentCommits(sig, map[]);
    assert env.tools["query_metrics"](map[]) == QueryMetrics(sig, maxPoints, map[]);
    var name := if h in Seen(sig.commits) then "get_recent_commits" else "query_metrics";
    var call :| Calls(env, call, name);
    assert CanCite(env, cited);
    var last :| Cites(env, last, cited);
    CallThenConclude(env, call, name, env.tools[name](map[]).value, last, cited);
    p := Scripted([call, last]);
  }

  /** Nothing but real handles is ever seen, by any model and with any hint, exactly when no row
      carries a stray one. */
  lemma SeenIsRealExactly(env: Env, sig: Signals, maxRows: nat, maxPoints: nat)
    requires Readable(sig) && env.tools == IncidentTools(sig, maxRows, maxPoints) && Speaks(env)
    ensures NoStray(sig) <==>
      forall p, hint :: RunFrom(p, env, hint).Some? ==> RunFrom(p, env, hint).value.trace.seen <= RealHandles(sig)
  {
    if NoStray(sig) {
      forall p, hint | RunFrom(p, env, hint).Some?
        ensures RunFrom(p, env, hint).value.trace.seen <= RealHandles(sig)
      {
        UnseenCoversFabricated(p, env, hint, sig, maxRows, maxPoints);
      }
    } else {
      var h :| h in Seen(sig.commits) + Seen(sig.metrics) && h !in RealHandles(sig);
      var p := ShownThenCited(env, sig, maxRows, maxPoints, h, Handle(LogKind, Int(0)));
      assert !(RunFrom(p, env, None).value.trace.seen <= RealHandles(sig));
    }
  }

  /** And the measurement misses no fabricated citation, of any model and with any hint, exactly
      when no row carries a stray handle that can be cited. */
  lemma CoversExactly(env: Env, sig: Signals, maxRows: nat, maxPoints: nat)
    requires Readable(sig) && env.tools == IncidentTools(sig, maxRows, maxPoints) && Speaks(env)
    ensures NoCitableStray(sig) <==>
      forall p, hint :: RunFrom(p, env, hint).Some? ==> Covers(RunFrom(p, env, hint).value, sig)
  {
    if NoCitableStray(sig) {
      forall p, hint | RunFrom(p, env, hint).Some? ensures Covers(RunFrom(p, env, hint).value, sig) {
        NoCitableStrayCovers(p, env, hint, sig, maxRows, maxPoints);
      }
    } else {
      var h :| h in Seen(sig.commits) + Seen(sig.metrics) && Citable(h) && h !in RealHandles(sig);
      var p := ShownThenCited(env, sig, maxRows, maxPoints, h, h);
      assert h in Fabricated(RunFrom(p, env, None).value.diagnosis, sig);
      assert !Covers(RunFrom(p, env, None).value, sig);
    }
  }
}
