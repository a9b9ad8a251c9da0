/** The tool-calling loop that finds a skill, and the fan-out of one loop per requirement. */
module Finder {
  import opened Collections
  import opened Wrappers
  import opened Text
  import FanOut

  const MAX_STEPS: nat := 8
  const MAX_FINDS: nat := 4

  datatype ToolCall = ToolCall(id: string, name: string, arguments: string)

  datatype Message = Message(role: string, content: string, calls: seq<ToolCall>, callId: string, name: string)

  datatype Found = Found(skill: string, sources: seq<string>, steps: nat)

  datatype Error = Model(reason: string) | NotConverged

  /** The model: any answer or error, depending on everything said so far. */
  type Model = seq<Message> -> Result<Message, string>

  /** The tools: any text and any fetched URL ("" when nothing was fetched), depending on everything said so far. */
  type Tools = (seq<Message>, ToolCall) -> (string, string)

  function ToolMessage(call: ToolCall, result: string): Message {
    Message("tool", result, [], call.id, call.name)
  }

  /** A turn: one model message and, right behind it in call order, one tool message per call, with its id. */
  predicate IsTurn(turn: seq<Message>) {
    && turn != [] && turn[0].calls != [] && |turn| == 1 + |turn[0].calls|
    && forall i :: 1 <= i < |turn| ==> turn[i] == ToolMessage(turn[0].calls[i - 1], turn[i].content)
  }

  /** Whole turns and nothing else: what the completion API demands of a transcript after its opening. */
  predicate WholeTurns(messages: seq<Message>)
    decreases |messages|
  {
    messages == []
    || (&& 1 + |messages[0].calls| <= |messages|
        && IsTurn(messages[..1 + |messages[0].calls|])
        && WholeTurns(messages[1 + |messages[0].calls|..]))
  }

  lemma {:induction false} AppendTurn(messages: seq<Message>, turn: seq<Message>)
    requires WholeTurns(messages) && IsTurn(turn)
    ensures WholeTurns(messages + turn)
    decreases |messages|
  {
    if messages == [] {
      assert messages + turn == turn && turn[..|turn|] == turn && turn[|turn|..] == [];
    } else {
      var n := 1 + |messages[0].calls|;
      assert (messages + turn)[..n] == messages[..n];
      assert (messages + turn)[n..] == messages[n..] + turn;
      AppendTurn(messages[n..], turn);
    }
  }

  // ---------- the conversation, replayed ----------

  /** The transcript once the first k calls of a model message are answered. */
  function Reply(tools: Tools, before: seq<Message>, msg: Message, k: nat): seq<Message>
    requires k <= |msg.calls|
  {
    if k == 0 then before + [msg]
    else
      var prior := Reply(tools, before, msg, k - 1);
      prior + [ToolMessage(msg.calls[k - 1], tools(prior, msg.calls[k - 1]).0)]
  }

  /** The URLs those answers fetched. */
  function Fetched(tools: Tools, before: seq<Message>, msg: Message, k: nat): seq<string>
    requires k <= |msg.calls|
  {
    if k == 0 then []
    else
      var url := tools(Reply(tools, before, msg, k - 1), msg.calls[k - 1]).1;
      Fetched(tools, before, msg, k - 1) + if url != "" then [url] else []
  }

  /** The transcript after n turns, asking the model on everything said before each. */
  function Replay(model: Model, tools: Tools, opening: seq<Message>, n: nat): seq<Message> {
    if n == 0 then opening
    else
      var before := Replay(model, tools, opening, n - 1);
      match model(before)
      case Ok(msg) => Reply(tools, before, msg, |msg.calls|)
      case Err(_) => before
  }

  function Sources(model: Model, tools: Tools, opening: seq<Message>, n: nat): seq<string> {
    if n == 0 then []
    else
      var before := Replay(model, tools, opening, n - 1);
      Sources(model, tools, opening, n - 1) +
      match model(before)
      case Ok(msg) => Fetched(tools, before, msg, |msg.calls|)
      case Err(_) => []
  }

  lemma {:induction false} ReplyShape(tools: Tools, before: seq<Message>, msg: Message, k: nat) returns (results: seq<Message>)
    requires k <= |msg.calls|
    ensures Reply(tools, before, msg, k) == before + ([msg] + results)
    ensures |results| == k && forall i :: 0 <= i < k ==> results[i] == ToolMessage(msg.calls[i], results[i].content)
  {
    results := [];
    if k > 0 {
      var fewer := ReplyShape(tools, before, msg, k - 1);
      var last := ToolMessage(msg.calls[k - 1], tools(Reply(tools, before, msg, k - 1), msg.calls[k - 1]).0);
      results := fewer + [last];
      assert before + ([msg] + fewer) + [last] == before + ([msg] + results);
    }
  }

  lemma ReplyIsTurn(tools: Tools, before: seq<Message>, msg: Message) returns (turn: seq<Message>)
    requires msg.calls != []
    ensures IsTurn(turn) && Reply(tools, before, msg, |msg.calls|) == before + turn
  {
    var results := ReplyShape(tools, before, msg, |msg.calls|);
    turn := [msg] + results;
  }

  predicate Calling(model: Model, transcript: seq<Message>) {
    model(transcript).Ok? && model(transcript).value.calls != []
  }

  /** The model keeps asking for tools for n turns. */
  predicate Continues(model: Model, tools: Tools, opening: seq<Message>, n: nat) {
    forall k: nat :: k < n ==> Calling(model, Replay(model, tools, opening, k))
  }

  /**
   Whatever the model and the tools answer, the transcript sent with the next completion call is the opening
   followed by whole turns: every earlier tool call is answered once, under its id, in call order.
   */
  lemma {:induction false} RequestsWellFormed(model: Model, tools: Tools, opening: seq<Message>, n: nat)
    requires Continues(model, tools, opening, n)
    ensures opening <= Replay(model, tools, opening, n)
    ensures WholeTurns(Replay(model, tools, opening, n)[|opening|..])
  {
    if n > 0 {
      RequestsWellFormed(model, tools, opening, n - 1);
      var before := Replay(model, tools, opening, n - 1);
      assert Calling(model, before);
      var turn := ReplyIsTurn(tools, before, model(before).value);
      TurnAfterOpening(opening, before, turn);
    }
  }

  lemma TurnAfterOpening(opening: seq<Message>, before: seq<Message>, turn: seq<Message>)
    requires opening <= before && WholeTurns(before[|opening|..]) && IsTurn(turn)
    ensures opening <= before + turn && WholeTurns((before + turn)[|opening|..])
  {
    AppendTurn(before[|opening|..], turn);
    assert (before + turn)[|opening|..] == before[|opening|..] + turn;
  }

  /** The transcripts of the first n completion calls. */
  function Requests(model: Model, tools: Tools, opening: seq<Message>, n: nat): seq<seq<Message>> {
    if n == 0 then [] else Requests(model, tools, opening, n - 1) + [Replay(model, tools, opening, n - 1)]
  }

  /** The opening, then whole turns. */
  predicate WellFormed(opening: seq<Message>, transcript: seq<Message>) {
    opening <= transcript && WholeTurns(transcript[|opening|..])
  }

  lemma {:induction false} AllWellFormed(model: Model, tools: Tools, opening: seq<Message>, n: nat)
    requires n > 0 ==> Continues(model, tools, opening, n - 1)
    ensures forall transcript :: transcript in Requests(model, tools, opening, n) ==> WellFormed(opening, transcript)
  {
    if n > 0 {
      RequestsWellFormed(model, tools, opening, n - 1);
      AllWellFormed(model, tools, opening, n - 1);
    }
  }

  // ---------- the conversation, stated on the transcripts ----------

  /**
   after is before, the model's message, and one tool message per call, in call order: the text the tool
   gives for that call when everything before it has been said, under the call's id and name.
   */
  predicate Answered(tools: Tools, before: seq<Message>, msg: Message, after: seq<Message>) {
    && |after| == |before| + 1 + |msg.calls| && after[..|before|] == before && after[|before|] == msg
    && forall i :: 0 <= i < |msg.calls| ==> AnsweredAt(tools, |before| + 1 + i, msg.calls[i], after)
  }

  predicate AnsweredAt(tools: Tools, at: nat, call: ToolCall, after: seq<Message>) {
    at < |after| && after[at] == Message("tool", tools(after[..at], call).0, [], call.id, call.name)
  }

  /** fetched lists the URLs of these answers, those that there are, in call order; urls are all, "" for none. */
  ghost predicate Fetches(tools: Tools, before: seq<Message>, msg: Message, after: seq<Message>, urls: seq<string>, fetched: seq<string>) {
    && |urls| == |msg.calls| && |after| == |before| + 1 + |msg.calls|
    && (forall i {:trigger urls[i]} :: 0 <= i < |urls| ==> urls[i] == tools(after[..|before| + 1 + i], msg.calls[i]).1)
    && Keeps(fetched, urls, NonEmpty())
  }

  function NonEmpty(): string -> bool {
    (url: string) => url != ""
  }

  lemma {:induction false} ReplyPrefix(tools: Tools, before: seq<Message>, msg: Message, i: nat, n: nat)
    requires i <= n <= |msg.calls|
    ensures |Reply(tools, before, msg, n)| == |before| + 1 + n
    ensures Reply(tools, before, msg, n)[..|before| + 1 + i] == Reply(tools, before, msg, i)
    decreases n
  {
    if i < n {
      ReplyPrefix(tools, before, msg, i, n - 1);
    } else if n > 0 {
      ReplyPrefix(tools, before, msg, n - 1, n - 1);
    }
  }

  lemma ReplyAt(tools: Tools, before: seq<Message>, msg: Message, i: nat, at: nat)
    requires i < |msg.calls| && at == |before| + 1 + i
    ensures AnsweredAt(tools, at, msg.calls[i], Reply(tools, before, msg, |msg.calls|))
  {
    var after, prior := Reply(tools, before, msg, |msg.calls|), Reply(tools, before, msg, i);
    ReplyUpTo(tools, before, msg, i, at);
    ReplyCutAfter(tools, before, msg, i, at);
    AnsweredNext(tools, at, msg.calls[i], after, prior);
  }

  lemma ReplyCutAfter(tools: Tools, before: seq<Message>, msg: Message, i: nat, at: nat)
    requires i < |msg.calls| && at == |before| + 1 + i
    ensures at < |Reply(tools, before, msg, |msg.calls|)|
    ensures Reply(tools, before, msg, |msg.calls|)[..at + 1]
         == Reply(tools, before, msg, i) + [ToolMessage(msg.calls[i], tools(Reply(tools, before, msg, i), msg.calls[i]).0)]
  {
    ReplyUpTo(tools, before, msg, i + 1, at + 1);
    ReplyNext(tools, before, msg, i);
  }

  lemma ReplyUpTo(tools: Tools, before: seq<Message>, msg: Message, i: nat, cut: nat)
    requires i <= |msg.calls| && cut == |before| + 1 + i
    ensures cut <= |Reply(tools, before, msg, |msg.calls|)| == |before| + 1 + |msg.calls|
    ensures Reply(tools, before, msg, |msg.calls|)[..cut] == Reply(tools, before, msg, i)
  {
    ReplyPrefix(tools, before, msg, i, |msg.calls|);
  }

  lemma AnsweredNext(tools: Tools, at: nat, call: ToolCall, after: seq<Message>, prior: seq<Message>)
    requires at < |after| && after[..at] == prior
    requires after[..at + 1] == prior + [ToolMessage(call, tools(prior, call).0)]
    ensures AnsweredAt(tools, at, call, after)
  {
    NextElement(after, prior, at, ToolMessage(call, tools(prior, call).0));
  }

  lemma ReplyNext(tools: Tools, before: seq<Message>, msg: Message, i: nat)
    requires i < |msg.calls|
    ensures Reply(tools, before, msg, i + 1)
         == Reply(tools, before, msg, i) + [ToolMessage(msg.calls[i], tools(Reply(tools, before, msg, i), msg.calls[i]).0)]
  {
  }

  lemma NextElement<T>(after: seq<T>, prior: seq<T>, k: nat, x: T)
    requires k < |after| && after[..k] == prior && after[..k + 1] == prior + [x]
    ensures after[k] == x
  {
    assert after[..k + 1][k] == (prior + [x])[k];
  }

  lemma ReplyAnswered(tools: Tools, before: seq<Message>, msg: Message)
    ensures Answered(tools, before, msg, Reply(tools, before, msg, |msg.calls|))
  {
    ReplyPrefix(tools, before, msg, 0, |msg.calls|);
    var after := Reply(tools, before, msg, |msg.calls|);
    assert after[..|before| + 1] == before + [msg];
    assert after[..|before|] == after[..|before| + 1][..|before|] && after[|before|] == after[..|before| + 1][|before|];
    forall i | 0 <= i < |msg.calls|
      ensures AnsweredAt(tools, |before| + 1 + i, msg.calls[i], after)
    {
      ReplyAt(tools, before, msg, i, |before| + 1 + i);
    }
  }

  lemma {:induction false} FetchedUrls(tools: Tools, before: seq<Message>, msg: Message, n: nat) returns (urls: seq<string>)
    requires n <= |msg.calls|
    ensures |urls| == n && forall i {:trigger urls[i]} :: 0 <= i < n ==> urls[i] == tools(Reply(tools, before, msg, i), msg.calls[i]).1
    ensures Keeps(Fetched(tools, before, msg, n), urls, NonEmpty())
  {
    urls := [];
    if n == 0 {
      KeepsNone(NonEmpty());
    } else {
      var fewer := FetchedUrls(tools, before, msg, n - 1);
      var url := tools(Reply(tools, before, msg, n - 1), msg.calls[n - 1]).1;
      KeepsOneMore(Fetched(tools, before, msg, n - 1), fewer, NonEmpty(), url);
      urls := fewer + [url];
    }
  }

  lemma ReplyFetches(tools: Tools, before: seq<Message>, msg: Message) returns (urls: seq<string>)
    ensures Fetches(tools, before, msg, Reply(tools, before, msg, |msg.calls|), urls, Fetched(tools, before, msg, |msg.calls|))
  {
    urls := FetchedUrls(tools, before, msg, |msg.calls|);
    ReplyPrefix(tools, before, msg, 0, |msg.calls|);
    forall i | 0 <= i < |msg.calls|
      ensures urls[i] == tools(Reply(tools, before, msg, |msg.calls|)[..|before| + 1 + i], msg.calls[i]).1
    {
      ReplyPrefix(tools, before, msg, i, |msg.calls|);
    }
  }

  /** Each completion call but the last got an answer with tool calls, all answered before the next. */
  predicate Conversed(model: Model, tools: Tools, opening: seq<Message>, asked: seq<seq<Message>>) {
    && 1 <= |asked| <= 8 && asked[0] == opening
    && forall k :: 0 <= k < |asked| - 1 ==> Exchanged(model, tools, asked[k], asked[k + 1])
  }

  predicate Exchanged(model: Model, tools: Tools, before: seq<Message>, after: seq<Message>) {
    model(before).Ok? && model(before).value.calls != [] && Answered(tools, before, model(before).value, after)
  }

  ghost predicate FetchesSome(tools: Tools, before: seq<Message>, msg: Message, after: seq<Message>, fetched: seq<string>) {
    exists urls :: Fetches(tools, before, msg, after, urls, fetched)
  }

  /** sources are the URLs fetched, exchange by exchange. */
  ghost predicate Gathers(model: Model, tools: Tools, asked: seq<seq<Message>>, sources: seq<string>) {
    exists parts :: |parts| == |asked| - 1 && sources == Concat(parts) && GathersParts(model, tools, asked, parts)
  }

  ghost predicate GathersParts(model: Model, tools: Tools, asked: seq<seq<Message>>, parts: seq<seq<string>>)
    requires |parts| <= |asked| - 1
  {
    forall k :: 0 <= k < |parts| ==>
      model(asked[k]).Ok? && FetchesSome(tools, asked[k], model(asked[k]).value, asked[k + 1], parts[k])
  }

  /** How the search ended, judged by the model's answer to the last completion call. */
  predicate Concludes(model: Model, asked: seq<seq<Message>>, r: Result<Found, Error>)
    requires asked != []
  {
    var last := model(asked[|asked| - 1]);
    match r
    case Ok(found) => last.Ok? && last.value.calls == [] && found.skill == TrimSpace(last.value.content) && found.steps == |asked|
    case Err(Model(reason)) => last == Err(reason)
    case Err(NotConverged) => |asked| == 8 && last.Ok? && last.value.calls != []
  }

  lemma {:induction false} RequestAt(model: Model, tools: Tools, opening: seq<Message>, n: nat)
    ensures |Requests(model, tools, opening, n)| == n
    ensures forall k :: 0 <= k < n ==> Requests(model, tools, opening, n)[k] == Replay(model, tools, opening, k)
  {
    if n > 0 {
      RequestAt(model, tools, opening, n - 1);
    }
  }

  lemma ExchangeAt(model: Model, tools: Tools, opening: seq<Message>, k: nat)
    requires Calling(model, Replay(model, tools, opening, k))
    ensures Exchanged(model, tools, Replay(model, tools, opening, k), Replay(model, tools, opening, k + 1))
  {
    var before := Replay(model, tools, opening, k);
    ReplyAnswered(tools, before, model(before).value);
  }

  lemma RequestsConverse(model: Model, tools: Tools, opening: seq<Message>, n: nat)
    requires 1 <= n <= 8 && Continues(model, tools, opening, n - 1)
    ensures Conversed(model, tools, opening, Requests(model, tools, opening, n))
  {
    var asked := Requests(model, tools, opening, n);
    RequestAt(model, tools, opening, n);
    forall k | 0 <= k < n - 1
      ensures Exchanged(model, tools, asked[k], asked[k + 1])
    {
      ExchangeAt(model, tools, opening, k);
    }
  }

  lemma {:induction false} SourceParts(model: Model, tools: Tools, opening: seq<Message>, asked: seq<seq<Message>>, n: nat)
    returns (parts: seq<seq<string>>)
    requires n < |asked| && forall k :: 0 <= k < |asked| ==> asked[k] == Replay(model, tools, opening, k)
    requires forall k :: 0 <= k < |asked| - 1 ==> Exchanged(model, tools, asked[k], asked[k + 1])
    ensures |parts| == n && Sources(model, tools, opening, n) == Concat(parts) && GathersParts(model, tools, asked, parts)
  {
    if n == 0 {
      parts := [];
    } else {
      var before := asked[n - 1];
      assert Exchanged(model, tools, asked[n - 1], asked[n]);
      var msg := model(before).value;
      var earlier := SourceParts(model, tools, opening, asked, n - 1);
      var urls := ReplyFetches(tools, before, msg);
      var fetched := Fetched(tools, before, msg, |msg.calls|);
      assert FetchesSome(tools, before, msg, asked[n], fetched);
      parts := earlier + [fetched];
      assert parts[..n - 1] == earlier;
    }
  }

  /** How a search that made n completion calls ended. */
  predicate Explains(model: Model, tools: Tools, opening: seq<Message>, n: nat, r: Result<Found, Error>) {
    n > 0 &&
    var last := model(Replay(model, tools, opening, n - 1));
    match r
    case Ok(found) =>
      && last.Ok? && last.value.calls == []
      && found == Found(TrimSpace(last.value.content), Sources(model, tools, opening, n - 1), n)
    case Err(Model(reason)) => last == Err(reason)
    case Err(NotConverged) => n == MAX_STEPS && last.Ok? && last.value.calls != []
  }

  /** The n-th completion call was reached, and it ended the search with r. */
  predicate Ends(model: Model, tools: Tools, opening: seq<Message>, n: nat, r: Result<Found, Error>) {
    n > 0 && Continues(model, tools, opening, n - 1) && Explains(model, tools, opening, n, r)
  }

  /**
   The whole search, told on the transcripts of its completion calls: each is well-formed, each but the last
   is answered in the next, the result is the last answer's, and its sources are the URLs fetched.
   */
  ghost predicate Told(model: Model, tools: Tools, opening: seq<Message>, asked: seq<seq<Message>>, r: Result<Found, Error>) {
    && Conversed(model, tools, opening, asked)
    && (forall transcript :: transcript in asked ==> WellFormed(opening, transcript))
    && Concludes(model, asked, r)
    && (r.Ok? ==> Gathers(model, tools, asked, r.value.sources))
  }

  lemma SearchTold(model: Model, tools: Tools, opening: seq<Message>, asked: seq<seq<Message>>, r: Result<Found, Error>)
    requires 1 <= |asked| <= 8 && asked == Requests(model, tools, opening, |asked|) && Ends(model, tools, opening, |asked|, r)
    ensures Told(model, tools, opening, asked, r)
  {
    AllWellFormed(model, tools, opening, |asked|);
    RequestsConverse(model, tools, opening, |asked|);
    RequestAt(model, tools, opening, |asked|);
    if r.Ok? {
      var parts := SourceParts(model, tools, opening, asked, |asked| - 1);
    }
  }

  /**
   asked records the transcript of every completion call: at most 8, the k-th being what k replayed turns
   leave behind, and each the opening followed by whole turns.
   */
  method Find(model: Model, tools: Tools, opening: seq<Message>)
    returns (r: Result<Found, Error>, ghost asked: seq<seq<Message>>)
    ensures exists n: nat :: n <= MAX_STEPS && Ends(model, tools, opening, n, r)
    ensures |asked| <= MAX_STEPS
    ensures asked == Requests(model, tools, opening, |asked|)
    ensures Ends(model, tools, opening, |asked|, r)
    ensures Told(model, tools, opening, asked, r)
  {
    var messages := opening;
    var sources: seq<string> := [];
    r, asked := Err(NotConverged), [];
    for step := 1 to MAX_STEPS + 1
      invariant |asked| == step - 1 && r == Err(NotConverged)
      invariant messages == Replay(model, tools, opening, step - 1)
      invariant sources == Sources(model, tools, opening, step - 1)
      invariant asked == Requests(model, tools, opening, step - 1)
      invariant Continues(model, tools, opening, step - 1)
      invariant step > MAX_STEPS ==> Ends(model, tools, opening, MAX_STEPS, Err(NotConverged))
    {
      asked := asked + [messages];
      var end;
      end, messages, sources := Turn(model, tools, opening, messages, sources, step);
      if end.Some? {
        r := end.value;
        assert Ends(model, tools, opening, step, r);
        break;
      }
    }
    assert 1 <= |asked| <= MAX_STEPS && Ends(model, tools, opening, |asked|, r);
    SearchTold(model, tools, opening, asked, r);
  }

  /** One round trip: the search ends here, or the model's calls are answered. */
  method Turn(model: Model, tools: Tools, ghost opening: seq<Message>, before: seq<Message>, earlier: seq<string>, step: nat)
    returns (end: Option<Result<Found, Error>>, messages: seq<Message>, sources: seq<string>)
    requires 1 <= step <= MAX_STEPS
    requires before == Replay(model, tools, opening, step - 1)
    requires earlier == Sources(model, tools, opening, step - 1)
    ensures end.Some? ==> Explains(model, tools, opening, step, end.value)
    ensures end.None? ==>
              && Calling(model, before)
              && messages == Replay(model, tools, opening, step)
              && sources == Sources(model, tools, opening, step)
    ensures end.None? && step == MAX_STEPS ==> Explains(model, tools, opening, step, Err(NotConverged))
  {
    var answer := model(before);
    messages, sources := before, earlier;
    if answer.Err? {
      return Some(Err(Error.Model(answer.error))), messages, sources;
    }
    var msg := answer.value;
    messages := messages + [msg];
    if msg.calls == [] {
      return Some(Ok(Found(TrimSpace(msg.content), sources, step))), messages, sources;
    }
    var fetched: seq<string>;
    messages, fetched := Dispatch(tools, before, msg);
    sources := sources + fetched;
    end := None;
  }

  /** Run every requested call in order, appending each result behind the model's message. */
  method Dispatch(tools: Tools, before: seq<Message>, msg: Message) returns (messages: seq<Message>, fetched: seq<string>)
    ensures messages == Reply(tools, before, msg, |msg.calls|)
    ensures fetched == Fetched(tools, before, msg, |msg.calls|)
    ensures Answered(tools, before, msg, messages) && FetchesSome(tools, before, msg, messages, fetched)
  {
    ReplyAnswered(tools, before, msg);
    ghost var urls := ReplyFetches(tools, before, msg);
    messages := before + [msg];
    fetched := [];
    for i := 0 to |msg.calls|
      invariant messages == Reply(tools, before, msg, i)
      invariant fetched == Fetched(tools, before, msg, i)
    {
      var (result, url) := tools(messages, msg.calls[i]);
      if url != "" {
        fetched := fetched + [url];
      }
      messages := messages + [ToolMessage(msg.calls[i], result)];
    }
  }

  // ---------- one finder per requirement ----------

  datatype FindResult = FindResult(requirement: string, found: Result<Found, Error>)

  function Kept(reqs: seq<string>): seq<string> {
    if reqs == [] then []
    else Kept(reqs[..|reqs| - 1]) + if TrimSpace(reqs[|reqs| - 1]) == "" then [] else [reqs[|reqs| - 1]]
  }

  function NonBlank(): string -> bool {
    (req: string) => exists c :: c in req && c !in SPACES
  }

  lemma {:induction false} KeptExactly(reqs: seq<string>)
    ensures Keeps(Kept(reqs), reqs, NonBlank())
  {
    if reqs == [] {
      KeepsNone(NonBlank());
    } else {
      var n := |reqs| - 1;
      KeptExactly(reqs[..n]);
      TrimBlank(reqs[n]);
      KeepsOneMore(Kept(reqs[..n]), reqs[..n], NonBlank(), reqs[n]);
      assert reqs == reqs[..n] + [reqs[n]];
    }
  }

  /** The requirements with anything but white space, the single one first, in the order given and as given. */
  method GatherRequirements(single: string, many: seq<string>) returns (reqs: seq<string>)
    ensures reqs == Kept([single] + many)
    ensures Keeps(reqs, [single] + many, NonBlank())
  {
    reqs := [];
    if TrimSpace(single) != "" {
      reqs := reqs + [single];
    }
    assert ([single] + many)[..1] == [single] && [single][..0] == [];
    for i := 0 to |many|
      invariant reqs == Kept(([single] + many)[..i + 1])
    {
      assert ([single] + many)[..i + 2][..i + 1] == ([single] + many)[..i + 1];
      if TrimSpace(many[i]) != "" {
        reqs := reqs + [many[i]];
      }
    }
    assert ([single] + many)[..|many| + 1] == [single] + many;
    KeptExactly([single] + many);
  }

  /**
   find is what the finder of a slot ends with. Refused without a requirement; else results stay in the order
   requested, one per kept requirement.
   */
  method FindAll(single: string, many: seq<string>, find: (nat, string) -> Result<Found, Error>)
    returns (results: Option<seq<FindResult>>, ghost peak: int)
    ensures exists reqs :: Keeps(reqs, [single] + many, NonBlank()) && ResultsFor(reqs, find, results)
    ensures peak <= 4
  {
    peak := 0;
    var reqs := GatherRequirements(single, many);
    results := None;
    if reqs != [] {
      var work := seq(|reqs|, i requires 0 <= i < |reqs| => FindResult(reqs[i], find(i, reqs[i])));
      var slots;
      slots, peak := FanOut.RunAll(FindResult("", Err(NotConverged)), work, MAX_FINDS);
      results := Some(slots[..]);
    }
    assert ResultsFor(reqs, find, results);
  }

  /** Refused without a requirement; else one result per requirement, in order. */
  predicate ResultsFor(reqs: seq<string>, find: (nat, string) -> Result<Found, Error>, results: Option<seq<FindResult>>) {
    && (results.None? <==> reqs == [])
    && (results.Some? ==> |results.value| == |reqs|)
    && (results.Some? ==> forall i :: 0 <= i < |reqs| ==> results.value[i] == FindResult(reqs[i], find(i, reqs[i])))
  }
}
