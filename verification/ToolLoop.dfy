/**
 The tool loops over an OpenAI-compatible provider (backend/chat_tools.py,
 `stream_openai_with_tools` and `run_openai_with_tools`).

 The provider and the tools are arbitrary functions: a reply may depend on the round and on the whole
 transcript sent, a tool's result on the round, the position and the call. Nothing raises. A tool's
 result text is the already truncated JSON.
 */
module ToolLoop {
  import opened Indices
  import opened Options
  import opened ToolCalls

  datatype Message =
    | Given(role: string, content: string)
    | Assistant(content: string, calls: seq<Call>)
    | ToolResult(callId: string, content: string)

  datatype Event =
    | Generating
    | UsingTool(name: string)
    | Token(text: string)
    | ClientAction(action: string)
    | Finished

  datatype Chunk = Chunk(content: string, deltas: seq<Delta>)

  /** A line of the stream: not an event, the end mark, undecodable JSON, or a chunk. */
  datatype Line = Skip | EndMark | Garbled | Data(chunk: Chunk)

  datatype ToolOut = ToolOut(action: Option<string>, content: string)

  /** A whole reply, as the non-streaming endpoint gives it. */
  datatype Reply = Reply(content: string, calls: seq<Call>)

  type Streamer = (int, seq<Message>) -> seq<Line>
  type Replier = (int, seq<Message>) -> Reply
  type Tools = (int, int, Call) -> ToolOut

  // ---------- One streamed reply ----------

  /** The chunks before the end mark. */
  function Chunks(lines: seq<Line>): seq<Chunk> {
    if lines == [] || lines[0].EndMark? then []
    else (if lines[0].Data? then [lines[0].chunk] else []) + Chunks(lines[1..])
  }

  function Content(chunks: seq<Chunk>): string {
    if chunks == [] then "" else Content(chunks[..|chunks| - 1]) + chunks[|chunks| - 1].content
  }

  function TokenOf(content: string): seq<Event> {
    if content != "" then [Token(content)] else []
  }

  function Tokens(chunks: seq<Chunk>): seq<Event> {
    if chunks == [] then [] else Tokens(chunks[..|chunks| - 1]) + TokenOf(chunks[|chunks| - 1].content)
  }

  function Deltas(chunks: seq<Chunk>): seq<Delta> {
    if chunks == [] then [] else Deltas(chunks[..|chunks| - 1]) + chunks[|chunks| - 1].deltas
  }

  lemma Regroup<T>(a: seq<T>, b: seq<T>, c: seq<T>)
    ensures a + (b + c) == a + b + c
  {}

  /** `done` are the chunks among the first `i` lines, none of which ended the stream. */
  ghost predicate ReadUpTo(lines: seq<Line>, i: nat, done: seq<Chunk>) {
    i <= |lines| && done + Chunks(lines[i..]) == Chunks(lines)
  }

  lemma ReadLine(lines: seq<Line>, i: nat, done: seq<Chunk>)
    requires ReadUpTo(lines, i, done) && i < |lines|
    ensures lines[i].EndMark? ==> done == Chunks(lines)
    ensures lines[i].Skip? || lines[i].Garbled? ==> ReadUpTo(lines, i + 1, done)
    ensures lines[i].Data? ==> ReadUpTo(lines, i + 1, done + [lines[i].chunk])
  {
    assert lines[i..][1..] == lines[i + 1..];
    if lines[i].Data? {
      assert done + ([lines[i].chunk] + Chunks(lines[i + 1..])) == (done + [lines[i].chunk]) + Chunks(lines[i + 1..]);
    } else {
      assert done + [] == done;
      assert [] + Chunks(lines[i + 1..]) == Chunks(lines[i + 1..]);
    }
  }

  lemma ReadAll(lines: seq<Line>, done: seq<Chunk>)
    requires ReadUpTo(lines, |lines|, done)
    ensures done == Chunks(lines)
  {
    assert lines[|lines|..] == [] && done + [] == done;
  }

  /** What has been read so far is what the given chunks hold. */
  ghost predicate ReadInto(done: seq<Chunk>, content: string, events: seq<Event>, acc: map<int, Slot>) {
    content == Content(done) && events == Tokens(done) && acc == SlotsOf(done)
  }

  lemma ReadOne(done: seq<Chunk>, content: string, events: seq<Event>, acc: map<int, Slot>, chunk: Chunk)
    requires ReadInto(done, content, events, acc)
    ensures ReadInto(done + [chunk], content + chunk.content, events + TokenOf(chunk.content),
                     MergeAll(acc, chunk.deltas))
  {
    assert (done + [chunk])[..|done|] == done;
    MergeAppend(map[], Deltas(done), chunk.deltas);
  }

  lemma NothingRead(content: string, events: seq<Event>, acc: map<int, Slot>)
    ensures content + "" == content && events + [] == events && MergeAll(acc, []) == acc
  {}

  method ReadChunk(chunk: Chunk, given: string, shown: seq<Event>, slots: Accumulator)
    returns (content: string, events: seq<Event>)
    modifies slots
    ensures content == given + chunk.content && events == shown + TokenOf(chunk.content)
    ensures slots.acc == MergeAll(old(slots.acc), chunk.deltas)
  {
    content, events := given, shown;
    NothingRead(content, events, slots.acc);
    if chunk.content != "" {
      content := content + chunk.content;
      events := events + [Token(chunk.content)];
    }
    if chunk.deltas != [] {
      slots.Accumulate(chunk.deltas);
    }
  }

  method ReadReply(lines: seq<Line>) returns (content: string, events: seq<Event>, acc: map<int, Slot>)
    ensures content == Content(Chunks(lines)) && events == Tokens(Chunks(lines))
    ensures acc == SlotsOf(Chunks(lines))
  {
    content, events := "", [];
    var slots := new Accumulator();
    var i := 0;
    ghost var done: seq<Chunk> := [];
    assert ReadUpTo(lines, 0, done) by {
      assert lines[0..] == lines && [] + Chunks(lines) == Chunks(lines);
    }
    while i < |lines| && !lines[i].EndMark?
      invariant ReadUpTo(lines, i, done) && ReadInto(done, content, events, slots.acc)
    {
      ReadLine(lines, i, done);
      if lines[i].Data? {
        ReadOne(done, content, events, slots.acc, lines[i].chunk);
        content, events := ReadChunk(lines[i].chunk, content, events, slots);
        done := done + [lines[i].chunk];
      }
      i := i + 1;
    }
    if i < |lines| {
      ReadLine(lines, i, done);
    } else {
      ReadAll(lines, done);
    }
    acc := slots.acc;
  }

  // ---------- What a reply is made of ----------

  lemma {:induction false} ChunksSnoc(lines: seq<Line>, line: Line)
    ensures Chunks(lines + [line]) ==
            Chunks(lines) +
            if line.Data? && (forall j :: 0 <= j < |lines| ==> !lines[j].EndMark?) then [line.chunk] else []
  {
    if lines == [] {
      assert [line][1..] == [] && [] + [line] == [line];
    } else {
      ChunksSnoc(lines[1..], line);
      assert (lines + [line])[1..] == lines[1..] + [line];
      assert forall j :: 1 <= j < |lines| ==> lines[j] == lines[1..][j - 1];
    }
  }

  ghost function BeforeEnd(lines: seq<Line>): set<nat> {
    set i: nat | i < |lines| && lines[i].Data? && forall j :: 0 <= j < i ==> !lines[j].EndMark?
  }

  /** The chunks of a stream are its data lines before the end mark; other lines are passed over. */
  lemma {:induction false} ChunksAre(lines: seq<Line>) returns (at: seq<nat>)
    ensures Lists(at, BeforeEnd(lines)) && |Chunks(lines)| == |at|
    ensures forall k :: 0 <= k < |at| ==> Chunks(lines)[k] == lines[at[k]].chunk
  {
    at := [];
    if lines != [] {
      var n := |lines| - 1;
      at := ChunksAre(lines[..n]);
      ChunksSnoc(lines[..n], lines[n]);
      assert lines == lines[..n] + [lines[n]];
      BeforeEndNext(lines, n);
      if n in BeforeEnd(lines) {
        ListsMore(at, BeforeEnd(lines[..n]), n);
        at := at + [n];
      }
    }
  }

  lemma BeforeEndNext(lines: seq<Line>, n: nat)
    requires n + 1 == |lines|
    ensures BeforeEnd(lines) == BeforeEnd(lines[..n]) + if n in BeforeEnd(lines) then {n} else {}
    ensures n in BeforeEnd(lines) <==>
            lines[n].Data? && forall j :: 0 <= j < |lines[..n]| ==> !lines[..n][j].EndMark?
  {
    forall i: nat | i < n ensures i in BeforeEnd(lines) <==> i in BeforeEnd(lines[..n]) {
      assert forall j :: 0 <= j <= i ==> lines[..n][j] == lines[j];
    }
  }

  /** The text, the tokens and the deltas of a reply are those of its chunks, one after the other. */
  lemma {:induction false} ReplyConcat(a: seq<Chunk>, b: seq<Chunk>)
    ensures Content(a + b) == Content(a) + Content(b)
    ensures Tokens(a + b) == Tokens(a) + Tokens(b)
    ensures Deltas(a + b) == Deltas(a) + Deltas(b)
  {
    if b == [] {
      assert a + b == a && Content(a) + "" == Content(a) && Tokens(a) + [] == Tokens(a);
    } else {
      var n := |b| - 1;
      ReplyConcat(a, b[..n]);
      assert (a + b)[..|a + b| - 1] == a + b[..n];
      Regroup(Content(a), Content(b[..n]), b[n].content);
      Regroup(Tokens(a), Tokens(b[..n]), TokenOf(b[n].content));
      Regroup(Deltas(a), Deltas(b[..n]), b[n].deltas);
    }
  }

  /** One chunk shows its text, if it has any, as one token. */
  lemma ReplyOfOne(chunk: Chunk)
    ensures Content([chunk]) == chunk.content && Deltas([chunk]) == chunk.deltas
    ensures Tokens([chunk]) == if chunk.content != "" then [Token(chunk.content)] else []
  {
    assert [chunk][..0] == [] && "" + chunk.content == chunk.content && [] + chunk.deltas == chunk.deltas;
  }

  // ---------- One round of tool calls ----------

  /** The tool messages of a round, one per call. */
  function Results(tools: Tools, round: int, calls: seq<Call>, i: nat): seq<Message>
    requires i <= |calls|
    decreases |calls| - i
  {
    if i == |calls| then []
    else [ToolResult(calls[i].id, tools(round, i, calls[i]).content)] + Results(tools, round, calls, i + 1)
  }

  /** What a tool's result makes the client do. */
  function Acted(out: ToolOut): seq<string> {
    if out.action.Some? then [out.action.value] else []
  }

  function ActionOf(out: ToolOut): seq<Event> {
    if out.action.Some? then [ClientAction(out.action.value)] else []
  }

  function Actions(tools: Tools, round: int, calls: seq<Call>, i: nat): seq<string>
    requires i <= |calls|
    decreases |calls| - i
  {
    if i == |calls| then []
    else
      Acted(tools(round, i, calls[i])) + Actions(tools, round, calls, i + 1)
  }

  function CallEvents(tools: Tools, round: int, calls: seq<Call>, i: nat): seq<Event>
    requires i <= |calls|
    decreases |calls| - i
  {
    if i == |calls| then []
    else
      [UsingTool(calls[i].name)] + ActionOf(tools(round, i, calls[i])) + CallEvents(tools, round, calls, i + 1)
  }

  /** The slots of a reply, and the calls they make. */
  function SlotsOf(chunks: seq<Chunk>): map<int, Slot> {
    MergeAll(map[], Deltas(chunks))
  }

  function CallsOf(chunks: seq<Chunk>): seq<Call> {
    OrderedCalls(SlotsOf(chunks))
  }

  function Shown(chunks: seq<Chunk>): seq<Event> {
    [Generating] + Tokens(chunks)
  }

  /** All events of a round that calls tools. */
  function RoundEvents(tools: Tools, round: int, chunks: seq<Chunk>): seq<Event> {
    Shown(chunks) + CallEvents(tools, round, CallsOf(chunks), 0)
  }

  function Block(tools: Tools, round: int, content: string, calls: seq<Call>): seq<Message> {
    [Assistant(content, calls)] + Results(tools, round, calls, 0)
  }

  /** What is still to be executed completes what has been. */
  ghost predicate Executing(tools: Tools, round: int, calls: seq<Call>, i: nat,
                            results: seq<Message>, events: seq<Event>, actions: seq<string>)
    requires i <= |calls|
  {
    && results + Results(tools, round, calls, i) == Results(tools, round, calls, 0)
    && events + CallEvents(tools, round, calls, i) == CallEvents(tools, round, calls, 0)
    && actions + Actions(tools, round, calls, i) == Actions(tools, round, calls, 0)
  }

  lemma ExecuteOne(tools: Tools, round: int, calls: seq<Call>, i: nat,
                   results: seq<Message>, events: seq<Event>, actions: seq<string>)
    requires i < |calls| && Executing(tools, round, calls, i, results, events, actions)
    ensures var out := tools(round, i, calls[i]);
            Executing(tools, round, calls, i + 1, results + [ToolResult(calls[i].id, out.content)],
                      events + ([UsingTool(calls[i].name)] + ActionOf(out)), actions + Acted(out))
  {
    var out := tools(round, i, calls[i]);
    Regroup(results, [ToolResult(calls[i].id, out.content)], Results(tools, round, calls, i + 1));
    Regroup(events, [UsingTool(calls[i].name)] + ActionOf(out), CallEvents(tools, round, calls, i + 1));
    Regroup(actions, Acted(out), Actions(tools, round, calls, i + 1));
  }

  lemma Executed(tools: Tools, round: int, calls: seq<Call>,
                 results: seq<Message>, events: seq<Event>, actions: seq<string>)
    requires Executing(tools, round, calls, |calls|, results, events, actions)
    ensures results == Results(tools, round, calls, 0) && events == CallEvents(tools, round, calls, 0)
    ensures actions == Actions(tools, round, calls, 0)
  {
    assert results + [] == results && events + [] == events && actions + [] == actions;
  }

  lemma ExecuteNone(tools: Tools, round: int, calls: seq<Call>)
    ensures Executing(tools, round, calls, 0, [], [], [])
  {
    assert [] + Results(tools, round, calls, 0) == Results(tools, round, calls, 0);
    assert [] + CallEvents(tools, round, calls, 0) == CallEvents(tools, round, calls, 0);
    assert [] + Actions(tools, round, calls, 0) == Actions(tools, round, calls, 0);
  }

  /** Run one round's calls in order. */
  method ExecuteCalls(tools: Tools, round: int, calls: seq<Call>)
    returns (results: seq<Message>, events: seq<Event>, actions: seq<string>)
    ensures results == Results(tools, round, calls, 0)
    ensures events == CallEvents(tools, round, calls, 0)
    ensures actions == Actions(tools, round, calls, 0)
  {
    results, events, actions := [], [], [];
    var i := 0;
    ExecuteNone(tools, round, calls);
    while i < |calls|
      invariant 0 <= i <= |calls| && Executing(tools, round, calls, i, results, events, actions)
    {
      var out := tools(round, i, calls[i]);
      ExecuteOne(tools, round, calls, i, results, events, actions);
      events := events + ([UsingTool(calls[i].name)] + ActionOf(out));
      actions := actions + Acted(out);
      results := results + [ToolResult(calls[i].id, out.content)];
      i := i + 1;
    }
    Executed(tools, round, calls, results, events, actions);
  }

  lemma ResultsFirst(tools: Tools, round: int, calls: seq<Call>, i: nat)
    requires i < |calls|
    ensures var results := Results(tools, round, calls, i);
            results != [] && results[0].ToolResult? && results[1..] == Results(tools, round, calls, i + 1)
  {}

  /** Every call answered in its place, with its own id and what its tool gave. */
  function Replies(tools: Tools, round: int, calls: seq<Call>): seq<Message> {
    seq(|calls|, i requires 0 <= i < |calls| => ToolResult(calls[i].id, tools(round, i, calls[i]).content))
  }

  lemma {:induction false} ResultsAreReplies(tools: Tools, round: int, calls: seq<Call>, i: nat)
    requires i <= |calls|
    ensures Results(tools, round, calls, i) == Replies(tools, round, calls)[i..]
    decreases |calls| - i
  {
    if i < |calls| {
      ResultsAreReplies(tools, round, calls, i + 1);
      DropOne(Replies(tools, round, calls), i);
    }
  }

  lemma DropOne<T>(s: seq<T>, i: nat)
    requires i < |s|
    ensures s[i..] == [s[i]] + s[i + 1..]
  {}

  ghost function Acting(tools: Tools, round: int, calls: seq<Call>, n: nat): set<nat>
    requires n <= |calls|
  {
    set i: nat | i < n && tools(round, i, calls[i]).action.Some?
  }

  /** The client actions among the first n calls. */
  ghost predicate ActionsUpTo(tools: Tools, round: int, calls: seq<Call>, n: nat, at: seq<nat>, actions: seq<string>)
    requires n <= |calls|
  {
    && Lists(at, Acting(tools, round, calls, n)) && |actions| == |at|
    && forall k :: 0 <= k < |at| ==> tools(round, at[k], calls[at[k]]).action == Some(actions[k])
  }

  /** The client actions of a round are those that its tools ask for, in the order of the calls. */
  lemma ActionsAre(tools: Tools, round: int, calls: seq<Call>) returns (at: seq<nat>)
    ensures ActionsUpTo(tools, round, calls, |calls|, at, Actions(tools, round, calls, 0))
  {
    var i, actions: seq<string> := 0, [];
    at := [];
    assert Acting(tools, round, calls, 0) == {};
    assert [] + Actions(tools, round, calls, 0) == Actions(tools, round, calls, 0);
    while i < |calls|
      invariant i <= |calls| && ActionsUpTo(tools, round, calls, i, at, actions)
      invariant actions + Actions(tools, round, calls, i) == Actions(tools, round, calls, 0)
    {
      Regroup(actions, Acted(tools(round, i, calls[i])), Actions(tools, round, calls, i + 1));
      at, actions := ActsNext(tools, round, calls, i, at, actions);
      i := i + 1;
    }
    assert actions + [] == actions;
  }

  lemma ActsNext(tools: Tools, round: int, calls: seq<Call>, i: nat, at: seq<nat>, actions: seq<string>)
    returns (at': seq<nat>, actions': seq<string>)
    requires i < |calls| && ActionsUpTo(tools, round, calls, i, at, actions)
    ensures ActionsUpTo(tools, round, calls, i + 1, at', actions')
    ensures actions' == actions + Acted(tools(round, i, calls[i]))
  {
    var out := tools(round, i, calls[i]);
    assert Acting(tools, round, calls, i + 1) == Acting(tools, round, calls, i) + if out.action.Some? then {i} else {};
    ListsMore(at, Acting(tools, round, calls, i), i);
    at' := at + if out.action.Some? then [i] else [];
    actions' := actions + Acted(out);
  }

  /** From position `at` on, the events tell of the calls from i on: each is announced, and its action follows. */
  ghost predicate Tells(tools: Tools, round: int, calls: seq<Call>, i: nat, events: seq<Event>, at: nat)
    requires i <= |calls|
    decreases |calls| - i
  {
    if i == |calls| then at == |events|
    else
      var action := tools(round, i, calls[i]).action;
      && at < |events| && events[at] == UsingTool(calls[i].name)
      && if action.None? then Tells(tools, round, calls, i + 1, events, at + 1)
         else at + 1 < |events| && events[at + 1] == ClientAction(action.value)
              && Tells(tools, round, calls, i + 1, events, at + 2)
  }

  lemma {:induction false} TellsLater(tools: Tools, round: int, calls: seq<Call>, i: nat,
                                      before: seq<Event>, events: seq<Event>, at: nat)
    requires i <= |calls| && Tells(tools, round, calls, i, events, at)
    ensures Tells(tools, round, calls, i, before + events, |before| + at)
    decreases |calls| - i
  {
    if i < |calls| {
      var next := if tools(round, i, calls[i]).action.None? then at + 1 else at + 2;
      TellsLater(tools, round, calls, i + 1, before, events, next);
    }
  }

  /** The events of a round's calls tell of all of them, in order. */
  lemma {:induction false} CallEventsTell(tools: Tools, round: int, calls: seq<Call>, i: nat)
    requires i <= |calls|
    ensures Tells(tools, round, calls, i, CallEvents(tools, round, calls, i), 0)
    decreases |calls| - i
  {
    if i < |calls| {
      CallEventsTell(tools, round, calls, i + 1);
      var own := [UsingTool(calls[i].name)] + ActionOf(tools(round, i, calls[i]));
      TellsLater(tools, round, calls, i + 1, own, CallEvents(tools, round, calls, i + 1), 0);
    }
  }

  // ---------- The loops ----------

  const LIMIT_REACHED := "Tool loop limit reached."

  datatype Streamed = Streamed(events: seq<Event>, transcript: seq<Message>)

  /** The rounds from `round` on, given the transcript so far. */
  function StreamRounds(p: Streamer, tools: Tools, working: seq<Message>, round: int, maxRounds: int): Streamed
    decreases maxRounds - round
  {
    if round >= maxRounds then Streamed([Token("\n" + LIMIT_REACHED), Finished], working)
    else
      var chunks := Chunks(p(round, working));
      if SlotsOf(chunks) == map[] then Streamed(Shown(chunks) + [Finished], working)
      else
        var next := working + Block(tools, round, Content(chunks), CallsOf(chunks));
        var rest := StreamRounds(p, tools, next, round + 1, maxRounds);
        Streamed(RoundEvents(tools, round, chunks) + rest.events, rest.transcript)
  }

  /** One request and what follows from its reply. */
  method StreamRound(p: Streamer, tools: Tools, working: seq<Message>, round: int)
    returns (events: seq<Event>, next: seq<Message>, finished: bool)
    ensures var chunks := Chunks(p(round, working));
            if SlotsOf(chunks) == map[]
            then finished && events == Shown(chunks) + [Finished] && next == working
            else !finished && events == RoundEvents(tools, round, chunks)
                 && next == working + Block(tools, round, Content(chunks), CallsOf(chunks))
  {
    var content, tokens, acc := ReadReply(p(round, working));
    events, next := [Generating] + tokens, working;
    if acc == map[] {
      events, finished := events + [Finished], true;
    } else {
      var calls := OrderedCalls(acc);
      next := next + [Assistant(content, calls)];
      var results, during, _ := ExecuteCalls(tools, round, calls);
      events, finished := events + during, false;
      assert next + results == working + ([Assistant(content, calls)] + results);
      next := next + results;
    }
  }

  /** What is still to come completes what has been done. */
  ghost predicate Streaming(p: Streamer, tools: Tools, total: Streamed, maxRounds: int,
                            events: seq<Event>, working: seq<Message>, round: int)
  {
    var rest := StreamRounds(p, tools, working, round, maxRounds);
    total == Streamed(events + rest.events, rest.transcript)
  }

  lemma StreamingStep(p: Streamer, tools: Tools, total: Streamed, maxRounds: int,
                      events: seq<Event>, working: seq<Message>, round: int)
    requires Streaming(p, tools, total, maxRounds, events, working, round) && round < maxRounds
    ensures var chunks := Chunks(p(round, working));
            if SlotsOf(chunks) == map[] then total == Streamed(events + (Shown(chunks) + [Finished]), working)
            else Streaming(p, tools, total, maxRounds, events + RoundEvents(tools, round, chunks),
                           working + Block(tools, round, Content(chunks), CallsOf(chunks)), round + 1)
  {
    var chunks := Chunks(p(round, working));
    var next := working + Block(tools, round, Content(chunks), CallsOf(chunks));
    if SlotsOf(chunks) != map[] {
      Regroup(events, RoundEvents(tools, round, chunks), StreamRounds(p, tools, next, round + 1, maxRounds).events);
    }
  }

  lemma StreamingEnds(p: Streamer, tools: Tools, total: Streamed, maxRounds: int,
                      events: seq<Event>, working: seq<Message>, round: int)
    requires Streaming(p, tools, total, maxRounds, events, working, round) && round >= maxRounds
    ensures total == Streamed(events + [Token("\n" + LIMIT_REACHED), Finished], working)
  {}

  lemma StreamingBegins(p: Streamer, tools: Tools, messages: seq<Message>, maxRounds: int)
    ensures Streaming(p, tools, StreamRounds(p, tools, messages, 0, maxRounds), maxRounds, [], messages, 0)
  {
    var total := StreamRounds(p, tools, messages, 0, maxRounds);
    assert [] + total.events == total.events;
  }

  method StreamWithTools(p: Streamer, tools: Tools, messages: seq<Message>, maxRounds: int)
    returns (events: seq<Event>, working: seq<Message>)
    ensures Streamed(events, working) == StreamRounds(p, tools, messages, 0, maxRounds)
  {
    events, working := [], messages;
    ghost var total := StreamRounds(p, tools, messages, 0, maxRounds);
    StreamingBegins(p, tools, messages, maxRounds);
    var round := 0;
    while round < maxRounds
      invariant 0 <= round && Streaming(p, tools, total, maxRounds, events, working, round)
      decreases maxRounds - round
    {
      StreamingStep(p, tools, total, maxRounds, events, working, round);
      var more, next, finished := StreamRound(p, tools, working, round);
      events, working := events + more, next;
      if finished {
        return;
      }
      round := round + 1;
    }
    StreamingEnds(p, tools, total, maxRounds, events, working, round);
    events := events + [Token("\n" + LIMIT_REACHED), Finished];
  }

  datatype Ran = Ran(content: string, actions: seq<string>, transcript: seq<Message>)

  function RunRounds(q: Replier, tools: Tools, working: seq<Message>, round: int, maxRounds: int): Ran
    decreases maxRounds - round
  {
    if round >= maxRounds then Ran(LIMIT_REACHED, [], working)
    else
      var reply := q(round, working);
      if reply.calls == [] then Ran(reply.content, [], working)
      else
        var next := working + Block(tools, round, reply.content, reply.calls);
        var rest := RunRounds(q, tools, next, round + 1, maxRounds);
        Ran(rest.content, Actions(tools, round, reply.calls, 0) + rest.actions, rest.transcript)
  }

  /** What is still to come completes what has been done. */
  ghost predicate Running(q: Replier, tools: Tools, total: Ran, maxRounds: int,
                          actions: seq<string>, working: seq<Message>, round: int)
  {
    var rest := RunRounds(q, tools, working, round, maxRounds);
    total == Ran(rest.content, actions + rest.actions, rest.transcript)
  }

  lemma RunningStep(q: Replier, tools: Tools, total: Ran, maxRounds: int,
                    actions: seq<string>, working: seq<Message>, round: int)
    requires Running(q, tools, total, maxRounds, actions, working, round) && round < maxRounds
    ensures var reply := q(round, working);
            if reply.calls == [] then total == Ran(reply.content, actions, working)
            else Running(q, tools, total, maxRounds, actions + Actions(tools, round, reply.calls, 0),
                         working + Block(tools, round, reply.content, reply.calls), round + 1)
  {
    var reply := q(round, working);
    if reply.calls == [] {
      assert actions + [] == actions;
    } else {
      var next := working + Block(tools, round, reply.content, reply.calls);
      Regroup(actions, Actions(tools, round, reply.calls, 0), RunRounds(q, tools, next, round + 1, maxRounds).actions);
    }
  }

  method RunWithTools(q: Replier, tools: Tools, messages: seq<Message>, maxRounds: int)
    returns (content: string, actions: seq<string>, working: seq<Message>)
    ensures Ran(content, actions, working) == RunRounds(q, tools, messages, 0, maxRounds)
  {
    actions, working := [], messages;
    ghost var total := RunRounds(q, tools, messages, 0, maxRounds);
    assert [] + total.actions == total.actions;
    var round := 0;
    while round < maxRounds
      invariant 0 <= round && Running(q, tools, total, maxRounds, actions, working, round)
      decreases maxRounds - round
    {
      RunningStep(q, tools, total, maxRounds, actions, working, round);
      var reply := q(round, working);
      if reply.calls == [] {
        return reply.content, actions, working;
      }
      var results, _, more := ExecuteCalls(tools, round, reply.calls);
      actions := actions + more;
      assert working + [Assistant(reply.content, reply.calls)] + results
          == working + Block(tools, round, reply.content, reply.calls);
      working := working + [Assistant(reply.content, reply.calls)] + results;
      round := round + 1;
    }
    assert actions + [] == actions;
    content := LIMIT_REACHED;
  }

  /** How many rounds are left. */
  function Left(round: int, maxRounds: int): nat {
    if round < maxRounds then maxRounds - round else 0
  }

  // ---------- The transcript ----------

  predicate Answers(results: seq<Message>, calls: seq<Call>) {
    && |results| == |calls|
    && forall i :: 0 <= i < |calls| ==> results[i].ToolResult? && results[i].callId == calls[i].id
  }

  /**
   Rounds, and nothing but rounds: each assistant message has at least one call and is followed
   immediately by exactly one tool message per call, in the same order, with the same id.
   */
  predicate WellFormed(tail: seq<Message>) {
    tail == [] ||
    (&& tail[0].Assistant? && tail[0].calls != []
     && 1 + |tail[0].calls| <= |tail|
     && Answers(tail[1..1 + |tail[0].calls|], tail[0].calls)
     && WellFormed(tail[1 + |tail[0].calls|..]))
  }

  function Rounds(tail: seq<Message>): nat {
    if tail == [] then 0 else Rounds(tail[1..]) + if tail[0].Assistant? then 1 else 0
  }

  lemma {:induction false} ResultsAnswer(tools: Tools, round: int, calls: seq<Call>, i: nat)
    requires i <= |calls|
    ensures Answers(Results(tools, round, calls, i), calls[i..])
    ensures Rounds(Results(tools, round, calls, i)) == 0
    decreases |calls| - i
  {
    if i < |calls| {
      ResultsAnswer(tools, round, calls, i + 1);
      assert calls[i..][1..] == calls[i + 1..];
      var r := Results(tools, round, calls, i);
      assert r[1..] == Results(tools, round, calls, i + 1);
      forall k | 0 <= k < |calls| - i ensures r[k].ToolResult? && r[k].callId == calls[i..][k].id {
        if k > 0 {
          assert r[k] == Results(tools, round, calls, i + 1)[k - 1];
          assert calls[i..][k] == calls[i + 1..][k - 1];
        }
      }
    }
  }

  lemma {:induction false} RoundsAppend(a: seq<Message>, b: seq<Message>)
    ensures Rounds(a + b) == Rounds(a) + Rounds(b)
  {
    if a == [] {
      assert a + b == b;
    } else {
      assert (a + b)[1..] == a[1..] + b;
      RoundsAppend(a[1..], b);
    }
  }

  lemma BlockFirst(tools: Tools, round: int, content: string, calls: seq<Call>, tail: seq<Message>)
    requires calls != [] && WellFormed(tail)
    ensures WellFormed(Block(tools, round, content, calls) + tail)
    ensures Rounds(Block(tools, round, content, calls) + tail) == 1 + Rounds(tail)
  {
    ResultsAnswer(tools, round, calls, 0);
    assert calls[0..] == calls;
    var block := Block(tools, round, content, calls);
    assert (block + tail)[1..1 + |calls|] == Results(tools, round, calls, 0);
    assert (block + tail)[1 + |calls|..] == tail;
    assert block[1..] == Results(tools, round, calls, 0);
    RoundsAppend(block, tail);
  }

  lemma NonEmptyCalls(acc: map<int, Slot>)
    requires acc != map[]
    ensures OrderedCalls(acc) != []
  {
    assert acc.Keys != {};
    var k := AnyOf(acc.Keys);
    assert k in SortedKeys(acc.Keys);
  }

  lemma Continues(working: seq<Message>, block: seq<Message>, t: seq<Message>)
    requires working + block <= t
    ensures working <= t && t[|working|..] == block + t[|working + block|..]
  {
    assert t == (working + block) + t[|working + block|..];
  }

  /**
   For every provider and every tool behaviour: the input is a prefix of the transcript, what follows
   is whole rounds, and there are at most `maxRounds` of them.
   */
  lemma {:induction false} TranscriptIsWellFormed(p: Streamer, tools: Tools, working: seq<Message>, round: int,
                                                  maxRounds: int)
    ensures var t := StreamRounds(p, tools, working, round, maxRounds).transcript;
            && working <= t
            && WellFormed(t[|working|..])
            && Rounds(t[|working|..]) <= Left(round, maxRounds)
    decreases maxRounds - round
  {
    if round < maxRounds {
      var chunks := Chunks(p(round, working));
      if SlotsOf(chunks) != map[] {
        NonEmptyCalls(SlotsOf(chunks));
        var block := Block(tools, round, Content(chunks), CallsOf(chunks));
        TranscriptIsWellFormed(p, tools, working + block, round + 1, maxRounds);
        var t := StreamRounds(p, tools, working + block, round + 1, maxRounds).transcript;
        Continues(working, block, t);
        BlockFirst(tools, round, Content(chunks), CallsOf(chunks), t[|working + block|..]);
      }
    }
  }

  lemma {:induction false} RunTranscriptIsWellFormed(q: Replier, tools: Tools, working: seq<Message>, round: int,
                                                     maxRounds: int)
    ensures var t := RunRounds(q, tools, working, round, maxRounds).transcript;
            && working <= t
            && WellFormed(t[|working|..])
            && Rounds(t[|working|..]) <= Left(round, maxRounds)
    decreases maxRounds - round
  {
    if round < maxRounds {
      var reply := q(round, working);
      if reply.calls != [] {
        var block := Block(tools, round, reply.content, reply.calls);
        RunTranscriptIsWellFormed(q, tools, working + block, round + 1, maxRounds);
        var t := RunRounds(q, tools, working + block, round + 1, maxRounds).transcript;
        Continues(working, block, t);
        BlockFirst(tools, round, reply.content, reply.calls, t[|working + block|..]);
      }
    }
  }

  // ---------- Replaying a transcript ----------

  /** From position `from` on, the transcript holds a reply, and then what the tools gave for its calls. */
  ghost predicate AnswersAt(tools: Tools, round: int, t: seq<Message>, from: nat, content: string, calls: seq<Call>) {
    && from + 1 + |calls| <= |t| && t[from] == Assistant(content, calls)
    && t[from + 1..from + 1 + |calls|] == Replies(tools, round, calls)
  }

  lemma BlockAnswers(tools: Tools, round: int, working: seq<Message>, content: string, calls: seq<Call>,
                     t: seq<Message>)
    requires working + Block(tools, round, content, calls) <= t
    ensures working <= t && t[..|working|] == working
    ensures |working + Block(tools, round, content, calls)| == |working| + 1 + |calls|
    ensures AnswersAt(tools, round, t, |working|, content, calls)
  {
    ResultsAreReplies(tools, round, calls, 0);
    Middle(working, Assistant(content, calls), Replies(tools, round, calls), t);
  }

  lemma Middle<T>(a: seq<T>, x: T, b: seq<T>, t: seq<T>)
    requires a + ([x] + b) <= t
    ensures |a| + 1 + |b| <= |t| && t[..|a|] == a && t[|a|] == x && t[|a| + 1..|a| + 1 + |b|] == b
  {
    assert t == a + [x] + b + t[|a| + 1 + |b|..];
  }

  /**
   Checking a run against the provider and the tools, request by request, from position `from` of the transcript
   and after `done` client actions: each request is made with exactly the messages so far, and what follows it
   is the reply and the results of its calls, until a reply asks for none or the rounds are used up.
   */
  ghost predicate RunReplays(q: Replier, tools: Tools, r: Ran, from: nat, done: nat, round: int, maxRounds: int)
    requires from <= |r.transcript| && done <= |r.actions|
    decreases maxRounds - round
  {
    if round >= maxRounds
    then from == |r.transcript| && done == |r.actions| && r.content == "Tool loop limit reached."
    else
      var reply := q(round, r.transcript[..from]);
      if reply.calls == [] then from == |r.transcript| && done == |r.actions| && r.content == reply.content
      else
        var own := Actions(tools, round, reply.calls, 0);
        && AnswersAt(tools, round, r.transcript, from, reply.content, reply.calls)
        && own <= r.actions[done..]
        && RunReplays(q, tools, r, from + 1 + |reply.calls|, done + |own|, round + 1, maxRounds)
  }

  lemma {:induction false} LaterActions(q: Replier, tools: Tools, before: seq<string>, r: Ran, from: nat, done: nat,
                                        round: int, maxRounds: int)
    requires from <= |r.transcript| && done <= |r.actions| && RunReplays(q, tools, r, from, done, round, maxRounds)
    ensures RunReplays(q, tools, r.(actions := before + r.actions), from, |before| + done, round, maxRounds)
    decreases maxRounds - round
  {
    var all := before + r.actions;
    assert all[|before| + done..] == r.actions[done..];
    if round < maxRounds {
      var reply := q(round, r.transcript[..from]);
      if reply.calls != [] {
        var own := Actions(tools, round, reply.calls, 0);
        LaterActions(q, tools, before, r, from + 1 + |reply.calls|, done + |own|, round + 1, maxRounds);
      }
    }
  }

  lemma Onward(q: Replier, tools: Tools, own: seq<string>, r: Ran, from: nat, round: int, maxRounds: int)
    requires from <= |r.transcript| && round < maxRounds
    requires var reply := q(round, r.transcript[..from]);
             && reply.calls != []
             && AnswersAt(tools, round, r.transcript, from, reply.content, reply.calls)
             && own == Actions(tools, round, reply.calls, 0)
             && RunReplays(q, tools, r, from + 1 + |reply.calls|, 0, round + 1, maxRounds)
    ensures RunReplays(q, tools, r.(actions := own + r.actions), from, 0, round, maxRounds)
  {
    var all := r.(actions := own + r.actions);
    var reply := q(round, r.transcript[..from]);
    LaterActions(q, tools, own, r, from + 1 + |reply.calls|, 0, round + 1, maxRounds);
    assert all.actions[0..] == own + r.actions;
  }

  /** Every run of the plain loop passes the check. */
  lemma {:induction false} PlainRunReplays(q: Replier, tools: Tools, working: seq<Message>, round: int, maxRounds: int)
    ensures var r := RunRounds(q, tools, working, round, maxRounds);
            working <= r.transcript && RunReplays(q, tools, r, |working|, 0, round, maxRounds)
    decreases maxRounds - round
  {
    if round < maxRounds {
      var reply := q(round, working);
      assert working[..|working|] == working;
      if reply.calls != [] {
        var next := working + Block(tools, round, reply.content, reply.calls);
        var rest, own := RunRounds(q, tools, next, round + 1, maxRounds), Actions(tools, round, reply.calls, 0);
        PlainRunReplays(q, tools, next, round + 1, maxRounds);
        BlockAnswers(tools, round, working, reply.content, reply.calls, rest.transcript);
        Onward(q, tools, own, rest, |working|, round, maxRounds);
      }
    }
  }

  // ---------- The event stream ----------

  function CountOf(events: seq<Event>, e: Event): nat {
    if events == [] then 0 else (if events[0] == e then 1 else 0) + CountOf(events[1..], e)
  }

  lemma {:induction false} CountAppend(a: seq<Event>, b: seq<Event>, e: Event)
    ensures CountOf(a + b, e) == CountOf(a, e) + CountOf(b, e)
  {
    if a == [] {
      assert a + b == b;
    } else {
      assert (a + b)[1..] == a[1..] + b;
      CountAppend(a[1..], b, e);
    }
  }

  lemma {:induction false} TokensOnly(chunks: seq<Chunk>, e: Event)
    requires !e.Token?
    ensures CountOf(Tokens(chunks), e) == 0
  {
    if chunks != [] {
      var n := |chunks| - 1;
      TokensOnly(chunks[..n], e);
      CountAppend(Tokens(chunks[..n]), TokenOf(chunks[n].content), e);
    }
  }

  lemma {:induction false} CallEventsOnly(tools: Tools, round: int, calls: seq<Call>, i: nat, e: Event)
    requires i <= |calls| && (e.Finished? || e.Generating?)
    ensures CountOf(CallEvents(tools, round, calls, i), e) == 0
    decreases |calls| - i
  {
    if i < |calls| {
      CallEventsOnly(tools, round, calls, i + 1, e);
      var out := tools(round, i, calls[i]);
      CountAppend([UsingTool(calls[i].name)], ActionOf(out), e);
      CountAppend([UsingTool(calls[i].name)] + ActionOf(out), CallEvents(tools, round, calls, i + 1), e);
    }
  }

  lemma ShownOnly(chunks: seq<Chunk>, e: Event)
    requires e.Finished? || e.Generating?
    ensures CountOf(Shown(chunks), e) == if e.Generating? then 1 else 0
  {
    TokensOnly(chunks, e);
    assert Shown(chunks)[1..] == Tokens(chunks);
  }

  lemma RoundOnly(tools: Tools, round: int, chunks: seq<Chunk>, e: Event)
    requires e.Finished? || e.Generating?
    ensures CountOf(RoundEvents(tools, round, chunks), e) == if e.Generating? then 1 else 0
  {
    ShownOnly(chunks, e);
    CallEventsOnly(tools, round, CallsOf(chunks), 0, e);
    CountAppend(Shown(chunks), CallEvents(tools, round, CallsOf(chunks), 0), e);
  }

  lemma LastCounts(e: Event)
    requires e.Finished? || e.Generating?
    ensures CountOf([Finished], e) == if e.Finished? then 1 else 0
    ensures CountOf([Token("\n" + LIMIT_REACHED), Finished], e) == if e.Finished? then 1 else 0
  {
    var events := [Token("\n" + LIMIT_REACHED), Finished];
    assert events[1..] == [Finished] && [Finished][1..] == [];
    assert CountOf([Finished], e) == if e.Finished? then 1 else 0;
  }

  /** Exactly one `done`, in last place; one `generating` per request, so at most `maxRounds` requests. */
  lemma {:induction false} StreamEndsOnce(p: Streamer, tools: Tools, working: seq<Message>, round: int, maxRounds: int)
    ensures var events := StreamRounds(p, tools, working, round, maxRounds).events;
            && events != [] && events[|events| - 1] == Finished
            && CountOf(events, Finished) == 1
            && CountOf(events, Generating) <= Left(round, maxRounds)
    decreases maxRounds - round
  {
    LastCounts(Finished);
    LastCounts(Generating);
    if round < maxRounds {
      var chunks := Chunks(p(round, working));
      if SlotsOf(chunks) == map[] {
        ShownOnly(chunks, Finished);
        ShownOnly(chunks, Generating);
        CountAppend(Shown(chunks), [Finished], Finished);
        CountAppend(Shown(chunks), [Finished], Generating);
      } else {
        var next := working + Block(tools, round, Content(chunks), CallsOf(chunks));
        StreamEndsOnce(p, tools, next, round + 1, maxRounds);
        var rest := StreamRounds(p, tools, next, round + 1, maxRounds).events;
        RoundThen(tools, round, chunks, rest, Finished);
        RoundThen(tools, round, chunks, rest, Generating);
      }
    }
  }

  lemma RoundThen(tools: Tools, round: int, chunks: seq<Chunk>, rest: seq<Event>, e: Event)
    requires e.Finished? || e.Generating?
    ensures CountOf(RoundEvents(tools, round, chunks) + rest, e) == CountOf(rest, e) + if e.Generating? then 1 else 0
  {
    RoundOnly(tools, round, chunks, e);
    CountAppend(RoundEvents(tools, round, chunks), rest, e);
  }

  /** One request for every round of calls, and one more for the reply that asks for none, if there is one. */
  lemma {:induction false} OneRequestPerRound(p: Streamer, tools: Tools, working: seq<Message>, round: int,
                                              maxRounds: int)
    ensures var s := StreamRounds(p, tools, working, round, maxRounds);
            working <= s.transcript &&
            var rounds := Rounds(s.transcript[|working|..]);
            CountOf(s.events, Generating) == rounds + if rounds == Left(round, maxRounds) then 0 else 1
    decreases maxRounds - round
  {
    TranscriptIsWellFormed(p, tools, working, round, maxRounds);
    LastCounts(Generating);
    if round < maxRounds {
      var chunks := Chunks(p(round, working));
      if SlotsOf(chunks) == map[] {
        ShownOnly(chunks, Generating);
        CountAppend(Shown(chunks), [Finished], Generating);
      } else {
        var block := Block(tools, round, Content(chunks), CallsOf(chunks));
        OneRequestPerRound(p, tools, working + block, round + 1, maxRounds);
        var s := StreamRounds(p, tools, working + block, round + 1, maxRounds);
        RoundThen(tools, round, chunks, s.events, Generating);
        NonEmptyCalls(SlotsOf(chunks));
        Continues(working, block, s.transcript);
        TranscriptIsWellFormed(p, tools, working + block, round + 1, maxRounds);
        BlockFirst(tools, round, Content(chunks), CallsOf(chunks), s.transcript[|working + block|..]);
      }
    }
  }

  /** The tools announced on the event stream. */
  function Announced(events: seq<Event>): seq<string> {
    if events == [] then [] else (if events[0].UsingTool? then [events[0].name] else []) + Announced(events[1..])
  }

  /** The tool names a transcript's assistant messages asked for. */
  function Asked(tail: seq<Message>): seq<string> {
    if tail == [] then [] else (if tail[0].Assistant? then Names(tail[0].calls) else []) + Asked(tail[1..])
  }

  function Names(calls: seq<Call>): seq<string> {
    if calls == [] then [] else [calls[0].name] + Names(calls[1..])
  }

  lemma {:induction false} AnnouncedAppend(a: seq<Event>, b: seq<Event>)
    ensures Announced(a + b) == Announced(a) + Announced(b)
  {
    if a == [] {
      assert a + b == b;
    } else {
      assert (a + b)[1..] == a[1..] + b;
      AnnouncedAppend(a[1..], b);
    }
  }

  lemma {:induction false} AskedAppend(a: seq<Message>, b: seq<Message>)
    ensures Asked(a + b) == Asked(a) + Asked(b)
  {
    if a == [] {
      assert a + b == b;
    } else {
      assert (a + b)[1..] == a[1..] + b;
      AskedAppend(a[1..], b);
    }
  }

  lemma {:induction false} TokensAnnounceNothing(chunks: seq<Chunk>)
    ensures Announced(Tokens(chunks)) == []
  {
    if chunks != [] {
      var n := |chunks| - 1;
      TokensAnnounceNothing(chunks[..n]);
      AnnouncedAppend(Tokens(chunks[..n]), TokenOf(chunks[n].content));
    }
  }

  lemma OneAnnounces(name: string, out: ToolOut)
    ensures Announced([UsingTool(name)] + ActionOf(out)) == [name]
  {
    AnnouncedAppend([UsingTool(name)], ActionOf(out));
  }

  lemma {:induction false} CallsAnnounce(tools: Tools, round: int, calls: seq<Call>, i: nat)
    requires i <= |calls|
    ensures Announced(CallEvents(tools, round, calls, i)) == Names(calls[i..])
    decreases |calls| - i
  {
    if i < |calls| {
      CallsAnnounce(tools, round, calls, i + 1);
      assert calls[i..][1..] == calls[i + 1..];
      var out := tools(round, i, calls[i]);
      OneAnnounces(calls[i].name, out);
      AnnouncedAppend([UsingTool(calls[i].name)] + ActionOf(out), CallEvents(tools, round, calls, i + 1));
    }
  }

  lemma {:induction false} ResultsAskNothing(tools: Tools, round: int, calls: seq<Call>, i: nat)
    requires i <= |calls|
    ensures Asked(Results(tools, round, calls, i)) == []
    decreases |calls| - i
  {
    if i < |calls| {
      ResultsAskNothing(tools, round, calls, i + 1);
      ResultsFirst(tools, round, calls, i);
    }
  }

  /** A round announces what its block asks for. */
  lemma RoundAnnounces(tools: Tools, round: int, chunks: seq<Chunk>)
    ensures Announced(RoundEvents(tools, round, chunks))
         == Asked(Block(tools, round, Content(chunks), CallsOf(chunks)))
         == Names(CallsOf(chunks))
    ensures Announced(Shown(chunks)) == []
  {
    var calls := CallsOf(chunks);
    TokensAnnounceNothing(chunks);
    assert Shown(chunks)[1..] == Tokens(chunks);
    CallsAnnounce(tools, round, calls, 0);
    assert calls[0..] == calls;
    AnnouncedAppend(Shown(chunks), CallEvents(tools, round, calls, 0));
    ResultsAskNothing(tools, round, calls, 0);
    assert Block(tools, round, Content(chunks), calls)[1..] == Results(tools, round, calls, 0);
  }

  /** The client sees every requested call announced once, in the order of the transcript. */
  lemma {:induction false} EveryCallIsAnnounced(p: Streamer, tools: Tools, working: seq<Message>, round: int,
                                                maxRounds: int)
    ensures var s := StreamRounds(p, tools, working, round, maxRounds);
            working <= s.transcript && Announced(s.events) == Asked(s.transcript[|working|..])
    decreases maxRounds - round
  {
    TranscriptIsWellFormed(p, tools, working, round, maxRounds);
    if round < maxRounds {
      var chunks := Chunks(p(round, working));
      RoundAnnounces(tools, round, chunks);
      if SlotsOf(chunks) == map[] {
        AnnouncedAppend(Shown(chunks), [Finished]);
      } else {
        var block := Block(tools, round, Content(chunks), CallsOf(chunks));
        EveryCallIsAnnounced(p, tools, working + block, round + 1, maxRounds);
        var s := StreamRounds(p, tools, working + block, round + 1, maxRounds);
        AnnouncedAppend(RoundEvents(tools, round, chunks), s.events);
        Continues(working, block, s.transcript);
        AskedAppend(block, s.transcript[|working + block|..]);
      }
    } else {
      LimitAnnouncesNothing();
    }
  }

  lemma LimitAnnouncesNothing()
    ensures Announced([Token("\n" + LIMIT_REACHED), Finished]) == []
    ensures ActionsOf([Token("\n" + LIMIT_REACHED), Finished]) == []
  {
    var events := [Token("\n" + LIMIT_REACHED), Finished];
    assert events[1..] == [Finished] && [Finished][1..] == [];
    assert Announced([Finished]) == [] && ActionsOf([Finished]) == [];
  }

  // ---------- Streaming and not streaming agree ----------

  function ActionsOf(events: seq<Event>): seq<string> {
    if events == [] then [] else (if events[0].ClientAction? then [events[0].action] else []) + ActionsOf(events[1..])
  }

  lemma {:induction false} ActionsAppend(a: seq<Event>, b: seq<Event>)
    ensures ActionsOf(a + b) == ActionsOf(a) + ActionsOf(b)
  {
    if a == [] {
      assert a + b == b;
    } else {
      assert (a + b)[1..] == a[1..] + b;
      ActionsAppend(a[1..], b);
    }
  }

  lemma {:induction false} TokensActNot(chunks: seq<Chunk>)
    ensures ActionsOf(Tokens(chunks)) == []
  {
    if chunks != [] {
      var n := |chunks| - 1;
      TokensActNot(chunks[..n]);
      ActionsAppend(Tokens(chunks[..n]), TokenOf(chunks[n].content));
    }
  }

  lemma OneActs(name: string, out: ToolOut)
    ensures ActionsOf([UsingTool(name)] + ActionOf(out)) == Acted(out)
  {
    ActionsAppend([UsingTool(name)], ActionOf(out));
  }

  lemma {:induction false} CallsAct(tools: Tools, round: int, calls: seq<Call>, i: nat)
    requires i <= |calls|
    ensures ActionsOf(CallEvents(tools, round, calls, i)) == Actions(tools, round, calls, i)
    decreases |calls| - i
  {
    if i < |calls| {
      CallsAct(tools, round, calls, i + 1);
      var out := tools(round, i, calls[i]);
      OneActs(calls[i].name, out);
      ActionsAppend([UsingTool(calls[i].name)] + ActionOf(out), CallEvents(tools, round, calls, i + 1));
    }
  }

  lemma {:induction false} RoundActs(tools: Tools, round: int, chunks: seq<Chunk>)
    ensures ActionsOf(RoundEvents(tools, round, chunks)) == Actions(tools, round, CallsOf(chunks), 0)
    ensures ActionsOf(Shown(chunks)) == []
  {
    TokensActNot(chunks);
    assert Shown(chunks)[1..] == Tokens(chunks);
    CallsAct(tools, round, CallsOf(chunks), 0);
    ActionsAppend(Shown(chunks), CallEvents(tools, round, CallsOf(chunks), 0));
  }

  /** The whole reply that a streamed one amounts to: its calls in index order, as they were sent. */
  function Whole(chunks: seq<Chunk>): Reply {
    Reply(Content(chunks), SentCalls(SlotsOf(chunks)))
  }

  /** The same provider behind both endpoints. */
  ghost predicate SameProvider(p: Streamer, q: Replier) {
    forall round, working :: q(round, working) == Whole(Chunks(p(round, working)))
  }

  /** No reply of the run asks for a call without an id or without arguments. */
  ghost predicate AllComplete(p: Streamer, tools: Tools, working: seq<Message>, round: int, maxRounds: int)
    decreases maxRounds - round
  {
    round >= maxRounds ||
    var chunks := Chunks(p(round, working));
    SlotsOf(chunks) != map[] ==>
      && Complete(SlotsOf(chunks))
      && AllComplete(p, tools, working + Block(tools, round, Content(chunks), CallsOf(chunks)), round + 1, maxRounds)
  }

  lemma SameCalls(chunks: seq<Chunk>)
    ensures Whole(chunks).calls == [] <==> SlotsOf(chunks) == map[]
    ensures Whole(chunks).calls == CallsOf(chunks) <==> Complete(SlotsOf(chunks))
  {
    StandInsIff(SlotsOf(chunks));
    if SlotsOf(chunks) != map[] {
      NonEmptyCalls(SlotsOf(chunks));
    }
  }

  lemma FirstOfBlock(working: seq<Message>, tools: Tools, round: int, content: string, calls: seq<Call>,
                     t: seq<Message>)
    requires working + Block(tools, round, content, calls) <= t
    ensures |working| < |t| && t[|working|] == Assistant(content, calls)
  {
    assert (working + Block(tools, round, content, calls))[|working|] == Assistant(content, calls);
  }

  /** Once a reply needed a stand-in, the two transcripts differ. */
  lemma {:induction false} IncompleteDiffers(
    p: Streamer, q: Replier, tools: Tools, working: seq<Message>, round: int, maxRounds: int)
    requires SameProvider(p, q) && round < maxRounds
    requires var acc := SlotsOf(Chunks(p(round, working))); acc != map[] && !Complete(acc)
    ensures StreamRounds(p, tools, working, round, maxRounds).transcript
         != RunRounds(q, tools, working, round, maxRounds).transcript
  {
    var chunks := Chunks(p(round, working));
    var reply := q(round, working);
    SameCalls(chunks);
    var next := working + Block(tools, round, Content(chunks), CallsOf(chunks));
    var other := working + Block(tools, round, reply.content, reply.calls);
    TranscriptIsWellFormed(p, tools, next, round + 1, maxRounds);
    RunTranscriptIsWellFormed(q, tools, other, round + 1, maxRounds);
    FirstOfBlock(working, tools, round, Content(chunks), CallsOf(chunks),
                 StreamRounds(p, tools, next, round + 1, maxRounds).transcript);
    FirstOfBlock(working, tools, round, reply.content, reply.calls,
                 RunRounds(q, tools, other, round + 1, maxRounds).transcript);
  }

  /**
   The two loops build the same transcript exactly when no reply of the run leaves out an id or arguments:
   only the streaming loop puts stand-ins. Then the client actions are the same too, in the same order.
   */
  lemma {:induction false} StreamingAgreesIff(
    p: Streamer, q: Replier, tools: Tools, working: seq<Message>, round: int, maxRounds: int)
    requires SameProvider(p, q)
    ensures var s := StreamRounds(p, tools, working, round, maxRounds);
            var r := RunRounds(q, tools, working, round, maxRounds);
            && (s.transcript == r.transcript <==> AllComplete(p, tools, working, round, maxRounds))
            && (s.transcript == r.transcript ==> ActionsOf(s.events) == r.actions)
    decreases maxRounds - round
  {
    if round < maxRounds {
      var chunks := Chunks(p(round, working));
      SameCalls(chunks);
      RoundActs(tools, round, chunks);
      if SlotsOf(chunks) == map[] {
        ActionsAppend(Shown(chunks), [Finished]);
      } else if !Complete(SlotsOf(chunks)) {
        IncompleteDiffers(p, q, tools, working, round, maxRounds);
      } else {
        var next := working + Block(tools, round, Content(chunks), CallsOf(chunks));
        StreamingAgreesIff(p, q, tools, next, round + 1, maxRounds);
        ActionsAppend(RoundEvents(tools, round, chunks), StreamRounds(p, tools, next, round + 1, maxRounds).events);
      }
    } else {
      LimitAnnouncesNothing();
    }
  }

  /** A chunk that asks for a tool without giving the call an id. */
  const NO_ID := Chunk("", [Delta(0, "", "list_situations", "{}")])

  lemma OneSlot(slot: Slot)
    ensures OrderedCalls(map[0 := slot]) == [Finish(slot, 0)]
    ensures SentCalls(map[0 := slot]) == [Call(slot.id, slot.name, slot.args)]
  {
    var acc := map[0 := slot];
    assert 0 in acc.Keys && forall k :: k in acc.Keys <==> k in [0];
    AscendingUnique(SortedKeys(acc.Keys), [0]);
  }

  lemma OneDelta(d: Delta)
    ensures SlotsOf([Chunk("", [d])]) == map[d.index := Slot(d.id, d.name, d.args)]
    ensures Content([Chunk("", [d])]) == ""
  {
    assert [Chunk("", [d])][..0] == [] && [d][..0] == [] && [] + [d] == [d] && "" + d.args == d.args;
    assert Deltas([Chunk("", [d])]) == [d];
    assert MergeAll(map[], [d]) == MergeOne(MergeAll(map[], [d][..0]), d);
  }

  lemma NoIdCalls()
    ensures CallsOf([NO_ID]) == [Call("call_0", "list_situations", "{}")]
    ensures Whole([NO_ID]) == Reply("", [Call("", "list_situations", "{}")])
  {
    OneDelta(Delta(0, "", "list_situations", "{}"));
    OneSlot(Slot("", "list_situations", "{}"));
    FirstStandIn(Slot("", "list_situations", "{}"));
  }

  /** For a provider that sends that chunk, the call and its result are "call_0" in one transcript only. */
  lemma MissingIdDiffers(tools: Tools, working: seq<Message>, p: Streamer, q: Replier)
    requires SameProvider(p, q) && p(0, working) == [Data(NO_ID), EndMark]
    ensures StreamRounds(p, tools, working, 0, 1).transcript
         == working + Block(tools, 0, "", [Call("call_0", "list_situations", "{}")])
    ensures RunRounds(q, tools, working, 0, 1).transcript
         == working + Block(tools, 0, "", [Call("", "list_situations", "{}")])
  {
    var lines := [Data(NO_ID), EndMark];
    assert lines[1..] == [EndMark] && Chunks([EndMark]) == [] && Chunks(lines) == [NO_ID];
    NoIdCalls();
    SameCalls([NO_ID]);
    assert Content([NO_ID]) == "";
  }

  /** A stream as a provider of whole replies, its calls with stand-ins. */
  function AsReplier(p: Streamer): Replier {
    (round: int, working: seq<Message>) =>
      var chunks := Chunks(p(round, working));
      Reply(Content(chunks), if SlotsOf(chunks) == map[] then [] else CallsOf(chunks))
  }

  lemma {:induction false} StreamIsRun(p: Streamer, tools: Tools, working: seq<Message>, round: int, maxRounds: int)
    ensures var s := StreamRounds(p, tools, working, round, maxRounds);
            var r := RunRounds(AsReplier(p), tools, working, round, maxRounds);
            s.transcript == r.transcript && ActionsOf(s.events) == r.actions
    decreases maxRounds - round
  {
    if round < maxRounds {
      var chunks := Chunks(p(round, working));
      RoundActs(tools, round, chunks);
      if SlotsOf(chunks) == map[] {
        ActionsAppend(Shown(chunks), [Finished]);
      } else {
        NonEmptyCalls(SlotsOf(chunks));
        var next := working + Block(tools, round, Content(chunks), CallsOf(chunks));
        StreamIsRun(p, tools, next, round + 1, maxRounds);
        ActionsAppend(RoundEvents(tools, round, chunks), StreamRounds(p, tools, next, round + 1, maxRounds).events);
      }
    } else {
      LimitAnnouncesNothing();
    }
  }

  /** Every run of the streaming loop passes the check too, with the client actions on its event stream. */
  lemma {:induction false} StreamReplays(p: Streamer, tools: Tools, messages: seq<Message>, maxRounds: int)
    returns (content: string)
    ensures var s := StreamRounds(p, tools, messages, 0, maxRounds);
            && messages <= s.transcript
            && RunReplays(AsReplier(p), tools, Ran(content, ActionsOf(s.events), s.transcript), |messages|, 0, 0,
                          maxRounds)
  {
    StreamIsRun(p, tools, messages, 0, maxRounds);
    PlainRunReplays(AsReplier(p), tools, messages, 0, maxRounds);
    content := RunRounds(AsReplier(p), tools, messages, 0, maxRounds).content;
  }

  // ---------- The final answer ----------

  /** The text shown since the last request, tool or action. */
  function FinalText(events: seq<Event>): string {
    if events == [] then ""
    else
      var before, last := FinalText(events[..|events| - 1]), events[|events| - 1];
      match last
      case Token(text) => before + text
      case Finished => before
      case _ => ""
  }

  lemma {:induction false} TextAppend(a: seq<Event>, b: seq<Event>)
    requires FinalText(a) == ""
    ensures FinalText(a + b) == FinalText(b)
  {
    if b == [] {
      assert a + b == a;
    } else {
      TextAppend(a, b[..|b| - 1]);
      assert (a + b)[..|a + b| - 1] == a + b[..|b| - 1];
    }
  }

  lemma {:induction false} ShownText(chunks: seq<Chunk>)
    ensures FinalText(Shown(chunks)) == Content(chunks)
  {
    assert Shown(chunks) == [Generating] + Tokens(chunks);
    assert [Generating][..0] == [];
    TextAppend([Generating], Tokens(chunks));
    TokensText(chunks);
  }

  lemma {:induction false} TokensText(chunks: seq<Chunk>)
    ensures FinalText(Tokens(chunks)) == Content(chunks)
  {
    if chunks != [] {
      var n := |chunks| - 1;
      TokensText(chunks[..n]);
      var before, text := Tokens(chunks[..n]), chunks[n].content;
      if text == "" {
        assert before + [] == before && Content(chunks[..n]) + "" == Content(chunks[..n]);
      } else {
        assert (before + [Token(text)])[..|before|] == before;
      }
    }
  }

  /** The events of a round's calls end with a tool or an action. */
  lemma {:induction false} CallsEndQuietly(tools: Tools, round: int, calls: seq<Call>, i: nat)
    requires i < |calls|
    ensures var events := CallEvents(tools, round, calls, i);
            events != [] && (events[|events| - 1].UsingTool? || events[|events| - 1].ClientAction?)
    decreases |calls| - i
  {
    if i + 1 < |calls| {
      CallsEndQuietly(tools, round, calls, i + 1);
    }
  }

  lemma RoundIsQuiet(tools: Tools, round: int, chunks: seq<Chunk>)
    requires CallsOf(chunks) != []
    ensures FinalText(RoundEvents(tools, round, chunks)) == ""
  {
    CallsEndQuietly(tools, round, CallsOf(chunks), 0);
    var events := RoundEvents(tools, round, chunks);
    var own := CallEvents(tools, round, CallsOf(chunks), 0);
    assert events[|events| - 1] == own[|own| - 1];
  }

  /** Every reply up to the limit asks for tools. */
  predicate Exhausts(q: Replier, tools: Tools, working: seq<Message>, round: int, maxRounds: int)
    decreases maxRounds - round
  {
    round >= maxRounds ||
    var reply := q(round, working);
    && reply.calls != []
    && Exhausts(q, tools, working + Block(tools, round, reply.content, reply.calls), round + 1, maxRounds)
  }

  lemma OneToken(text: string)
    ensures FinalText([Token(text), Finished]) == text
  {
    assert [Token(text)][..0] == [] && "" + text == text;
    FinishedText([Token(text)]);
    assert [Token(text)] + [Finished] == [Token(text), Finished];
  }

  lemma FinishedText(events: seq<Event>)
    ensures FinalText(events + [Finished]) == FinalText(events)
  {
    assert (events + [Finished])[..|events|] == events;
  }

  /**
   Where no stand-in is needed, both loops give the same answer; only the streamed notice of the limit
   starts on a new line.
   */
  lemma {:induction false} AnswersAgree(
    p: Streamer, q: Replier, tools: Tools, working: seq<Message>, round: int, maxRounds: int)
    requires SameProvider(p, q) && AllComplete(p, tools, working, round, maxRounds)
    ensures var s := StreamRounds(p, tools, working, round, maxRounds);
            var r := RunRounds(q, tools, working, round, maxRounds);
            && FinalText(s.events) == (if Exhausts(q, tools, working, round, maxRounds) then "\n" else "") + r.content
            && (Exhausts(q, tools, working, round, maxRounds) ==> r.content == LIMIT_REACHED)
    decreases maxRounds - round
  {
    if round < maxRounds {
      var chunks := Chunks(p(round, working));
      SameCalls(chunks);
      if SlotsOf(chunks) == map[] {
        ShownText(chunks);
        FinishedText(Shown(chunks));
        assert "" + Content(chunks) == Content(chunks);
      } else {
        NonEmptyCalls(SlotsOf(chunks));
        var next := working + Block(tools, round, Content(chunks), CallsOf(chunks));
        AnswersAgree(p, q, tools, next, round + 1, maxRounds);
        RoundIsQuiet(tools, round, chunks);
        TextAppend(RoundEvents(tools, round, chunks), StreamRounds(p, tools, next, round + 1, maxRounds).events);
      }
    } else {
      OneToken("\n" + LIMIT_REACHED);
    }
  }

  // ---------- Nothing said is kept from the client ----------

  /** All text shown. */
  function Said(events: seq<Event>): string {
    if events == [] then "" else (if events[0].Token? then events[0].text else "") + Said(events[1..])
  }

  /** All text of the assistant messages. */
  function Spoken(tail: seq<Message>): string {
    if tail == [] then "" else (if tail[0].Assistant? then tail[0].content else "") + Spoken(tail[1..])
  }

  lemma {:induction false} SaidAppend(a: seq<Event>, b: seq<Event>)
    ensures Said(a + b) == Said(a) + Said(b)
  {
    if a == [] {
      assert a + b == b && "" + Said(b) == Said(b);
    } else {
      assert (a + b)[1..] == a[1..] + b;
      SaidAppend(a[1..], b);
      Regroup(if a[0].Token? then a[0].text else "", Said(a[1..]), Said(b));
    }
  }

  lemma {:induction false} SpokenAppend(a: seq<Message>, b: seq<Message>)
    ensures Spoken(a + b) == Spoken(a) + Spoken(b)
  {
    if a == [] {
      assert a + b == b && "" + Spoken(b) == Spoken(b);
    } else {
      assert (a + b)[1..] == a[1..] + b;
      SpokenAppend(a[1..], b);
      Regroup(if a[0].Assistant? then a[0].content else "", Spoken(a[1..]), Spoken(b));
    }
  }

  lemma SaidOne(e: Event)
    ensures Said([e]) == if e.Token? then e.text else ""
  {
    assert [e][1..] == [] && (if e.Token? then e.text else "") + "" == if e.Token? then e.text else "";
  }

  lemma {:induction false} TokensSay(chunks: seq<Chunk>)
    ensures Said(Tokens(chunks)) == Content(chunks) && Said(Shown(chunks)) == Content(chunks)
  {
    if chunks != [] {
      var n := |chunks| - 1;
      TokensSay(chunks[..n]);
      SaidAppend(Tokens(chunks[..n]), TokenOf(chunks[n].content));
      SaidOne(Token(chunks[n].content));
    }
    SaidOne(Generating);
    SaidAppend([Generating], Tokens(chunks));
    assert "" + Content(chunks) == Content(chunks);
  }

  lemma {:induction false} CallsSayNothing(tools: Tools, round: int, calls: seq<Call>, i: nat)
    requires i <= |calls|
    ensures Said(CallEvents(tools, round, calls, i)) == ""
    decreases |calls| - i
  {
    if i < |calls| {
      CallsSayNothing(tools, round, calls, i + 1);
      var out := tools(round, i, calls[i]);
      SaidOne(UsingTool(calls[i].name));
      SaidAppend([UsingTool(calls[i].name)], ActionOf(out));
      SaidAppend([UsingTool(calls[i].name)] + ActionOf(out), CallEvents(tools, round, calls, i + 1));
    }
  }

  lemma {:induction false} ResultsSpeakNot(tools: Tools, round: int, calls: seq<Call>, i: nat)
    requires i <= |calls|
    ensures Spoken(Results(tools, round, calls, i)) == ""
    decreases |calls| - i
  {
    if i < |calls| {
      ResultsSpeakNot(tools, round, calls, i + 1);
      ResultsFirst(tools, round, calls, i);
    }
  }

  lemma RoundSays(tools: Tools, round: int, chunks: seq<Chunk>)
    ensures Said(RoundEvents(tools, round, chunks)) == Content(chunks)
    ensures Spoken(Block(tools, round, Content(chunks), CallsOf(chunks))) == Content(chunks)
  {
    var block := Block(tools, round, Content(chunks), CallsOf(chunks));
    TokensSay(chunks);
    CallsSayNothing(tools, round, CallsOf(chunks), 0);
    SaidAppend(Shown(chunks), CallEvents(tools, round, CallsOf(chunks), 0));
    ResultsSpeakNot(tools, round, CallsOf(chunks), 0);
    assert block[1..] == Results(tools, round, CallsOf(chunks), 0);
    assert Content(chunks) + "" == Content(chunks);
  }

  lemma LastSays(chunks: seq<Chunk>)
    ensures Said(Shown(chunks) + [Finished]) == FinalText(Shown(chunks) + [Finished])
  {
    TokensSay(chunks);
    SaidOne(Finished);
    SaidAppend(Shown(chunks), [Finished]);
    ShownText(chunks);
    FinishedText(Shown(chunks));
    assert Content(chunks) + "" == Content(chunks);
  }

  lemma NoticeSays(notice: string)
    ensures Said([Token(notice), Finished]) == FinalText([Token(notice), Finished])
  {
    OneToken(notice);
    SaidOne(Token(notice));
    SaidOne(Finished);
    SaidAppend([Token(notice)], [Finished]);
    assert [Token(notice)] + [Finished] == [Token(notice), Finished];
  }

  lemma RoundAddsText(tools: Tools, round: int, chunks: seq<Chunk>, events: seq<Event>, tail: seq<Message>)
    requires CallsOf(chunks) != [] && Said(events) == Spoken(tail) + FinalText(events)
    ensures var block := Block(tools, round, Content(chunks), CallsOf(chunks));
            Said(RoundEvents(tools, round, chunks) + events)
            == Spoken(block + tail) + FinalText(RoundEvents(tools, round, chunks) + events)
  {
    RoundSays(tools, round, chunks);
    SaidAppend(RoundEvents(tools, round, chunks), events);
    SpokenAppend(Block(tools, round, Content(chunks), CallsOf(chunks)), tail);
    RoundIsQuiet(tools, round, chunks);
    TextAppend(RoundEvents(tools, round, chunks), events);
    Regroup(Content(chunks), Spoken(tail), FinalText(events));
  }

  /** The client sees the text of every assistant message, in order, and then the final text. */
  lemma {:induction false} AllTextIsShown(p: Streamer, tools: Tools, working: seq<Message>, round: int, maxRounds: int)
    ensures var s := StreamRounds(p, tools, working, round, maxRounds);
            working <= s.transcript && Said(s.events) == Spoken(s.transcript[|working|..]) + FinalText(s.events)
    decreases maxRounds - round
  {
    TranscriptIsWellFormed(p, tools, working, round, maxRounds);
    if round < maxRounds {
      var chunks := Chunks(p(round, working));
      if SlotsOf(chunks) == map[] {
        LastSays(chunks);
      } else {
        NonEmptyCalls(SlotsOf(chunks));
        var block := Block(tools, round, Content(chunks), CallsOf(chunks));
        AllTextIsShown(p, tools, working + block, round + 1, maxRounds);
        var s := StreamRounds(p, tools, working + block, round + 1, maxRounds);
        Continues(working, block, s.transcript);
        RoundAddsText(tools, round, chunks, s.events, s.transcript[|working + block|..]);
      }
    } else {
      NoticeSays("\n" + LIMIT_REACHED);
    }
  }
}
