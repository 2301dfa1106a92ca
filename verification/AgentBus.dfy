/**
 The agent bus (backend/agent_bus.py): publishing to bounded queues, one for each open event stream.

 Streams are numbered in the order they connect. Everything between two suspension points of the
 original is one step, so a run is any sequence of steps. A queue is dropped by the publisher that
 finds it full; its stream stays open and goes on reading what the queue still holds.
 */
module AgentBus {
  import opened Options

  type Message = string

  const CAPACITY := 64

  datatype Step = Subscribe | Publish(message: Message) | Consume(id: nat) | Leave(id: nat)

  /** `sent[i]` is what stream i has yielded so far; `left` are the streams that have ended. */
  datatype State = State(subscribers: set<nat>, queues: seq<seq<Message>>, sent: seq<seq<Message>>, left: set<nat>) {
    ghost predicate Valid() {
      && |sent| == |queues|
      && (forall i :: i in subscribers ==> i < |queues| && i !in left)
      && (forall i :: i in left ==> i < |queues|)
    }
  }

  const INIT := State({}, [], [], {})

  predicate Full(queue: seq<Message>) { |queue| >= CAPACITY }

  /** The queues after one message has been put into all that have room. */
  function Put(subscribers: set<nat>, queues: seq<seq<Message>>, m: Message): seq<seq<Message>> {
    seq(|queues|, i requires 0 <= i < |queues| =>
      if i in subscribers && !Full(queues[i]) then queues[i] + [m] else queues[i])
  }

  function WithRoom(ids: set<nat>, queues: seq<seq<Message>>): set<nat> {
    set i | i in ids && (i >= |queues| || !Full(queues[i]))
  }

  predicate CanRead(s: State, id: nat) {
    id < |s.queues| && id < |s.sent| && id !in s.left && s.queues[id] != []
  }

  function Apply(s: State, step: Step): State {
    match step
    case Subscribe =>
      s.(subscribers := s.subscribers + {|s.queues|}, queues := s.queues + [[]], sent := s.sent + [[]])
    case Publish(m) =>
      s.(subscribers := WithRoom(s.subscribers, s.queues),
         queues := Put(s.subscribers, s.queues, m))
    case Consume(id) =>
      if CanRead(s, id)
      then s.(queues := s.queues[id := s.queues[id][1..]], sent := s.sent[id := s.sent[id] + [s.queues[id][0]]])
      else s
    case Leave(id) =>
      if id < |s.queues| then s.(subscribers := s.subscribers - {id}, left := s.left + {id}) else s
  }

  function Run(steps: seq<Step>): State {
    if steps == [] then INIT else Apply(Run(steps[..|steps| - 1]), steps[|steps| - 1])
  }

  /** Every message published in a run. */
  function Log(steps: seq<Step>): seq<Message> {
    if steps == [] then []
    else
      var step := steps[|steps| - 1];
      Log(steps[..|steps| - 1]) + if step.Publish? then [step.message] else []
  }

  /** The log is the published messages, in order. */
  lemma {:induction false} LogConcat(a: seq<Step>, b: seq<Step>)
    ensures Log(a + b) == Log(a) + Log(b)
    ensures |a| == 1 ==> Log(a) == if a[0].Publish? then [a[0].message] else []
  {
    if b == [] {
      assert a + b == a;
    } else {
      LogConcat(a, b[..|b| - 1]);
      assert (a + b)[..|a + b| - 1] == a + b[..|b| - 1];
    }
  }

  // ---------- The bus ----------

  lemma PutOne(done: set<nat>, queues: seq<seq<Message>>, m: Message, q: nat)
    requires q < |queues| && q !in done
    ensures Put(done, queues, m)[q] == queues[q]
    ensures Put(done + {q}, queues, m) ==
            if Full(queues[q]) then Put(done, queues, m) else Put(done, queues, m)[q := queues[q] + [m]]
    ensures WithRoom(done + {q}, queues) == WithRoom(done, queues) + if Full(queues[q]) then {} else {q}
  {}

  class Bus {
    var subscribers: set<nat>
    var queues: seq<seq<Message>>
    ghost var sent: seq<seq<Message>>
    ghost var left: set<nat>

    ghost function View(): State
      reads this
    {
      State(subscribers, queues, sent, left)
    }

    constructor ()
      ensures View() == INIT
    {
      subscribers, queues, sent, left := {}, [], [], {};
    }

    /** A stream connects with an empty queue. */
    method Connect() returns (id: nat)
      requires View().Valid()
      modifies this
      ensures View() == Apply(old(View()), Subscribe) && View().Valid()
      ensures id == |old(queues)| && queues == old(queues) + [[]] && sent == old(sent) + [[]]
      ensures subscribers == old(subscribers) + {id} && left == old(left)
    {
      id := |queues|;
      queues := queues + [[]];
      sent := sent + [[]];
      subscribers := subscribers + {id};
    }

    /** `put_nowait` on one more queue, after those in `done`; a full queue refuses. */
    method PutNoWait(q: nat, payload: Message, ghost done: set<nat>, ghost before: seq<seq<Message>>)
      returns (accepted: bool)
      requires q < |before| && q !in done && queues == Put(done, before, payload)
      modifies this`queues
      ensures queues == Put(done + {q}, before, payload)
      ensures accepted == !Full(before[q])
      ensures WithRoom(done + {q}, before) == WithRoom(done, before) + if accepted then {q} else {}
    {
      PutOne(done, before, payload, q);
      accepted := |queues[q]| < CAPACITY;
      if accepted {
        queues := queues[q := queues[q] + [payload]];
      }
    }

    /** The first loop: offers the message to every subscriber, in any order. */
    method PutAll(payload: Message) returns (delivered: nat, dead: seq<nat>)
      requires forall i :: i in subscribers ==> i < |queues|
      modifies this`queues
      ensures queues == Put(subscribers, old(queues), payload)
      ensures delivered == |WithRoom(subscribers, old(queues))|
      ensures forall i :: i in dead <==> i in subscribers && i !in WithRoom(subscribers, old(queues))
    {
      ghost var done: set<nat>, reached: set<nat> := {}, {};
      delivered, dead := 0, [];
      var todo := subscribers;
      while todo != {}
        invariant todo <= subscribers && done == subscribers - todo
        invariant queues == Put(done, old(queues), payload)
        invariant reached == WithRoom(done, old(queues)) && delivered == |reached|
        invariant forall i :: i in dead <==> i in done && i !in reached
        decreases |todo|
      {
        var q: nat :| q in todo;
        var accepted := PutNoWait(q, payload, done, old(queues));
        todo := todo - {q};
        done := done + {q};
        if accepted {
          delivered := delivered + 1;
          reached := reached + {q};
        } else {
          dead := dead + [q];
        }
      }
      assert done == subscribers;
    }

    /** Puts the message into every queue with room, then drops the queues without. */
    method Broadcast(payload: Message) returns (delivered: nat)
      requires View().Valid()
      modifies this`subscribers, this`queues
      ensures View() == Apply(old(View()), Publish(payload)) && View().Valid()
      ensures delivered == |subscribers| && |queues| == |old(queues)|
      ensures forall i :: 0 <= i < |queues| ==>
                queues[i] == if i in subscribers then old(queues)[i] + [payload] else old(queues)[i]
      ensures forall i :: i in subscribers <==> i in old(subscribers) && |old(queues)[i]| < 64
    {
      var dead;
      delivered, dead := PutAll(payload);
      Discard(dead);
      assert subscribers == WithRoom(old(subscribers), old(queues));
    }

    method Discard(dead: seq<nat>)
      modifies this`subscribers
      ensures forall i :: i in subscribers <==> i in old(subscribers) && i !in dead
    {
      var k := 0;
      while k < |dead|
        invariant 0 <= k <= |dead|
        invariant forall i :: i in subscribers <==> i in old(subscribers) && i !in dead[..k]
      {
        assert dead[..k + 1] == dead[..k] + [dead[k]];
        subscribers := subscribers - {dead[k]};
        k := k + 1;
      }
      assert dead[..k] == dead;
    }

    /** One turn of a stream's loop: a message, or a keepalive when the queue stays empty. */
    method Next(id: nat) returns (data: Option<Message>)
      requires View().Valid() && id < |queues| && id !in left
      modifies this`queues, this`sent
      ensures View() == Apply(old(View()), Consume(id)) && View().Valid()
      ensures data == if old(queues)[id] == [] then None else Some(old(queues)[id][0])
      ensures data.None? ==> queues == old(queues) && sent == old(sent)
      ensures data.Some? ==> && queues == old(queues)[id := old(queues)[id][1..]]
                             && sent == old(sent)[id := old(sent)[id] + [data.value]]
    {
      if queues[id] == [] {
        return None;
      }
      data := Some(queues[id][0]);
      sent := sent[id := sent[id] + [queues[id][0]]];
      queues := queues[id := queues[id][1..]];
    }

    method Disconnect(id: nat)
      requires View().Valid() && id < |queues|
      modifies this`subscribers, this`left
      ensures View() == Apply(old(View()), Leave(id)) && View().Valid()
      ensures subscribers == old(subscribers) - {id} && left == old(left) + {id}
    {
      subscribers := subscribers - {id};
      left := left + {id};
    }
  }

  // ---------- One stream by itself ----------

  datatype Event = Post(message: Message) | Read | Quit

  datatype Reader = Reader(queue: seq<Message>, sent: seq<Message>, live: bool, ended: bool)

  function React(r: Reader, e: Event): Reader {
    match e
    case Post(m) => if !r.live then r else if Full(r.queue) then r.(live := false) else r.(queue := r.queue + [m])
    case Read => if r.ended || r.queue == [] then r else r.(queue := r.queue[1..], sent := r.sent + [r.queue[0]])
    case Quit => r.(live := false, ended := true)
  }

  function Alone(events: seq<Event>): Reader {
    if events == [] then Reader([], [], true, false) else React(Alone(events[..|events| - 1]), events[|events| - 1])
  }

  /** A step as stream `id` sees it. */
  function Own(step: Step, id: nat): (r: seq<Event>)
    ensures |r| <= 1
  {
    match step
    case Subscribe => []
    case Publish(m) => [Post(m)]
    case Consume(i) => if i == id then [Read] else []
    case Leave(i) => if i == id then [Quit] else []
  }

  /** What stream `id` can see of a run: every publication since it connected, and its own steps. */
  function Seen(steps: seq<Step>, id: nat): seq<Event> {
    if steps == [] then []
    else
      var before, step := steps[..|steps| - 1], steps[|steps| - 1];
      if id >= |Run(before).queues| then []
      else Seen(before, id) + Own(step, id)
  }

  ghost function Look(s: State, id: nat): Reader
    requires s.Valid() && id < |s.queues|
  {
    Reader(s.queues[id], s.sent[id], id in s.subscribers, id in s.left)
  }

  lemma {:induction false} RunValid(steps: seq<Step>)
    ensures Run(steps).Valid()
  {
    if steps != [] {
      RunValid(steps[..|steps| - 1]);
    }
  }

  lemma AloneSnoc(events: seq<Event>, e: Event)
    ensures Alone(events + [e]) == React(Alone(events), e)
  {
    assert (events + [e])[..|events|] == events;
  }

  /** A stream's queue, its output and its fate depend on its own events alone. */
  lemma {:induction false} StreamsAreIndependent(steps: seq<Step>, id: nat)
    requires id < |Run(steps).queues|
    ensures Run(steps).Valid()
    ensures Look(Run(steps), id) == Alone(Seen(steps, id))
  {
    RunValid(steps);
    var before, step := steps[..|steps| - 1], steps[|steps| - 1];
    RunValid(before);
    if id < |Run(before).queues| {
      StreamsAreIndependent(before, id);
      OneStep(Run(before), step, id);
      forall e ensures Alone(Seen(before, id) + [e]) == React(Alone(Seen(before, id)), e) {
        AloneSnoc(Seen(before, id), e);
      }
      assert Own(step, id) == [] ==> Seen(steps, id) == Seen(before, id);
    }
  }

  /** One step of a run is, for each stream, its own event or nothing. */
  lemma OneStep(s: State, step: Step, id: nat)
    requires s.Valid() && id < |s.queues|
    ensures Apply(s, step).Valid() && id < |Apply(s, step).queues|
    ensures Look(Apply(s, step), id)
         == if Own(step, id) == [] then Look(s, id) else React(Look(s, id), Own(step, id)[0])
  {}

  function Posts(events: seq<Event>): seq<Message> {
    if events == [] then []
    else
      var e := events[|events| - 1];
      Posts(events[..|events| - 1]) + if e.Post? then [e.message] else []
  }

  /** How far a stream is behind: what was published since it connected and it has not yielded. */
  function Behind(events: seq<Event>): int {
    |Posts(events)| - |Alone(events).sent|
  }

  ghost predicate Delivers(r: Reader, posts: seq<Message>) {
    r.sent + r.queue <= posts && (r.live ==> r.sent + r.queue == posts) && |r.queue| <= CAPACITY
  }

  lemma ReactDelivers(r: Reader, e: Event, posts: seq<Message>)
    requires Delivers(r, posts)
    ensures Delivers(React(r, e), posts + if e.Post? then [e.message] else [])
  {
    if r.queue != [] {
      assert r.sent + r.queue == r.sent + [r.queue[0]] + r.queue[1..];
    }
  }

  lemma {:induction false} AloneInv(events: seq<Event>)
    ensures Delivers(Alone(events), Posts(events))
  {
    if events != [] {
      var n := |events| - 1;
      AloneInv(events[..n]);
      ReactDelivers(Alone(events[..n]), events[n], Posts(events[..n]));
    }
  }

  // ---------- Whole runs ----------

  /** The length of the log when stream `id` connected. */
  function Start(steps: seq<Step>, id: nat): nat {
    if steps == [] then 0
    else if id < |Run(steps[..|steps| - 1]).queues| then Start(steps[..|steps| - 1], id)
    else |Log(steps)|
  }

  lemma {:induction false} SeenPosts(steps: seq<Step>, id: nat)
    requires id < |Run(steps).queues|
    ensures Start(steps, id) <= |Log(steps)| && Posts(Seen(steps, id)) == Log(steps)[Start(steps, id)..]
  {
    var before, step := steps[..|steps| - 1], steps[|steps| - 1];
    if id < |Run(before).queues| {
      SeenPosts(before, id);
      PostsConcat(Seen(before, id), Own(step, id));
    }
  }

  lemma PostsConcat(events: seq<Event>, own: seq<Event>)
    requires |own| <= 1
    ensures Posts(events + own) == Posts(events) + if own != [] && own[0].Post? then [own[0].message] else []
  {
    if own == [] {
      assert events + own == events;
    } else {
      assert (events + own)[..|events|] == events;
    }
  }

  /**
   In every run, what a stream has yielded followed by what its queue holds is one contiguous slice
   of the log that begins where the stream connected: nothing is lost, repeated or reordered, also
   after a drop. While it is subscribed the slice reaches to the end of the log.
   */
  lemma {:induction false} NoGaps(steps: seq<Step>, id: nat)
    requires id < |Run(steps).queues|
    ensures Start(steps, id) <= |Log(steps)| && id < |Run(steps).sent|
    ensures Run(steps).sent[id] + Run(steps).queues[id] <= Log(steps)[Start(steps, id)..]
    ensures id in Run(steps).subscribers ==>
              Run(steps).sent[id] + Run(steps).queues[id] == Log(steps)[Start(steps, id)..]
    ensures |Run(steps).queues[id]| <= 64
  {
    StreamsAreIndependent(steps, id);
    SeenPosts(steps, id);
    AloneInv(Seen(steps, id));
  }

  ghost function Connections(steps: seq<Step>): set<nat> {
    set i: nat | i < |steps| && steps[i].Subscribe?
  }

  lemma ConnectionsNext(steps: seq<Step>, n: nat)
    requires |steps| == n + 1
    ensures Connections(steps) == Connections(steps[..n]) + if steps[n].Subscribe? then {n} else {}
  {
    assert forall i :: 0 <= i < n ==> steps[..n][i] == steps[i];
  }

  lemma StreamsNext(s: State, step: Step)
    ensures |Apply(s, step).queues| == |s.queues| + if step.Subscribe? then 1 else 0
  {}

  /** The streams of a run are those that connected. */
  lemma {:induction false} StreamsAreConnections(steps: seq<Step>)
    ensures |Run(steps).queues| == |Connections(steps)|
  {
    if steps != [] {
      var n := |steps| - 1;
      StreamsAreConnections(steps[..n]);
      StreamsNext(Run(steps[..n]), steps[n]);
      ConnectionsNext(steps, n);
    }
  }

  function Reads(id: nat, n: nat): seq<Step> {
    if n == 0 then [] else Reads(id, n - 1) + [Consume(id)]
  }

  /** The state with n more messages yielded by a stream. */
  ghost function Yielded(s: State, id: nat, n: nat): State
    requires s.Valid() && id < |s.queues| && n <= |s.queues[id]|
  {
    s.(queues := s.queues[id := s.queues[id][n..]], sent := s.sent[id := s.sent[id] + s.queues[id][..n]])
  }

  lemma YieldNext(s: State, id: nat, n: nat)
    requires s.Valid() && id < |s.queues| && id !in s.left && n < |s.queues[id]|
    ensures Apply(Yielded(s, id, n), Consume(id)) == Yielded(s, id, n + 1)
  {
    var q, t := s.queues[id], Yielded(s, id, n);
    assert t.queues[id] == q[n..] && q[n..][1..] == q[n + 1..] && q[n..][0] == q[n];
    assert s.sent[id] + q[..n] + [q[n]] == s.sent[id] + q[..n + 1];
  }

  /** Nothing stays stuck in a queue, subscribed or not: n turns of a stream yield its next n messages. */
  lemma {:induction false} ReadsDeliver(steps: seq<Step>, id: nat, n: nat)
    requires id < |Run(steps).queues| && id !in Run(steps).left && n <= |Run(steps).queues[id]|
    ensures Run(steps).Valid() && Run(steps + Reads(id, n)) == Yielded(Run(steps), id, n)
  {
    RunValid(steps);
    if n == 0 {
      assert steps + Reads(id, 0) == steps;
      assert Run(steps).sent[id] + [] == Run(steps).sent[id];
    } else {
      ReadsDeliver(steps, id, n - 1);
      YieldNext(Run(steps), id, n - 1);
      var all := steps + Reads(id, n);
      assert all[..|all| - 1] == steps + Reads(id, n - 1) && all[|all| - 1] == Consume(id);
    }
  }

  /** A subscribed stream that empties its queue has yielded all that was published since it connected. */
  lemma {:induction false} CaughtUp(steps: seq<Step>, id: nat)
    requires id in Run(steps).subscribers
    ensures id < |Run(steps).queues| && Start(steps, id) <= |Log(steps)|
    ensures var t := Run(steps + Reads(id, |Run(steps).queues[id]|));
            id < |t.sent| && t.sent[id] == Log(steps)[Start(steps, id)..]
  {
    RunValid(steps);
    NoGaps(steps, id);
    ReadsDeliver(steps, id, |Run(steps).queues[id]|);
  }

  /** At no point more than 64 messages behind. */
  ghost predicate KeptUp(events: seq<Event>) {
    Behind(events) <= CAPACITY && (events != [] ==> KeptUp(events[..|events| - 1]))
  }

  lemma {:induction false} LiveExactly(events: seq<Event>)
    ensures Alone(events).live <==> Quit !in events && KeptUp(events)
  {
    AloneInv(events);
    if events != [] {
      var before := events[..|events| - 1];
      LiveExactly(before);
      AloneInv(before);
      assert events == before + [events[|events| - 1]];
    }
  }

  lemma {:induction false} KeptUpIsAlways(events: seq<Event>)
    ensures KeptUp(events) <==> forall n :: 0 <= n <= |events| ==> Behind(events[..n]) <= CAPACITY
  {
    assert events[..|events|] == events;
    if events != [] {
      var before := events[..|events| - 1];
      KeptUpIsAlways(before);
      forall n | 0 <= n < |events| ensures before[..n] == events[..n] {}
    }
  }

  /**
   A stream is subscribed exactly as long as it has not ended and was never more than 64 messages
   behind: one excess drops it for good, and nothing else does.
   */
  lemma {:induction false} SubscribedExactlyWhileKeepingUp(steps: seq<Step>, id: nat)
    requires id < |Run(steps).queues|
    ensures id in Run(steps).subscribers <==>
              && Quit !in Seen(steps, id)
              && forall n :: 0 <= n <= |Seen(steps, id)| ==> Behind(Seen(steps, id)[..n]) <= 64
  {
    StreamsAreIndependent(steps, id);
    LiveExactly(Seen(steps, id));
    KeptUpIsAlways(Seen(steps, id));
  }

  /** Once off the list, a stream gets no further message, whatever the others do. */
  lemma {:induction false} DroppedForGood(steps: seq<Step>, more: seq<Step>, id: nat)
    requires id < |Run(steps).queues| && id !in Run(steps).subscribers
    ensures id < |Run(steps + more).queues| && id !in Run(steps + more).subscribers
    ensures id < |Run(steps).sent| && id < |Run(steps + more).sent|
    ensures Run(steps + more).sent[id] + Run(steps + more).queues[id] == Run(steps).sent[id] + Run(steps).queues[id]
  {
    RunValid(steps);
    if more == [] {
      assert steps + more == steps;
    } else {
      var init := more[..|more| - 1];
      DroppedForGood(steps, init, id);
      assert (steps + more)[..|steps + more| - 1] == steps + init;
      RunValid(steps + init);
      var s := Run(steps + init);
      if CanRead(s, id) {
        assert s.sent[id] + [s.queues[id][0]] + s.queues[id][1..] == s.sent[id] + s.queues[id];
      }
    }
  }
}
