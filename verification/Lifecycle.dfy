/** The service lifecycle controller and its request channel (cmd/pit-officer/main.go). */
module Lifecycle {
  import opened Domain

  datatype Action = Restart | Stop | Unknown

  datatype Event =
    | Recorded(action: Action)
    | Answered(code: nat)
    | Sent(action: Action)
    | Received(action: Action)

  const CAPACITY := 1

  // The controller's flag, the channel's buffer, and whether a send ever had to wait while
  // holding the mutex, which would stop every later request.
  datatype State = State(pending: bool, buffer: seq<Action>, blocked: bool, events: seq<Event>)

  const START := State(false, [], false, [])

  datatype Input = Request(action: Action, recordFails: bool) | Receive

  function Respond(s: State, code: nat): State {
    s.(events := s.events + [Answered(code)])
  }

  function Send(s: State, action: Action): State {
    if |s.buffer| < CAPACITY
    then s.(buffer := s.buffer + [action], events := s.events + [Sent(action)])
    else s.(blocked := true)
  }

  function Next(s: State, input: Input): State {
    match input
    case Receive =>
      if s.buffer == [] then s
      else s.(buffer := s.buffer[1..], events := s.events + [Received(s.buffer[0])])
    case Request(action, recordFails) =>
      if s.blocked then s
      else if s.pending then Respond(s, 409)
      else if action == Unknown || recordFails then Respond(s, 500)
      else Send(Respond(s.(pending := true, events := s.events + [Recorded(action)]), 202), action)
  }

  function Run(inputs: seq<Input>): State {
    if inputs == [] then START else Next(Run(inputs[..|inputs| - 1]), inputs[|inputs| - 1])
  }

  /** The controller as its handler updates it; the mutex makes each request one step. */
  class ServiceLifecycleController {
    var pending: bool
    var buffer: seq<Action>
    var events: seq<Event>

    ghost function View(): State
      reads this
    {
      State(pending, buffer, false, events)
    }

    // A pending request is the only thing that ever went into the channel.
    ghost predicate Valid()
      reads this
    {
      |buffer| <= CAPACITY && (buffer != [] ==> pending)
    }

    constructor ()
      ensures Valid() && View() == START
    {
      pending, buffer, events := false, [], [];
    }

    method SendRequest(action: Action)
      requires |buffer| < CAPACITY
      modifies this`buffer, this`events
      ensures buffer == old(buffer) + [action] && events == old(events) + [Sent(action)]
    {
      buffer := buffer + [action];
      events := events + [Sent(action)];
    }

    /** The handler. Its send needs a free slot, and always has one. */
    method Handle(action: Action, recordFails: bool)
      requires Valid()
      modifies this
      ensures Valid() && View() == Next(old(View()), Request(action, recordFails))
    {
      if pending {
        events := events + [Answered(409)];
        return;
      }
      if action == Unknown || recordFails {
        events := events + [Answered(500)];
        return;
      }
      events := events + [Recorded(action)];
      pending := true;
      events := events + [Answered(202)];
      SendRequest(action);
    }

    /** The serve loop takes a request from the channel. */
    method TakeRequest() returns (r: Option<Action>)
      requires Valid()
      modifies this`buffer, this`events
      ensures Valid() && View() == Next(old(View()), Receive)
      ensures r == if old(buffer) == [] then None else Some(old(buffer)[0])
    {
      if buffer == [] {
        return None;
      }
      r := Some(buffer[0]);
      events := events + [Received(buffer[0])];
      buffer := buffer[1..];
    }
  }

  // The positions of the sends.
  predicate IsSend(events: seq<Event>, i: int) {
    0 <= i < |events| && events[i].Sent?
  }

  // Two events back from its send, just before it was answered.
  predicate RecordedFirst(events: seq<Event>, i: int)
    requires IsSend(events, i)
  {
    i >= 2 && events[i - 1] == Answered(202) && events[i - 2] == Recorded(events[i].action)
  }

  ghost predicate Sound(s: State) {
    && !s.blocked && |s.buffer| <= CAPACITY
    && (s.buffer != [] ==> s.pending)
    && (forall i, j | IsSend(s.events, i) && IsSend(s.events, j) :: i == j)
    && ((exists i :: IsSend(s.events, i)) <==> s.pending)
    && (forall i | IsSend(s.events, i) :: RecordedFirst(s.events, i))
  }

  lemma AppendedKeepsSends(events: seq<Event>, more: seq<Event>)
    requires forall k | 0 <= k < |more| :: !more[k].Sent?
    ensures forall i :: IsSend(events + more, i) <==> IsSend(events, i)
    ensures forall i | IsSend(events, i) && RecordedFirst(events, i) :: RecordedFirst(events + more, i)
  {
  }

  lemma NextKeepsSound(s: State, input: Input)
    requires Sound(s)
    ensures Sound(Next(s, input))
  {
    var after := Next(s, input);
    match input
    case Receive =>
      if s.buffer != [] {
        AppendedKeepsSends(s.events, [Received(s.buffer[0])]);
        assert exists i :: IsSend(s.events, i);
      }
    case Request(action, recordFails) =>
      if s.pending {
        AppendedKeepsSends(s.events, [Answered(409)]);
      } else if action == Unknown || recordFails {
        AppendedKeepsSends(s.events, [Answered(500)]);
      } else {
        var n := |s.events|;
        assert after.events == s.events + [Recorded(action), Answered(202), Sent(action)];
        assert IsSend(after.events, n + 2) && RecordedFirst(after.events, n + 2);
        assert forall i :: IsSend(after.events, i) && i < n ==> IsSend(s.events, i);
      }
  }

  lemma {:induction false} RunIsSound(inputs: seq<Input>)
    ensures Sound(Run(inputs))
  {
    if inputs != [] {
      RunIsSound(inputs[..|inputs| - 1]);
      NextKeepsSound(Run(inputs[..|inputs| - 1]), inputs[|inputs| - 1]);
    }
  }

  /**
   * Over any requests, in any order and with any audit failures: at most one action is ever
   * sent, its audit record was written before it, and no send ever waits for the channel.
   */
  lemma AtMostOneActionAndNeverBlocked(inputs: seq<Input>)
    ensures !Run(inputs).blocked
    ensures forall i, j | IsSend(Run(inputs).events, i) && IsSend(Run(inputs).events, j) :: i == j
    ensures forall i | IsSend(Run(inputs).events, i) :: RecordedFirst(Run(inputs).events, i)
  {
    RunIsSound(inputs);
  }

  predicate Auditable(input: Input) {
    input.Request? && input.action != Unknown && !input.recordFails
  }

  /** Some action is sent exactly when some request is valid and audited. */
  lemma {:induction false} SentExactlyWhenAudited(inputs: seq<Input>)
    ensures (exists i :: IsSend(Run(inputs).events, i)) <==> exists k :: 0 <= k < |inputs| && Auditable(inputs[k])
  {
    RunIsSound(inputs);
    if inputs != [] {
      var front, last := inputs[..|inputs| - 1], inputs[|inputs| - 1];
      RunIsSound(front);
      SentExactlyWhenAudited(front);
      assert forall k | 0 <= k < |front| :: front[k] == inputs[k];
      assert Run(inputs).pending <==> Run(front).pending || Auditable(last);
    }
  }

  // The first request that is valid and audited, or the number of inputs.
  function FirstAuditable(inputs: seq<Input>): (k: nat)
    ensures k <= |inputs| && forall i | 0 <= i < k :: !Auditable(inputs[i])
    ensures k < |inputs| ==> Auditable(inputs[k])
  {
    if inputs == [] then 0
    else
      var k := FirstAuditable(inputs[..|inputs| - 1]);
      if k < |inputs| - 1 || Auditable(inputs[|inputs| - 1]) then k else |inputs|
  }

  // Where the controller stands is decided by the first such request and what came after it.
  ghost predicate StandsAfter(s: State, inputs: seq<Input>) {
    var k := FirstAuditable(inputs);
    && !s.blocked && (s.pending <==> k < |inputs|)
    && s.buffer == if k < |inputs| && Receive !in inputs[k + 1..] then [inputs[k].action] else []
  }

  lemma FirstAuditableOfFront(front: seq<Input>, last: Input)
    ensures FirstAuditable(front + [last]) ==
              if FirstAuditable(front) < |front| || Auditable(last) then FirstAuditable(front) else |front| + 1
  {
    assert (front + [last])[..|front|] == front;
  }

  lemma {:induction false} RunStands(inputs: seq<Input>)
    ensures StandsAfter(Run(inputs), inputs)
  {
    if inputs != [] {
      var front, last := inputs[..|inputs| - 1], inputs[|inputs| - 1];
      RunStands(front);
      FirstAuditableOfFront(front, last);
      assert inputs == front + [last];
      var k := FirstAuditable(front);
      if k < |front| {
        assert inputs[k + 1..] == front[k + 1..] + [last];
      } else if k < |inputs| {
        assert inputs[k + 1..] == [];
      }
    }
  }

  lemma RequestDoes(s: State, action: Action, recordFails: bool)
    requires !s.blocked && (!s.pending ==> s.buffer == [])
    ensures Next(s, Request(action, recordFails)).events == s.events +
              if s.pending then [Answered(409)]
              else if action == Unknown || recordFails then [Answered(500)]
              else [Recorded(action), Answered(202), Sent(action)]
  {
    var e := s.events;
    assert e + [Recorded(action)] + [Answered(202)] + [Sent(action)]
           == e + [Recorded(action), Answered(202), Sent(action)];
  }

  lemma RunOneMore(inputs: seq<Input>, input: Input)
    ensures Run(inputs + [input]) == Next(Run(inputs), input)
  {
    assert (inputs + [input])[..|inputs|] == inputs;
  }

  lemma SomeIsAuditable(inputs: seq<Input>)
    ensures FirstAuditable(inputs) < |inputs| <==> exists k :: 0 <= k < |inputs| && Auditable(inputs[k])
  {
  }

  /**
   * What a request does after any inputs: once some request was valid and audited it is a
   * conflict; before that a valid, audited one is recorded, accepted and sent, in that order, and
   * any other is an error that leaves the controller as it was.
   */
  lemma AnswersExactly(inputs: seq<Input>, action: Action, recordFails: bool)
    ensures
      var s, after := Run(inputs), Run(inputs + [Request(action, recordFails)]);
      after.events == s.events +
        if exists k :: 0 <= k < |inputs| && Auditable(inputs[k]) then [Answered(409)]
        else if action == Unknown || recordFails then [Answered(500)]
        else [Recorded(action), Answered(202), Sent(action)]
  {
    RunStands(inputs);
    SomeIsAuditable(inputs);
    RequestDoes(Run(inputs), action, recordFails);
    RunOneMore(inputs, Request(action, recordFails));
  }

  /** The serve loop receives the action of the first such request, once, and nothing else. */
  lemma ReceivesTheFirst(inputs: seq<Input>)
    ensures
      var s, after, k := Run(inputs), Run(inputs + [Receive]), FirstAuditable(inputs);
      after.events == s.events +
        if k < |inputs| && Receive !in inputs[k + 1..] then [Received(inputs[k].action)] else []
  {
    RunStands(inputs);
    RunOneMore(inputs, Receive);
  }
}
