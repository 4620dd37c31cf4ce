/** The in-memory store's Copilot methods, on fields they update in place. */
module CopilotStore {
  import opened Lists
  import opened Options
  import opened Transcript
  import opened TranscriptRuns
  import opened TranscriptPages

  class InMemoryRuntimeStore {
    var threads: map<string, Thread>
    var messages: seq<Message>
    var commands: map<(string, string), string>

    ghost function Value(): Store
      reads this
    {
      Store(threads, messages, commands)
    }

    constructor ()
      ensures Value() == EMPTY
    {
      threads, messages, commands := map[], [], map[];
    }

    /** The first message satisfying p, or the length. */
    method FindFirst(p: Message -> bool) returns (i: nat)
      ensures i == First(messages, p)
    {
      i := 0;
      while i < |messages| && !p(messages[i])
        invariant i <= |messages| && forall j :: 0 <= j < i ==> !p(messages[j])
      {
        i := i + 1;
      }
    }

    /** One more than the highest number in the thread. */
    method NextSequence(thread: string) returns (n: nat)
      ensures n == 1 + Highest(messages, thread)
    {
      var highest := 0;
      for i := 0 to |messages|
        invariant highest == Highest(messages[..i], thread)
      {
        assert Front(messages[..i+1]) == messages[..i];
        if messages[i].thread == thread && messages[i].sequence > highest {
          highest := messages[i].sequence;
        }
      }
      assert messages[..|messages|] == messages;
      n := 1 + highest;
    }

    method GetOrCreateThread(incident: string, newId: string) returns (thread: Thread)
      modifies this
      ensures (Value(), thread) == GetOrCreate(old(Value()), incident, newId)
    {
      if incident !in threads {
        threads := threads[incident := Thread(newId, None)];
      }
      thread := threads[incident];
    }

    method AppendCopilotMessage(thread: string, incident: string, d: Draft) returns (r: Reply<Message>)
      modifies this
      ensures (Value(), r) == AppendMessage(old(Value()), thread, incident, d)
    {
      if incident !in threads || threads[incident].id != thread {
        return Raised(NotOwned);
      }
      if d.requestId.Some? {
        var i := FindFirst(AsksIn(thread, d.requestId.value));
        if i < |messages| {
          return Ok(messages[i]);
        }
      }
      var j := FindFirst(HasId(d.id));
      if j < |messages| {
        if messages[j].incident != incident {
          return Raised(OtherIncident);
        }
        return Ok(messages[j]);
      }
      var sequence := NextSequence(thread);
      var stored := Message(d.id, thread, incident, sequence, d.role, d.requestId, d.interaction, d.body);
      messages := messages + [stored];
      r := Ok(stored);
    }

    method UpsertCopilotResponse(thread: string, incident: string, d: Draft) returns (r: Reply<Message>)
      modifies this
      ensures (Value(), r) == UpsertResponse(old(Value()), thread, incident, d)
    {
      if incident !in threads || threads[incident].id != thread {
        return Raised(NotOwned);
      }
      var i := FindFirst(AnswersIn(thread, d.interaction));
      if i < |messages| {
        messages := messages[i := messages[i].(body := d.body)];
        return Ok(messages[i]);
      }
      var sequence := NextSequence(thread);
      var stored := Message(d.id, thread, incident, sequence, Assistant, d.requestId, d.interaction, d.body);
      var j := FindFirst(HasId(d.id));
      if j < |messages| {
        messages := messages[j := stored];
      } else {
        messages := messages + [stored];
      }
      r := Ok(stored);
    }

    method InsertMessage(thread: string, incident: string, d: Draft)
      modifies this`messages
      ensures messages == InsertNew(old(messages), thread, incident, d)
    {
      var j := FindFirst(HasId(d.id));
      if j < |messages| {
        return;
      }
      var sequence := NextSequence(thread);
      messages := messages + [Message(d.id, thread, incident, sequence, d.role, d.requestId, d.interaction, d.body)];
    }

    method AcceptCopilotRequest(thread: string, incident: string, q: Request) returns (r: Reply<string>)
      modifies this
      ensures (Value(), r) == AcceptRequest(old(Value()), thread, incident, q)
    {
      if incident !in threads || threads[incident].id != thread {
        return Raised(NotOwned);
      }
      var key := (q.scope, q.requestId);
      if key in commands {
        return Ok(commands[key]);
      }
      if q.transition.Some? {
        InsertMessage(thread, incident, q.transition.value);
      }
      InsertMessage(thread, incident, q.user);
      threads := threads[incident := threads[incident].(package := Some(q.package))];
      commands := commands[key := q.response];
      r := Ok(q.response);
    }

    method ListCopilotMessages(thread: string, incident: string, after: Option<int>,
                               limit: int) returns (r: Reply<Page>)
      ensures r == ListMessages(Value(), thread, incident, after, limit)
    {
      if !(1 <= limit <= 100) {
        return Raised(BadLimit);
      }
      if incident !in threads || threads[incident].id != thread {
        return Raised(NotOwned);
      }
      var from := if after.Some? then after.value else 0;
      var found: seq<Message> := [];
      for i := 0 to |messages|
        invariant found == Selected(messages[..i], thread, from)
      {
        assert Front(messages[..i+1]) == messages[..i];
        if messages[i].thread == thread && messages[i].sequence > from {
          found := found + [messages[i]];
        }
      }
      assert messages[..|messages|] == messages;
      var all := Sorted(found);
      if |all| > limit {
        r := Ok(Page(all[..limit], Some(all[limit-1].sequence)));
      } else {
        r := Ok(Page(all, None));
      }
    }
  }
}
