/**
 * `MemoryAgent` of manual/agent.py: each user utterance is either a command
 * that teaches a fact or a procedure, or a conversational turn answered by a
 * language model with the memory context. The model call is a parameter
 * `complete` from the chat messages to a completion outcome.
 */
module ManualAgent {
  import opened Wrappers
  import opened PyStr
  import opened ManualMemory

  const FactPrefix := "remember that"
  const ProcedurePrefix := "remember the steps for"
  const UsageReply :=
    "Please provide a procedure name and steps in the format: \"remember the steps for <procedure_name>: <step1>, <step2>, ...\""
  const ErrorReplyPrefix := "Error requesting LLM response: "
  const SystemPrompt :=
    "You are a helpful AI assistant with memory capabilities. You can remember past interactions, \n"
    + "facts you've learned, and procedures you know. Use the provided context to give personalized, \n"
    + "contextually relevant responses. If you don't have relevant memory information, you can draw on \n"
    + "your general knowledge. Always be helpful, accurate, and conversational."

  /** The four facts every new agent teaches itself, spelled as in the source. */
  const SeedFacts: seq<string> := [
    "I am an AI assistant with memory capabilities.",
    "I can remmeber user interactions and recall them later.",
    "I can store and retrieve factual information.",
    "I can rememeber and execute procedures and workflows."
  ]

  datatype ChatMessage = ChatMessage(role: string, content: string)

  /** The outcome of the chat-completion request. */
  datatype Completion = Completed(text: string) | Failed(cause: string)

  /** What an utterance asks for. */
  datatype Command =
    | TeachFact(fact: string)
    | TeachProcedure(name: string, steps: seq<string>)
    | ProcedureUsage
    | Converse

  /**
   * `[step.strip() for step in parts]`: one step per part, each with no
   * whitespace left at its ends, and each the part with only whitespace
   * cut away on either side.
   */
  function StripAll(parts: seq<string>): (r: seq<string>)
    ensures |r| == |parts|
    ensures forall k :: 0 <= k < |parts| ==> Trimmed(r[k]) && SliceBetweenBlanks(r[k], parts[k])
    ensures forall k :: 0 <= k < |parts| ==> r[k] == Strip(parts[k])
  {
    assert forall k :: 0 <= k < |parts| ==> SliceBetweenBlanks(Strip(parts[k]), parts[k]) by {
      forall k | 0 <= k < |parts| ensures SliceBetweenBlanks(Strip(parts[k]), parts[k]) {
        StripSlice(parts[k]);
      }
    }
    seq(|parts|, k requires 0 <= k < |parts| => Strip(parts[k]))
  }

  /** The branch `query` takes, with the slices it cuts out of the message. */
  function ParseCommand(message: string): Command
  {
    var low := Lower(message);
    if StartsWith(low, FactPrefix) then
      TeachFact(Strip(Drop(message, |FactPrefix|)))
    else if StartsWith(low, ProcedurePrefix) then
      var parts := SplitOnce(message, ":");
      if |parts| == 1 then ProcedureUsage  // unpacking one part raises ValueError
      else TeachProcedure(Strip(Drop(parts[0], |ProcedurePrefix|)), StripAll(SplitOn(parts[1], ',')))
    else Converse
  }

  /** The two teaching prefixes differ at their twelfth character. */
  lemma PrefixesExclusive(low: string)
    ensures !(StartsWith(low, FactPrefix) && StartsWith(low, ProcedurePrefix))
  {
    assert FactPrefix[11] == 'a' && ProcedurePrefix[11] == 'e';
    if StartsWith(low, FactPrefix) {
      assert low[11] == FactPrefix[11];
    }
  }

  /**
   * Which branch runs: the fact prefix is tested first, the procedure
   * prefix second, and a procedure command without a colon gets the usage
   * reply; everything else is conversation.
   */
  lemma CommandKinds(message: string)
    ensures ParseCommand(message).TeachFact? <==> StartsWith(Lower(message), FactPrefix)
    ensures (ParseCommand(message).TeachProcedure? || ParseCommand(message).ProcedureUsage?)
            <==> StartsWith(Lower(message), ProcedurePrefix)
    ensures ParseCommand(message).ProcedureUsage?
            <==> StartsWith(Lower(message), ProcedurePrefix) && ':' !in message
    ensures ParseCommand(message).Converse?
            <==> !StartsWith(Lower(message), FactPrefix) && !StartsWith(Lower(message), ProcedurePrefix)
  {
    PrefixesExclusive(Lower(message));
    ContainsChar(message, ':');
  }

  lemma FactBranch(message: string, fact: string)
    requires StartsWith(Lower(message), FactPrefix)
    requires Strip(Drop(message, |FactPrefix|)) == fact
    ensures ParseCommand(message) == TeachFact(fact)
  {
  }

  lemma ProcedureBranch(message: string, head: string, tail: string, name: string, steps: seq<string>)
    requires StartsWith(Lower(message), ProcedurePrefix)
    requires SplitOnce(message, ":") == [head, tail]
    requires Strip(Drop(head, |ProcedurePrefix|)) == name
    requires StripAll(SplitOn(tail, ',')) == steps
    ensures ParseCommand(message) == TeachProcedure(name, steps)
  {
    PrefixesExclusive(Lower(message));
  }

  /** Text that starts with a lower-case prefix keeps it under `lower`. */
  lemma LowerKeepsPrefix(prefix: string, rest: string)
    requires forall i :: 0 <= i < |prefix| ==> !IsUpper(prefix[i])
    ensures StartsWith(Lower(prefix + rest), prefix)
  {
    var low := Lower(prefix + rest);
    assert forall i :: 0 <= i < |prefix| ==> low[i] == (prefix + rest)[i] == prefix[i];
  }

  /** Cutting a prefix off `prefix + " " + s` and stripping gives `s` back when `s` is stripped. */
  lemma DropPrefixStrip(prefix: string, s: string)
    requires Trimmed(s)
    ensures Strip(Drop(prefix + " " + s, |prefix|)) == s
  {
    var whole := prefix + " " + s;
    assert whole[|prefix|..] == " " + s;
    StripBlankLed(s);
  }

  /** Teaching a fact in the documented form gives that fact back. */
  lemma FactCommandRoundTrip(fact: string)
    requires Trimmed(fact)
    ensures ParseCommand(FactPrefix + " " + fact) == TeachFact(fact)
  {
    var message := FactPrefix + " " + fact;
    assert message == FactPrefix + (" " + fact);
    LowerKeepsPrefix(FactPrefix, " " + fact);
    DropPrefixStrip(FactPrefix, fact);
    FactBranch(message, fact);
  }

  /** `", ".join(steps)` after a blank is the comma-join of the blank-led steps. */
  lemma {:induction false} JoinSpaced(steps: seq<string>)
    requires steps != []
    ensures " " + Join(", ", steps) == Join([','], seq(|steps|, k requires 0 <= k < |steps| => " " + steps[k]))
  {
    var spaced := seq(|steps|, k requires 0 <= k < |steps| => " " + steps[k]);
    if |steps| > 1 {
      JoinSpaced(steps[1..]);
      assert spaced[1..] == seq(|steps[1..]|, k requires 0 <= k < |steps[1..]| => " " + steps[1..][k]);
      assert " " + Join(", ", steps) == (" " + steps[0]) + [','] + (" " + Join(", ", steps[1..]));
    }
  }

  /**
   * Teaching a procedure in the documented form
   * `remember the steps for <name>: <step1>, <step2>, ...` gives back the
   * name and the steps, provided the name holds no colon, no step holds a
   * comma, and none of them has surrounding blanks.
   */
  lemma ProcedureCommandRoundTrip(name: string, steps: seq<string>)
    requires ':' !in name && Trimmed(name)
    requires steps != []
    requires forall k :: 0 <= k < |steps| ==> ',' !in steps[k] && Trimmed(steps[k])
    ensures ParseCommand(ProcedurePrefix + " " + name + ": " + Join(", ", steps)) == TeachProcedure(name, steps)
  {
    var tail := " " + Join(", ", steps);
    ColonBlank(ProcedurePrefix + " " + name, Join(", ", steps));
    ProcedureCommandShape(name, tail);
    StepsRoundTrip(steps);
  }

  lemma ColonBlank(a: string, b: string)
    ensures a + ": " + b == a + ":" + (" " + b)
  {
  }

  /** A procedure command names the text between the prefix and the first colon. */
  lemma ProcedureCommandShape(name: string, tail: string)
    requires ':' !in name && Trimmed(name)
    ensures ParseCommand(ProcedurePrefix + " " + name + ":" + tail)
            == TeachProcedure(name, StripAll(SplitOn(tail, ',')))
  {
    var head := ProcedurePrefix + " " + name;
    var message := head + ":" + tail;
    ProcedureMessageLed(name, tail);
    ProcedureHeadNoColon(name);
    SplitAtFirstColon(head, tail, message);
    DropPrefixStrip(ProcedurePrefix, name);
    ProcedureBranch(message, head, tail, name, StripAll(SplitOn(tail, ',')));
  }

  lemma ProcedureMessageLed(name: string, tail: string)
    ensures StartsWith(Lower(ProcedurePrefix + " " + name + ":" + tail), ProcedurePrefix)
  {
    assert ProcedurePrefix + " " + name + ":" + tail == ProcedurePrefix + (" " + name + ":" + tail);
    LowerKeepsPrefix(ProcedurePrefix, " " + name + ":" + tail);
  }

  lemma ProcedureHeadNoColon(name: string)
    requires ':' !in name
    ensures ':' !in ProcedurePrefix + " " + name
  {
    assert ':' !in ProcedurePrefix + " ";
  }

  /** The first colon of `head + ":" + tail` is the one after `head` when `head` has none. */
  lemma SplitAtFirstColon(head: string, tail: string, message: string)
    requires ':' !in head && message == head + ":" + tail
    ensures SplitOnce(message, ":") == [head, tail]
  {
    assert Occurs(message, ":", |head|);
    forall j | 0 <= j < |head| ensures !Occurs(message, ":", j) {
      assert message[j..j + 1][0] == head[j];
    }
    var parts := SplitOnce(message, ":");
    assert IndexOf(message, ":") == Some(|head|);
    assert parts[0] + ":" + parts[1] == head + ":" + tail;
    assert parts[0] == (parts[0] + ":" + parts[1])[..|head|];
    assert parts[1] == (parts[0] + ":" + parts[1])[|head| + 1..];
  }

  /** `", "`-joined steps after the colon's blank split back into the steps. */
  lemma StepsRoundTrip(steps: seq<string>)
    requires steps != []
    requires forall k :: 0 <= k < |steps| ==> ',' !in steps[k] && Trimmed(steps[k])
    ensures StripAll(SplitOn(" " + Join(", ", steps), ',')) == steps
  {
    var spaced := seq(|steps|, k requires 0 <= k < |steps| => " " + steps[k]);
    forall k | 0 <= k < |spaced| ensures ',' !in spaced[k] {
      assert spaced[k] == " " + steps[k];
    }
    JoinSpaced(steps);
    SplitOnJoin(spaced, ',');
    assert SplitOn(" " + Join(", ", steps), ',') == spaced;
    var stripped := StripAll(spaced);
    forall k | 0 <= k < |steps| ensures stripped[k] == steps[k] {
      StripBlankLed(steps[k]);
    }
  }

  /** The request sent to the model: the system prompt, the memory context, the user message. */
  function Prompt(context: string, message: string): seq<ChatMessage>
  {
    [ChatMessage("system", SystemPrompt),
     ChatMessage("system", "Context from memory:\n" + context),
     ChatMessage("user", message)]
  }

  function SeedRecords(now: nat): seq<Fact>
  {
    seq(|SeedFacts|, k requires 0 <= k < |SeedFacts| => Fact(SeedFacts[k], None, now))
  }

  class MemoryAgent {
    const memory: Memory
    const modelName: string

    ghost predicate Valid()
      reads this, memory
    {
      memory.Valid()
    }

    /** Loads the stores and adds the four seed facts on top of what was loaded. */
    constructor (stored: Disk, now: nat)
      ensures Valid() && fresh(memory)
      ensures memory.facts == LoadOr(stored.facts, []) + SeedRecords(now)
      ensures |memory.facts| == |LoadOr(stored.facts, [])| + 4
      ensures memory.conversations == LoadOr(stored.conversations, [])
      ensures memory.procedures == LoadOr(stored.procedures, map[])
      ensures memory.workingMemory == []
    {
      var m := new Memory(stored);
      m.AddFact(SeedFacts[0], None, now);
      m.AddFact(SeedFacts[1], None, now);
      m.AddFact(SeedFacts[2], None, now);
      m.AddFact(SeedFacts[3], None, now);
      memory := m;
      modelName := "gpt-4o-mini";
    }

    method LearnFact(fact: string, category: Option<string>, now: nat) returns (reply: string)
      requires Valid()
      modifies memory
      ensures Valid()
      ensures reply == "I have learned the fact: " + fact
      ensures memory.facts == old(memory.facts) + [Fact(fact, category, now)]
      ensures memory.conversations == old(memory.conversations) && memory.procedures == old(memory.procedures)
      ensures memory.workingMemory == old(memory.workingMemory)
    {
      memory.AddFact(fact, category, now);
      reply := "I have learned the fact: " + fact;
    }

    method LearnProcedure(name: string, steps: seq<string>, description: Option<string>, now: nat)
      returns (reply: string)
      requires Valid()
      modifies memory
      ensures Valid()
      ensures reply == "I have learned the procedure: " + name
      ensures memory.procedures == old(memory.procedures)[name := Procedure(name, steps, description, now, 0)]
      ensures memory.facts == old(memory.facts) && memory.conversations == old(memory.conversations)
      ensures memory.workingMemory == old(memory.workingMemory)
    {
      memory.AddProcedure(name, steps, description, now);
      reply := "I have learned the procedure: " + name;
    }

    /**
     * Answers one utterance. Teaching commands never build a context or call
     * the model; a conversational turn is recorded only when the model
     * answers; an exception from building the context escapes as `Err`.
     */
    method Query(message: string, now: nat, complete: seq<ChatMessage> -> Completion) returns (r: Result<string>)
      requires Valid()
      modifies memory
      ensures Valid()
      ensures match ParseCommand(message)
        case TeachFact(fact) =>
          && r == Ok("I have learned the fact: " + fact)
          && memory.facts == old(memory.facts) + [Fact(fact, None, now)]
          && memory.conversations == old(memory.conversations) && memory.procedures == old(memory.procedures)
          && memory.workingMemory == old(memory.workingMemory)
        case TeachProcedure(name, steps) =>
          && r == Ok("I have learned the procedure: " + name)
          && memory.procedures == old(memory.procedures)[name := Procedure(name, steps, None, now, 0)]
          && memory.facts == old(memory.facts) && memory.conversations == old(memory.conversations)
          && memory.workingMemory == old(memory.workingMemory)
        case ProcedureUsage =>
          r == Ok(UsageReply) && unchanged(memory)
        case Converse =>
          match ContextOf(old(memory.workingMemory), old(memory.conversations), old(memory.facts),
                          old(memory.procedures), message)
          case Err(e) => r == Err(e) && unchanged(memory)
          case Ok(context) =>
            match complete(Prompt(context, message))
            case Failed(cause) => r == Ok(ErrorReplyPrefix + cause) && unchanged(memory)
            case Completed(text) =>
              && r == Ok(text)
              && memory.conversations == old(memory.conversations) + [Conversation(message, text, map[], now)]
              && memory.workingMemory ==
                   Pushed(Pushed(old(memory.workingMemory), WorkingItem("User: " + message, UserImportance, now), memory.capacity),
                          WorkingItem("Agent: " + text, AgentImportance, now), memory.capacity)
              && memory.facts == old(memory.facts) && memory.procedures == old(memory.procedures)
    {
      var command := ParseCommand(message);
      match command {
        case TeachFact(fact) =>
          var reply := LearnFact(fact, None, now);
          return Ok(reply);
        case TeachProcedure(name, steps) =>
          var reply := LearnProcedure(name, steps, None, now);
          return Ok(reply);
        case ProcedureUsage =>
          return Ok(UsageReply);
        case Converse =>
      }
      var context := memory.GenerateContext(message);
      if context.Err? {
        return Err(context.error);
      }
      var completion := complete(Prompt(context.value, message));
      match completion {
        case Completed(text) =>
          memory.AddConversation(message, text, None, now);
          return Ok(text);
        case Failed(cause) =>
          return Ok(ErrorReplyPrefix + cause);
      }
    }
  }
}
