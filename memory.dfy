/**
 * The hand-rolled memory engine of manual/memory.py: append-only facts
 * (semantic memory) and conversation turns (episodic memory), procedures
 * keyed by name (procedural memory), a working memory of at most ten items
 * that lives only in RAM, keyword retrieval over the three stores, and the
 * four-section context block handed to the language model.
 *
 * Clock readings are a caller-supplied `now` (the ISO strings of the source
 * are only ever compared); importance is kept in tenths (1.0 is 10).
 */
module ManualMemory {
  import opened Wrappers
  import opened PyStr
  import opened Sorting
  import opened Ranking

  datatype Fact = Fact(content: string, category: Option<string>, timestamp: nat)

  datatype Conversation = Conversation(
    userMessage: string, agentResponse: string, metadata: map<string, string>, timestamp: nat)

  datatype Procedure = Procedure(
    name: string, steps: seq<string>, description: Option<string>, timestamp: nat, usageCount: nat)

  datatype WorkingItem = WorkingItem(content: string, importance: int, timestamp: nat)

  /** The three JSON files under the storage directory; `None` when a file does not exist. */
  datatype Disk = Disk(
    facts: Option<seq<Fact>>,
    conversations: Option<seq<Conversation>>,
    procedures: Option<map<string, Procedure>>)

  const WorkingMemoryCapacity: nat := 10
  /** Importance 1.0, the default and the weight of a user message. */
  const UserImportance: int := 10
  /** Importance 0.9, the weight of an agent response. */
  const AgentImportance: int := 9
  /** The default `limit` of the three searches. */
  const SearchLimit: int := 3

  // ---------------------------------------------------------------- working memory

  /** Ascending order of the key `(importance, timestamp)`. */
  predicate KeyLe(a: WorkingItem, b: WorkingItem) {
    a.importance < b.importance || (a.importance == b.importance && a.timestamp <= b.timestamp)
  }

  /** The same key with `reverse=True`. */
  predicate KeyGe(a: WorkingItem, b: WorkingItem) {
    KeyLe(b, a)
  }

  lemma KeyOrdersTotal()
    ensures TotalPreorder(KeyLe) && TotalPreorder(KeyGe)
  {
  }

  /** Working memory after `add_to_working_memory` has appended `item`. */
  function Pushed(wm: seq<WorkingItem>, item: WorkingItem, capacity: nat): seq<WorkingItem>
  {
    var grown := wm + [item];
    if |grown| > capacity then SortBy(grown, KeyLe)[1..] else grown
  }

  /** The item dropped when an append overflows: the head of the ascending sort. */
  function Evicted(wm: seq<WorkingItem>, item: WorkingItem): WorkingItem
  {
    SortBy(wm + [item], KeyLe)[0]
  }

  /** Below capacity the item is appended last and nothing else moves. */
  lemma PushedBelowCapacity(wm: seq<WorkingItem>, item: WorkingItem, capacity: nat)
    requires |wm| < capacity
    ensures Pushed(wm, item, capacity) == wm + [item]
    ensures |Pushed(wm, item, capacity)| <= capacity
  {
  }

  /**
   * At capacity exactly one item leaves: a minimum under (importance,
   * timestamp), the earliest such one in list order; the survivors are left
   * sorted ascending and the bound holds again.
   */
  lemma PushedAtCapacity(wm: seq<WorkingItem>, item: WorkingItem, capacity: nat)
    requires capacity <= |wm|
    ensures var grown := wm + [item];
            var e := Evicted(wm, item);
            && |Pushed(wm, item, capacity)| == |wm|
            && multiset(Pushed(wm, item, capacity)) + multiset{e} == multiset(grown)
            && (forall y :: y in grown ==> KeyLe(e, y))
            && (exists i :: 0 <= i < |grown| && grown[i] == e && forall j :: 0 <= j < i ==> !KeyLe(grown[j], e))
            && SortedBy(Pushed(wm, item, capacity), KeyLe)
  {
    var grown := wm + [item];
    var sorted := SortBy(grown, KeyLe);
    KeyOrdersTotal();
    SortBySorted(grown, KeyLe);
    SortByHeadIsFirstMinimum(grown, KeyLe);
    assert sorted == [sorted[0]] + sorted[1..];
  }

  /** Pushing never takes working memory past its capacity. */
  lemma PushedBounded(wm: seq<WorkingItem>, item: WorkingItem, capacity: nat)
    requires |wm| <= capacity
    ensures |Pushed(wm, item, capacity)| <= capacity
  {
    if |wm| == capacity {
      PushedAtCapacity(wm, item, capacity);
    }
  }

  /** The working-memory snapshot: most important first, latest first among equals. */
  function Snapshot(wm: seq<WorkingItem>): seq<WorkingItem>
  {
    SortBy(wm, KeyGe)
  }

  lemma SnapshotOrdered(wm: seq<WorkingItem>)
    ensures SortedBy(Snapshot(wm), KeyGe)
    ensures multiset(Snapshot(wm)) == multiset(wm)
  {
    KeyOrdersTotal();
    SortBySorted(wm, KeyGe);
  }

  // ---------------------------------------------------------------- retrieval

  /** `query.lower().split()` */
  function QueryTerms(query: string): seq<string>
  {
    Words(Lower(query))
  }

  function FactText(f: Fact): string {
    Lower(f.content)
  }

  function ConversationText(c: Conversation): string {
    Lower(c.userMessage + " " + c.agentResponse)
  }

  function FactScores(facts: seq<Fact>, terms: seq<string>): (r: seq<Scored<Fact>>)
    ensures |r| == |facts|
    ensures forall i :: 0 <= i < |facts| ==> r[i] == Scored(facts[i], MatchCount(terms, FactText(facts[i])))
  {
    seq(|facts|, i requires 0 <= i < |facts| => Scored(facts[i], MatchCount(terms, FactText(facts[i]))))
  }

  function ConversationScores(convs: seq<Conversation>, terms: seq<string>): (r: seq<Scored<Conversation>>)
    ensures |r| == |convs|
    ensures forall i :: 0 <= i < |convs| ==> r[i] == Scored(convs[i], MatchCount(terms, ConversationText(convs[i])))
  {
    seq(|convs|, i requires 0 <= i < |convs| => Scored(convs[i], MatchCount(terms, ConversationText(convs[i]))))
  }

  lemma FactScoresSnoc(facts: seq<Fact>, i: nat, terms: seq<string>)
    requires i < |facts|
    ensures FactScores(facts[..i + 1], terms)
            == FactScores(facts[..i], terms) + [Scored(facts[i], MatchCount(terms, FactText(facts[i])))]
  {
  }

  lemma ConversationScoresSnoc(convs: seq<Conversation>, i: nat, terms: seq<string>)
    requires i < |convs|
    ensures ConversationScores(convs[..i + 1], terms)
            == ConversationScores(convs[..i], terms) + [Scored(convs[i], MatchCount(terms, ConversationText(convs[i])))]
  {
  }

  /** What `search_facts(query, limit)` returns. */
  function RankedFacts(facts: seq<Fact>, query: string, limit: int): seq<Fact>
  {
    Items(Top(FactScores(facts, QueryTerms(query)), limit))
  }

  /** What `search_conversations(query, limit)` returns. */
  function RankedConversations(convs: seq<Conversation>, query: string, limit: int): seq<Conversation>
  {
    Items(Top(ConversationScores(convs, QueryTerms(query)), limit))
  }

  /** Every fact returned is stored and contains some lower-cased query term. */
  lemma RankedFactsMatch(facts: seq<Fact>, query: string, limit: int)
    ensures forall k :: 0 <= k < |RankedFacts(facts, query, limit)| ==>
      var f := RankedFacts(facts, query, limit)[k];
      f in facts && exists t :: t in QueryTerms(query) && Contains(FactText(f), t)
  {
    var scores := FactScores(facts, QueryTerms(query));
    var top := Top(scores, limit);
    TopMatches(scores, limit);
    forall k | 0 <= k < |top|
      ensures top[k].item in facts && exists t :: t in QueryTerms(query) && Contains(FactText(top[k].item), t)
    {
      var i :| 0 <= i < |scores| && scores[i] == top[k];
      assert top[k].item == facts[i];
    }
  }

  /** Every turn returned is stored and contains some lower-cased query term. */
  lemma RankedConversationsMatch(convs: seq<Conversation>, query: string, limit: int)
    ensures forall k :: 0 <= k < |RankedConversations(convs, query, limit)| ==>
      var c := RankedConversations(convs, query, limit)[k];
      c in convs && exists t :: t in QueryTerms(query) && Contains(ConversationText(c), t)
  {
    var scores := ConversationScores(convs, QueryTerms(query));
    var top := Top(scores, limit);
    TopMatches(scores, limit);
    forall k | 0 <= k < |top|
      ensures top[k].item in convs && exists t :: t in QueryTerms(query) && Contains(ConversationText(top[k].item), t)
    {
      var i :| 0 <= i < |scores| && scores[i] == top[k];
      assert top[k].item == convs[i];
    }
  }

  /** An empty or all-whitespace query finds nothing. */
  lemma BlankQueryFindsNothing(facts: seq<Fact>, convs: seq<Conversation>, query: string, limit: int)
    requires forall i :: 0 <= i < |query| ==> IsSpace(query[i])
    ensures RankedFacts(facts, query, limit) == []
    ensures RankedConversations(convs, query, limit) == []
  {
    var low := Lower(query);
    assert forall i :: 0 <= i < |low| ==> IsSpace(low[i]) by {
      forall i | 0 <= i < |low| ensures IsSpace(low[i]) {
        assert IsSpace(query[i]);
      }
    }
    WordsEmpty(low);
    TopNoMatch(FactScores(facts, []), limit);
    TopNoMatch(ConversationScores(convs, []), limit);
  }

  /** `f'{name} {procedure.get("description", "")}'.lower()`: a missing description prints as `None`. */
  function ProcedureText(name: string, p: Procedure): string
  {
    Lower(name + " " + (match p.description case Some(d) => d case None => "None"))
  }

  /**
   * What `search_procedures(query, limit)` does: the raw query is looked up
   * in the lower-cased text; a hit makes the sort key call `.get` on a tuple,
   * which raises, so the only value it ever returns is the empty list.
   */
  function ProcedureSearch(procs: map<string, Procedure>, query: string, limit: int): (r: Result<seq<Procedure>>)
    ensures r.Ok? ==> r.value == []
  {
    if exists name :: name in procs && Contains(ProcedureText(name, procs[name]), query)
    then Err(TupleHasNoGet)
    else Ok([])
  }

  /** A query holding a capital letter never matches, so the search returns `[]`. */
  lemma UppercaseQueryFindsNoProcedure(procs: map<string, Procedure>, query: string, limit: int, k: nat)
    requires k < |query| && IsUpper(query[k])
    ensures ProcedureSearch(procs, query, limit) == Ok([])
  {
    forall name | name in procs
      ensures !Contains(ProcedureText(name, procs[name]), query)
    {
      UpperNeverInLower(name + " " + (match procs[name].description case Some(d) => d case None => "None"), query, k);
    }
  }

  /** The empty query is a substring of every text: with any procedure stored it raises. */
  lemma EmptyQueryRaises(procs: map<string, Procedure>, limit: int)
    requires procs != map[]
    ensures ProcedureSearch(procs, "", limit) == Err(TupleHasNoGet)
  {
    var name :| name in procs;
    ContainsAt(ProcedureText(name, procs[name]), "", 0);
  }

  // ---------------------------------------------------------------- context

  const WorkingHeading := "### Current Context (Working memory):\n"
  const HistoryHeading := "\n\n### Recent Conversation History:\n"
  const FactsHeading := "\n\n### Relevant Facts from Memory:\n"
  const ProceduresHeading := "\n\n### Relevant Procedures:\n"

  /** `conversations[-count:] if len(conversations) > count else conversations` */
  function Recent(convs: seq<Conversation>, count: int): (r: seq<Conversation>)
    ensures |r| <= |convs| && r == convs[|convs| - |r|..]
    ensures 0 < count ==> |r| == if count < |convs| then count else |convs|
    ensures count == 0 ==> r == convs
  {
    if |convs| > count then Drop(convs, -count) else convs
  }

  function WorkingText(wm: seq<WorkingItem>): string
  {
    var items := Snapshot(wm);
    Join("\n", seq(|items|, i requires 0 <= i < |items| => "- " + items[i].content))
  }

  function RecentText(recent: seq<Conversation>): string
  {
    Join("\n", seq(|recent|, i requires 0 <= i < |recent| =>
      "User: " + recent[i].userMessage + "\nAgent: " + recent[i].agentResponse))
  }

  function FactsText(facts: seq<Fact>): string
  {
    Join("\n", seq(|facts|, i requires 0 <= i < |facts| => "- " + facts[i].content))
  }

  function StepsText(steps: seq<string>): string
  {
    Join("\n", seq(|steps|, i requires 0 <= i < |steps| => NatToString(i + 1) + ". " + steps[i]))
  }

  function ProceduresText(found: seq<Procedure>): string
  {
    if found == [] then ""
    else
      var p := found[|found| - 1];
      ProceduresText(found[..|found| - 1]) + "Procedure: " + p.name + "\n" + StepsText(p.steps) + "\n\n"
  }

  function Template(working: string, recent: string, facts: string, procedures: string): string
  {
    WorkingHeading + working + HistoryHeading + recent + FactsHeading + facts + ProceduresHeading + procedures + "\n"
  }

  /** What `generate_context(message)` returns, or the exception it lets through. */
  function ContextOf(wm: seq<WorkingItem>, convs: seq<Conversation>, facts: seq<Fact>,
                     procs: map<string, Procedure>, message: string): Result<string>
  {
    match ProcedureSearch(procs, message, SearchLimit)
    case Err(e) => Err(e)
    case Ok(found) =>
      Ok(Strip(Template(WorkingText(wm), RecentText(Recent(convs, 3)),
                        FactsText(RankedFacts(facts, message, SearchLimit)), ProceduresText(found))))
  }

  /**
   * With no procedure text, stripping the template removes just the blank
   * lines after the last heading.
   */
  lemma TemplateStripped(working: string, recent: string, facts: string)
    ensures Strip(Template(working, recent, facts, "")) ==
            WorkingHeading + working + HistoryHeading + recent + FactsHeading + facts
            + "\n\n### Relevant Procedures:"
  {
    var body := WorkingHeading + working + HistoryHeading + recent + FactsHeading + facts
                + "\n\n### Relevant Procedures:";
    var whole := Template(working, recent, facts, "");
    assert whole == body + "\n\n" by {
      assert ProceduresHeading + "" + "\n" == "\n\n### Relevant Procedures:" + "\n\n";
    }
    assert WorkingHeading[0] == '#';
    assert body[0] == WorkingHeading[0];
    assert whole[0] == body[0];
    assert LStrip(whole) == whole;
    assert body[|body| - 1] == ':';
    RStripDropsTail(body, "\n\n");
  }

  /**
   * The context is built exactly when no procedure matches the message; it
   * then holds the four headed sections in order, and the last one, the
   * procedures, is always empty.
   */
  lemma ContextSections(wm: seq<WorkingItem>, convs: seq<Conversation>, facts: seq<Fact>,
                        procs: map<string, Procedure>, message: string)
    ensures ContextOf(wm, convs, facts, procs, message).Ok?
            <==> forall name :: name in procs ==> !Contains(ProcedureText(name, procs[name]), message)
    ensures ContextOf(wm, convs, facts, procs, message).Ok? ==>
            ContextOf(wm, convs, facts, procs, message).value ==
              WorkingHeading + WorkingText(wm) + HistoryHeading + RecentText(Recent(convs, 3))
              + FactsHeading + FactsText(RankedFacts(facts, message, SearchLimit))
              + "\n\n### Relevant Procedures:"
  {
    var search := ProcedureSearch(procs, message, SearchLimit);
    if search.Ok? {
      var working, recent, found := WorkingText(wm), RecentText(Recent(convs, 3)), FactsText(RankedFacts(facts, message, SearchLimit));
      assert ProceduresText(search.value) == "";
      assert ContextOf(wm, convs, facts, procs, message) == Ok(Strip(Template(working, recent, found, "")));
      TemplateStripped(working, recent, found);
    }
  }

  // ---------------------------------------------------------------- the store

  class Memory {
    var facts: seq<Fact>
    var conversations: seq<Conversation>
    var procedures: map<string, Procedure>
    /** Lives in RAM only; never saved. */
    var workingMemory: seq<WorkingItem>
    const capacity: nat
    /** The saved JSON files: every save overwrites a whole collection. */
    ghost var disk: Disk

    /** Working memory within capacity, and reloading the files gives back the stores. */
    ghost predicate Valid()
      reads this
    {
      && capacity == WorkingMemoryCapacity
      && |workingMemory| <= capacity
      && LoadOr(disk.facts, []) == facts
      && LoadOr(disk.conversations, []) == conversations
      && LoadOr(disk.procedures, map[]) == procedures
    }

    /** Loads each collection, or its empty default when its file is absent. */
    constructor (stored: Disk)
      ensures Valid()
      ensures disk == stored
      ensures facts == LoadOr(stored.facts, [])
      ensures conversations == LoadOr(stored.conversations, [])
      ensures procedures == LoadOr(stored.procedures, map[])
      ensures workingMemory == []
    {
      facts := LoadOr(stored.facts, []);
      conversations := LoadOr(stored.conversations, []);
      procedures := LoadOr(stored.procedures, map[]);
      workingMemory := [];
      capacity := WorkingMemoryCapacity;
      disk := stored;
    }

    method AddFact(content: string, category: Option<string>, now: nat)
      requires Valid()
      modifies this
      ensures Valid()
      ensures facts == old(facts) + [Fact(content, category, now)]
      ensures disk == old(disk).(facts := Some(facts))
      ensures conversations == old(conversations) && procedures == old(procedures)
      ensures workingMemory == old(workingMemory)
    {
      facts := facts + [Fact(content, category, now)];
      disk := disk.(facts := Some(facts));
    }

    method AddProcedure(name: string, steps: seq<string>, description: Option<string>, now: nat)
      requires Valid()
      modifies this
      ensures Valid()
      ensures procedures == old(procedures)[name := Procedure(name, steps, description, now, 0)]
      ensures |procedures| == if name in old(procedures) then |old(procedures)| else |old(procedures)| + 1
      ensures disk == old(disk).(procedures := Some(procedures))
      ensures facts == old(facts) && conversations == old(conversations)
      ensures workingMemory == old(workingMemory)
    {
      procedures := procedures[name := Procedure(name, steps, description, now, 0)];
      disk := disk.(procedures := Some(procedures));
    }

    method AddToWorkingMemory(content: string, importance: int, now: nat)
      requires Valid()
      modifies this
      ensures Valid()
      ensures workingMemory == Pushed(old(workingMemory), WorkingItem(content, importance, now), capacity)
      ensures facts == old(facts) && conversations == old(conversations) && procedures == old(procedures)
      ensures disk == old(disk)
    {
      PushedBounded(workingMemory, WorkingItem(content, importance, now), capacity);
      workingMemory := workingMemory + [WorkingItem(content, importance, now)];
      if |workingMemory| > capacity {
        workingMemory := SortBy(workingMemory, KeyLe);
        workingMemory := workingMemory[1..];
      }
    }

    method AddConversation(userMessage: string, agentResponse: string,
                           metadata: Option<map<string, string>>, now: nat)
      requires Valid()
      modifies this
      ensures Valid()
      ensures conversations == old(conversations) + [Conversation(userMessage, agentResponse, LoadOr(metadata, map[]), now)]
      ensures disk == old(disk).(conversations := Some(conversations))
      ensures workingMemory == Pushed(Pushed(old(workingMemory), WorkingItem("User: " + userMessage, UserImportance, now), capacity),
                                      WorkingItem("Agent: " + agentResponse, AgentImportance, now), capacity)
      ensures facts == old(facts) && procedures == old(procedures)
    {
      conversations := conversations + [Conversation(userMessage, agentResponse, LoadOr(metadata, map[]), now)];
      disk := disk.(conversations := Some(conversations));
      AddToWorkingMemory("User: " + userMessage, UserImportance, now);
      AddToWorkingMemory("Agent: " + agentResponse, AgentImportance, now);
    }

    method SearchFacts(query: string, limit: int) returns (r: seq<Fact>)
      ensures r == RankedFacts(facts, query, limit)
    {
      var terms := Words(Lower(query));
      var results: seq<Scored<Fact>> := [];
      var i := 0;
      while i < |facts|
        invariant 0 <= i <= |facts|
        invariant results == Positive(FactScores(facts[..i], terms))
      {
        var score := MatchCount(terms, Lower(facts[i].content));
        FactScoresSnoc(facts, i, terms);
        PositiveSnoc(FactScores(facts[..i], terms), Scored(facts[i], score));
        if score > 0 {
          results := results + [Scored(facts[i], score)];
        }
        i := i + 1;
      }
      assert facts[..i] == facts;
      results := SortBy(results, ScoreGe);
      r := Items(Take(results, limit));
    }

    method SearchConversations(query: string, limit: int) returns (r: seq<Conversation>)
      ensures r == RankedConversations(conversations, query, limit)
    {
      var terms := Words(Lower(query));
      var results: seq<Scored<Conversation>> := [];
      var i := 0;
      while i < |conversations|
        invariant 0 <= i <= |conversations|
        invariant results == Positive(ConversationScores(conversations[..i], terms))
      {
        var c := conversations[i];
        var score := MatchCount(terms, Lower(c.userMessage + " " + c.agentResponse));
        ConversationScoresSnoc(conversations, i, terms);
        PositiveSnoc(ConversationScores(conversations[..i], terms), Scored(c, score));
        if score > 0 {
          results := results + [Scored(c, score)];
        }
        i := i + 1;
      }
      assert conversations[..i] == conversations;
      results := SortBy(results, ScoreGe);
      r := Items(Take(results, limit));
    }

    method SearchProcedures(query: string, limit: int) returns (r: Result<seq<Procedure>>)
      ensures r == ProcedureSearch(procedures, query, limit)
    {
      var hits: seq<Procedure> := [];
      var pending := procedures.Keys;
      while pending != {}
        invariant pending <= procedures.Keys
        invariant hits == [] <==>
          forall name :: name in procedures.Keys - pending ==> !Contains(ProcedureText(name, procedures[name]), query)
        decreases pending
      {
        var name :| name in pending;
        if Contains(Lower(name + " " + (match procedures[name].description case Some(d) => d case None => "None")), query) {
          hits := hits + [procedures[name]];
        }
        pending := pending - {name};
      }
      if hits != [] {
        // `results.sort(key=lambda x: x.get('usage_count', 0), reverse=True)` on (procedure, 1) tuples
        r := Err(TupleHasNoGet);
      } else {
        r := Ok(Take(hits, limit));
      }
    }

    /** `get_recent_conversations(count)` */
    function GetRecentConversations(count: int): (r: seq<Conversation>)
      reads this
      ensures |r| <= |conversations| && r == conversations[|conversations| - |r|..]
      ensures 0 < count ==> |r| == if count < |conversations| then count else |conversations|
    {
      Recent(conversations, count)
    }

    /** Builds the context block; reads the stores and changes nothing. */
    method GenerateContext(message: string) returns (r: Result<string>)
      ensures r == ContextOf(workingMemory, conversations, facts, procedures, message)
    {
      var working := WorkingText(workingMemory);
      var recent := RecentText(GetRecentConversations(3));
      var relevantFacts := SearchFacts(message, SearchLimit);
      var factsText := FactsText(relevantFacts);
      var relevantProcedures := SearchProcedures(message, SearchLimit);
      if relevantProcedures.Err? {
        return Err(relevantProcedures.error);
      }
      var proceduresText := ProceduresText(relevantProcedures.value);
      r := Ok(Strip(Template(working, recent, factsText, proceduresText)));
    }
  }
}
