# memory-agent in Dafny

This project models the deterministic core of the memory-agent examples.

- **Hand-rolled memory engine** (manual/memory.py). It keeps:
  - append-only facts (semantic memory) and conversation turns (episodic memory);
  - procedures keyed by name (procedural memory);
  - a working memory of at most ten items that lives only in RAM and, on overflow, evicts the item with the least `(importance, timestamp)`.

  On top of these it offers keyword retrieval over the three stores and the four-section context block given to the language model.
- **Agent front end** (manual/agent.py). `MemoryAgent.query` reads each utterance as one of:
  - a command that teaches a fact;
  - a command that teaches a procedure;
  - a malformed procedure command;
  - a conversational turn answered by the model with the memory context.
- **Customer-support tools** (langgraph/tools.py): the dictionary `MEMORY_DB` with create, update and delete, and a ranked term-overlap search.
- **Inquiry handler** (langgraph/simulation.py): `handle_inquiry` files one memory note, chosen by a keyword rule, and appends the inquiry to a history.
- **Fitness coach helpers** (langmem/fitness_coach_agent.py): the text helpers `extract_key_information` and `clean_response`.

## Layout

| file | module | contents |
|---|---|---|
| `wrappers.dfy` | `Wrappers` | `Option`, `Result`, and the exception `search_procedures` raises |
| `pystr.dfy` | `PyStr` | Python string operations: `lower`, `in`, `find`, `strip`, `split()`, `split(sep, 1)`, `split(',')`, `join`, slices, `str(n)` |
| `sorting.dfy` | `Sorting` | a stable sort (`list.sort`, `sorted`), with sortedness, permutation and stability lemmas |
| `ranking.dfy` | `Ranking` | term-count scoring and "keep positive, sort descending, take `limit`" |
| `memory.dfy` | `ManualMemory` | `class Memory` and the specification functions of its searches and context |
| `agent.dfy` | `ManualAgent` | command parsing and `class MemoryAgent` |
| `tools.dfy` | `SupportTools` | `manage_memory` and `search_memory` on values, and `class MemoryDb` |
| `simulation.dfy` | `CustomerSimulation` | the keyword rule and `HandleInquiry` |
| `coach.dfy` | `FitnessCoach` | `ExtractKeyInformation`, `Cleaned` and the looping `CleanResponse` |

## Representation choices

- **Clock.** Every clock reading is a caller-supplied natural number `now`. The source only ever compares its ISO timestamp strings, so only their order matters.
- **Working-memory importance.** Importance is an integer in tenths: 1.0 is 10 and 0.9 is 9.
- **Persistence.** The JSON files are the ghost field `disk` of `Memory`. Each save overwrites one whole collection. Loading a collection gives the stored value, or its default when the file is absent (`LoadOr`).
- **Dictionary order.** A Python dictionary iterates in insertion order, and `search_memory` inherits that order for ties. `MEMORY_DB` is therefore a map plus the sequence of its keys, in insertion order. An update keeps a key's place; a delete drops it.
- **Memory ids.** Python's `hash` is a function-valued field `hash` of `MemoryDb`. An id is `'mem_' + str(abs(hash(content)))` cut to 12 characters.
- **Search score.** The `search_memory` score `matched / total` is kept as the pair `(matched, total)`. `total` is the same for every result of one search, so ranking by `matched` gives the order the fraction gives.
- **Language model.** The model call in `query` is a parameter `complete`. It maps the three chat messages to `Completed(text)` or `Failed(cause)`.
- **Procedure search.** `search_procedures` tests the raw query against the lower-cased text. Whenever some procedure matches, its sort key calls `.get` on a `(procedure, 1)` tuple and raises. The model returns that exception as `Err(TupleHasNoGet)`. `generate_context` lets it through, and so does `query`.

## Model

| member | source | states |
|---|---|---|
| `ManualMemory.Memory.constructor` | manual/memory.py:10-40 | each collection is the loaded file, or its empty default when the file is absent; working memory starts empty |
| `ManualMemory.Memory.AddFact` | manual/memory.py:47-57 | facts grow by exactly one fact with the given content and category, the earlier facts stay as they were, and the saved file is the new list; nothing else changes |
| `ManualMemory.Memory.AddProcedure` | manual/memory.py:59-71 | `procedures[name]` becomes the new procedure with usage count 0; other keys are untouched; the key count grows only when `name` is new |
| `ManualMemory.Memory.AddConversation` | manual/memory.py:73-88 | exactly one turn is appended and saved, then `User: …` (importance 1.0) and `Agent: …` (importance 0.9) are pushed into working memory, in that order |
| `ManualMemory.Memory.AddToWorkingMemory` | manual/memory.py:90-103 | working memory becomes `Pushed(old, item)`; the capacity bound is kept and the persistent stores are untouched |
| `ManualMemory.PushedBelowCapacity` | manual/memory.py:97-103 | below capacity the item is appended last and nothing else moves |
| `ManualMemory.PushedAtCapacity` | manual/memory.py:97-103 | on overflow exactly one item leaves: a minimum under `(importance, timestamp)`, the earliest such one in list order; the survivors are the rest as a multiset, sorted ascending |
| `ManualMemory.PushedBounded` | manual/memory.py:97-103 | at most ten items before a push means at most ten after |
| `Sorting.SortBy` | manual/memory.py:100-102 | the sort result is a permutation of its input |
| `Sorting.SortBySorted` | manual/memory.py:100-102 | the sort result is ordered by the key, for any total preorder key |
| `Sorting.SortByStable` | manual/memory.py:100-102 | the sort is stable: equivalent elements keep their relative order |
| `ManualMemory.SnapshotOrdered` | manual/memory.py:159-163 | the working-memory snapshot is sorted descending by `(importance, timestamp)` and holds the same items |
| `Ranking.MatchCount` | manual/memory.py:113 | a score counts query terms, duplicates included, so it is at most the number of terms, and it is zero exactly when no term is a substring of the text |
| `ManualMemory.Memory.SearchFacts` | manual/memory.py:105-119 | the loop returns `RankedFacts`: scored facts with a positive score, stably sorted by score descending, cut to `limit` |
| `ManualMemory.Memory.SearchConversations` | manual/memory.py:121-135 | the loop returns `RankedConversations`, the same ranking over `user_message + ' ' + agent_response` |
| `ManualMemory.RankedFactsMatch` | manual/memory.py:107-115 | every fact returned is stored and contains some lower-cased query term |
| `ManualMemory.RankedConversationsMatch` | manual/memory.py:123-131 | every turn returned is stored and contains some lower-cased query term |
| `Ranking.TopOrdered` | manual/memory.py:118-119 | results come in non-increasing score order |
| `Ranking.TopCount` | manual/memory.py:118-119 | a non-negative `limit` yields exactly `min(limit, number of matching items)` results |
| `Ranking.TopComplete` | manual/memory.py:114-119 | a matching item left out scores no higher than any result |
| `Ranking.TopStable` | manual/memory.py:118 | among results of equal score, insertion order is kept |
| `ManualMemory.BlankQueryFindsNothing` | manual/memory.py:105-135 | an empty or all-whitespace query returns `[]` from both searches |
| `ManualMemory.ProcedureSearch` | manual/memory.py:137-150 | the only list the search can return is `[]`; a match raises instead |
| `ManualMemory.Memory.SearchProcedures` | manual/memory.py:137-150 | the loop over the procedure map returns `ProcedureSearch`: `[]` when no text contains the raw query, otherwise the tuple `.get` error |
| `ManualMemory.UppercaseQueryFindsNoProcedure` | manual/memory.py:139-146 | a query containing an upper-case letter never matches the lower-cased text, so the search returns `[]` |
| `ManualMemory.EmptyQueryRaises` | manual/memory.py:142-149 | the empty query occurs in every text, so with any procedure stored the search raises |
| `ManualMemory.Recent` | manual/memory.py:152-154 | the last `min(count, len)` turns for a positive count, in chronological order; all turns for count 0 |
| `ManualMemory.Memory.GetRecentConversations` | manual/memory.py:152-154 | a suffix of the stored turns, of length `min(count, len)` for a positive count |
| `ManualMemory.TemplateStripped` | manual/memory.py:193-206 | with an empty procedures section, stripping the template removes only the blank lines after the last heading |
| `ManualMemory.ContextSections` | manual/memory.py:156-206 | the context exists exactly when no procedure text contains the message; it is then the four headed sections in fixed order (working memory, last three turns, top-3 facts, and an always-empty procedures section), trimmed |
| `ManualMemory.Memory.GenerateContext` | manual/memory.py:156-206 | returns `ContextOf` of the current stores; it reads the stores and changes nothing |
| `ManualAgent.StripAll` | manual/agent.py:45 | one step per comma-separated part; each step has no whitespace at its ends and is a slice of its part with only whitespace cut away on either side |
| `ManualAgent.PrefixesExclusive` | manual/agent.py:35-40 | no text starts with both teaching prefixes |
| `ManualAgent.CommandKinds` | manual/agent.py:33-48 | the fact prefix is tested first; the procedure prefix is tested second; a procedure command without `:` gets the usage reply; everything else is conversation; each of these holds in both directions |
| `ManualAgent.FactCommandRoundTrip` | manual/agent.py:35-37 | `remember that <fact>` teaches exactly `<fact>` when the fact has no surrounding blanks |
| `ManualAgent.ProcedureCommandShape` | manual/agent.py:43-45 | the name is the text between the prefix and the first colon, stripped; the steps are the comma-split remainder, each part stripped |
| `ManualAgent.StepsRoundTrip` | manual/agent.py:45 | `", "`-joined steps that hold no comma and no surrounding blanks split back into the same steps |
| `ManualAgent.ProcedureCommandRoundTrip` | manual/agent.py:40-46 | `remember the steps for <name>: <s1>, <s2>, …` teaches exactly that name and those steps |
| `ManualAgent.MemoryAgent.constructor` | manual/agent.py:13-31 | the loaded facts plus exactly the four seed facts; the other stores are as loaded |
| `ManualAgent.MemoryAgent.LearnFact` | manual/agent.py:82-84 | one fact is appended, and the reply is `I have learned the fact: <fact>` |
| `ManualAgent.MemoryAgent.LearnProcedure` | manual/agent.py:86-90 | the procedure is stored under its name, and the reply is `I have learned the procedure: <name>` |
| `ManualAgent.MemoryAgent.Query` | manual/agent.py:33-80 | teach commands change only facts or procedures and never build a context or call the model; the usage reply changes nothing; a conversational turn sends the context to the model and records exactly one turn, plus its two working-memory items, only when the model answers; a failure returns the error text and changes nothing; an exception from the context escapes and changes nothing |
| `SupportTools.PlaceholdersIgnoreBody` | langgraph/tools.py:6-18 | both placeholder tools confirm with the addressee, and their reply does not depend on the message body or the ticket details |
| `SupportTools.Put` | langgraph/tools.py:34 | dictionary assignment keeps the place of an existing key and puts a new key last |
| `SupportTools.Remove` | langgraph/tools.py:54 | `del` removes exactly that key; the other keys keep their insertion order, with the gap closed |
| `SupportTools.WithoutSplice` | langgraph/tools.py:54 | taking the key at position `i` out of a duplicate-free key order leaves the keys before and after it, in order |
| `SupportTools.MemoryId` | langgraph/tools.py:33 | an id is at most 12 characters long and starts with `mem_` |
| `SupportTools.ManageMemory` | langgraph/tools.py:23-61 | every action keeps the store well formed (keys distinct and in step with the entries) |
| `SupportTools.CreateStores` | langgraph/tools.py:32-40 | a create with content stores one entry under its id, with `created_at == updated_at`; the other entries and the order of the existing keys are kept |
| `SupportTools.CreateTwiceOverwrites` | langgraph/tools.py:32-40 | creating the same content again overwrites the same id |
| `SupportTools.UpdateExisting` | langgraph/tools.py:42-47 | an update of an existing id changes only that entry's content and `updated_at`; `created_at`, the other entries and the key order are unchanged |
| `SupportTools.MissingIdUnchanged` | langgraph/tools.py:42-59 | an update or delete of a missing id returns `Error: Memory <id> not found` and changes nothing |
| `SupportTools.DeleteExisting` | langgraph/tools.py:52-56 | a delete of an existing id removes exactly that key from the entries; the key order loses exactly that key, and the other keys keep their relative order |
| `SupportTools.OtherwiseFails` | langgraph/tools.py:32-61 | every other combination, including a create with empty content, returns `Memory operation failed. Check parameters.` and changes nothing |
| `SupportTools.MemoryDb.constructor` | langgraph/tools.py:20 | the dictionary starts empty |
| `SupportTools.MemoryDb.Manage` | langgraph/tools.py:23-61 | the in-place update of the dictionary and its reply equal `ManageMemory` on the old contents |
| `SupportTools.MemoryDb.Search` | langgraph/tools.py:64-103 | the loop returns `SearchResults` of the current contents; `offset` and `filter` have no effect and nothing is modified |
| `SupportTools.SearchRelevant` | langgraph/tools.py:73-91 | each result is a stored memory containing at least one lower-cased query term, with `0 < matched <= total` (a score in (0, 1]) |
| `SupportTools.SearchOrdered` | langgraph/tools.py:93-94 | results come by non-increasing score, and a non-negative `limit` bounds their number |
| `SupportTools.SearchComplete` | langgraph/tools.py:76-94 | a matching memory left out of the results matches no more terms than any result |
| `SupportTools.SearchBlankQuery` | langgraph/tools.py:74-94 | an empty or all-whitespace query returns `[]`, with no division by zero |
| `CustomerSimulation.LoginIssuesHoldsLoginIssue` | langgraph/simulation.py:33 | text holding `login issues` holds `login issue` |
| `CustomerSimulation.ClassifyFirstMatch` | langgraph/simulation.py:33-56 | the note is about a login issue exactly when one is mentioned; it is about billing only without a login issue; it is a feature note only without either; otherwise it is the general note |
| `CustomerSimulation.Note` | langgraph/simulation.py:33-56 | the note is never empty, so the create always stores it |
| `CustomerSimulation.NoteQuotesOnlyTheOpening` | langgraph/simulation.py:36-54 | the note embeds only the first 100 characters of the message |
| `CustomerSimulation.SubjectOnlyInGeneralNote` | langgraph/simulation.py:33-54 | the subject affects the note only when no keyword matched |
| `CustomerSimulation.HandleInquiry` | langgraph/simulation.py:7-66 | the store gains exactly the one note the create makes; the returned history is the given history (empty when none is given) plus exactly one entry holding the inquiry |
| `FitnessCoach.ExtractKeyInformation` | langmem/fitness_coach_agent.py:53-60 | the memory is `User shared: ` followed by exactly the message |
| `FitnessCoach.CleanedNotLonger` | langmem/fitness_coach_agent.py:62-80 | the cleaned reply is never longer than the reply |
| `FitnessCoach.UnmarkedOnlyStripped` | langmem/fitness_coach_agent.py:62-80 | a reply with none of the markers is only stripped |
| `FitnessCoach.NoColonUnmarked` | langmem/fitness_coach_agent.py:62-80 | every marker has a colon, so a reply without a colon is only stripped |
| `FitnessCoach.LeadingChain` | langmem/fitness_coach_agent.py:65-67 | on every reply: a reply opening with the k-th prefix loses it and is stripped (the earlier prefixes miss it), and only the later prefixes are then tried on what is left, so `RESPONSE: COACH: hi` loses both |
| `FitnessCoach.LeadingPassRemoves` | langmem/fitness_coach_agent.py:65-67 | when the text after the opening prefix has no colon, the first loop leaves exactly that text, stripped: no later prefix can fire, since every prefix has a colon |
| `FitnessCoach.LeadingMarkerRemoved` | langmem/fitness_coach_agent.py:62-80 | a reply opening with `RESPONSE:`, `USER RESPONSE:` or `COACH:` before colon-free text cleans to that text, stripped |
| `FitnessCoach.CutMemoryCuts` | langmem/fitness_coach_agent.py:70-78 | one pass removes the text from the marker's first occurrence through the next blank line, or truncates at the marker when no blank line follows; a reply without the marker is kept |
| `FitnessCoach.CutMemoryNote` | langmem/fitness_coach_agent.py:70-78 | a note between a marker and a blank line is cut out together with the marker |
| `FitnessCoach.StoreInMemoryLeavesPrefix` | langmem/fitness_coach_agent.py:70-78 | as written, a `STORE IN MEMORY:` note leaves `STORE IN ` behind |
| `FitnessCoach.StoreInMemoryMiscut` | langmem/fitness_coach_agent.py:70-78 | the as-written marker order and the longer-first order clean the same reply differently |
| `FitnessCoach.OrderedMarkersCutStoreNote` | langmem/fitness_coach_agent.py:70-78 | with the longer marker first, a `STORE IN MEMORY:` note is removed whole |
| `FitnessCoach.CleanResponse` | langmem/fitness_coach_agent.py:62-80 | the two loops compute `Cleaned` with the source's marker lists, and the result is never longer than the reply |

## Left out

- File I/O:
  - The JSON file reads and writes and `os.makedirs` are not modelled. A ghost copy of each collection stands for the saved file. A save cannot fail in the model.
  - A file holding malformed JSON is not modelled.
- Clock: `datetime.now()` is the parameter `now`. The ISO and `strftime` formats are not modelled, only their order.
- Floating point:
  - Working-memory importance is kept in integer tenths.
  - The `search_memory` score is kept as a `(matched, total)` pair, not as a float.
  - The `json.dumps` serialisation of the results is not modelled.
- `MemoryId`: Python's `hash` is an uninterpreted parameter. String hashing is not modelled, and neither is its per-process salt.
- The OpenAI client:
  - It is the parameter `complete`. The model name, `max_tokens` and `temperature` are not modelled.
  - A completion whose content is `None` is not modelled.
  - An exception raised by `add_conversation` inside the `try` is not modelled; in the model, storing never fails.
- `print` output is not modelled: the emoji traces, the error message and the per-result lines of `search_memory`.
- `ManualAgent.ParseCommand` follows Python only for ASCII. Unicode `lower()` (which can change length before the prefix slice) and Unicode whitespace are not modelled; `Lower` and `IsSpace` are the ASCII versions.
- `CustomerSimulation.HandleInquiry`:
  - It returns the new history as a value. The in-place `append` that the caller's list also sees is not modelled.
  - The search result it discards is still computed.
  - The if/elif chain is the function `Note` rather than four inline calls.
- The LangChain `@tool` wrappers and the `invoke` dictionaries are not modelled; each tool is a direct call.
- The agent graphs and everything else under langgraph/graph.py, mem0/ and the rest of langmem/fitness_coach_agent.py are not part of this model:
  - prompts and schemas;
  - demo drivers;
  - interactive loops;
  - Streamlit;
  - the LangMem and mem0 stores.

## Findings

| source | as written | input that shows it | evidently intended | confidence | as-written member | corrected member |
|---|---|---|---|---|---|---|
| langmem/fitness_coach_agent.py:70-78 | `MEMORY:` is looked for before `STORE IN MEMORY:`, and it matches inside it, so only the tail of the longer marker is cut | `"STORE IN MEMORY: x\n\nHi"` cleans to `"STORE IN Hi"` | the whole note goes, giving `"Hi"` | not executed | `FitnessCoach.StoreInMemoryMiscut` | `FitnessCoach.OrderedMarkersCutStoreNote` |

`CleanResponse` keeps the marker order as written. `Cleaned` with `OrderedMemoryMarkers` is the corrected definition.
