/**
 * The customer-support tools of langgraph/tools.py: a dictionary of
 * memories `MEMORY_DB` that `manage_memory` creates, updates and deletes
 * entries in, a term-overlap `search_memory` over it, and two placeholder
 * tools that only format a confirmation.
 *
 * The dictionary is the pair of its entries and its key order (Python
 * dictionaries iterate in insertion order, which `search_memory` inherits
 * for ties). Python's `hash` is the uninterpreted function `hash` of the
 * store; timestamps are a caller-supplied `now`.
 */
module SupportTools {
  import opened Wrappers
  import opened PyStr
  import opened Sorting
  import opened Ranking

  function SendResponse(to: string, subject: string, content: string): (r: string)
  {
    "Response sent to " + to + " with subject \"" + subject + "\""
  }

  function CreateSupportTicket(customerName: string, issueType: string, description: string, priority: string): (r: string)
  {
    "Support ticket created for " + customerName + " with priority " + priority
  }

  /** The placeholders confirm with the addressee and never look at the body. */
  lemma PlaceholdersIgnoreBody(to: string, subject: string, c1: string, c2: string,
                               name: string, t1: string, t2: string, d1: string, d2: string, priority: string)
    ensures SendResponse(to, subject, c1) == SendResponse(to, subject, c2)
    ensures CreateSupportTicket(name, t1, d1, priority) == CreateSupportTicket(name, t2, d2, priority)
    ensures StartsWith(SendResponse(to, subject, c1), "Response sent to " + to)
  {
    assert SendResponse(to, subject, c1) == ("Response sent to " + to) + (" with subject \"" + subject + "\"");
  }

  datatype MemoryRecord = MemoryRecord(content: string, createdAt: nat, updatedAt: nat)

  predicate Distinct(ids: seq<string>) {
    forall i, j :: 0 <= i < j < |ids| ==> ids[i] != ids[j]
  }

  /** `MEMORY_DB`: its entries and the order its keys were first inserted in. */
  datatype Store = Store(records: map<string, MemoryRecord>, order: seq<string>)

  ghost predicate WellFormed(s: Store) {
    Distinct(s.order) && forall id :: id in s.records <==> id in s.order
  }

  /** `db[id] = record`: an existing key keeps its place, a new one goes last. */
  function Put(s: Store, id: string, record: MemoryRecord): (r: Store)
    requires WellFormed(s)
    ensures WellFormed(r)
    ensures r.records == s.records[id := record]
    ensures id in s.records ==> r.order == s.order
    ensures id !in s.records ==> r.order == s.order + [id]
  {
    if id in s.records then Store(s.records[id := record], s.order)
    else Store(s.records[id := record], s.order + [id])
  }

  /** The key order with one key taken out. */
  function Without(ids: seq<string>, id: string): (r: seq<string>)
    ensures forall x :: x in r <==> x in ids && x != id
    ensures multiset(r) == multiset(ids)[id := 0]
  {
    if ids == [] then []
    else
      var rest := Without(ids[1..], id);
      var head := if ids[0] == id then [] else [ids[0]];
      assert ids == [ids[0]] + ids[1..];
      assert multiset(ids) == multiset{ids[0]} + multiset(ids[1..]);
      head + rest
  }

  lemma {:induction false} WithoutDistinct(ids: seq<string>, id: string)
    requires Distinct(ids)
    ensures Distinct(Without(ids, id))
  {
    if ids != [] {
      assert ids == [ids[0]] + ids[1..];
      assert Distinct(ids[1..]);
      WithoutDistinct(ids[1..], id);
      assert ids[0] !in Without(ids[1..], id);
    }
  }

  /** Taking out a key that is not there leaves the order as it is. */
  lemma {:induction false} WithoutAbsent(ids: seq<string>, id: string)
    requires id !in ids
    ensures Without(ids, id) == ids
  {
    if ids != [] {
      WithoutAbsent(ids[1..], id);
      assert ids == [ids[0]] + ids[1..];
    }
  }

  /** Taking out the key at `i` closes the gap: the other keys keep their order. */
  lemma {:induction false} WithoutSplice(ids: seq<string>, id: string, i: nat)
    requires Distinct(ids) && i < |ids| && ids[i] == id
    ensures Without(ids, id) == ids[..i] + ids[i + 1..]
  {
    if i == 0 {
      assert id !in ids[1..] by {
        forall j | 0 <= j < |ids[1..]| ensures ids[1..][j] != id {
          assert ids[1..][j] == ids[j + 1];
        }
      }
      WithoutAbsent(ids[1..], id);
    } else {
      assert Distinct(ids[1..]) by {
        forall a, b | 0 <= a < b < |ids[1..]| ensures ids[1..][a] != ids[1..][b] {
          assert ids[1..][a] == ids[a + 1] && ids[1..][b] == ids[b + 1];
        }
      }
      WithoutSplice(ids[1..], id, i - 1);
      assert ids[1..][..i - 1] + ids[1..][i..] == ids[1..i] + ids[i + 1..];
      assert ids[..i] == [ids[0]] + ids[1..i];
    }
  }

  /** `del db[id]` */
  function Remove(s: Store, id: string): (r: Store)
    requires WellFormed(s)
    ensures WellFormed(r)
    ensures r.records == s.records - {id}
    ensures r.order == Without(s.order, id)
    ensures forall i :: 0 <= i < |s.order| && s.order[i] == id ==> r.order == s.order[..i] + s.order[i + 1..]
  {
    assert forall i :: 0 <= i < |s.order| && s.order[i] == id ==> Without(s.order, id) == s.order[..i] + s.order[i + 1..] by {
      forall i | 0 <= i < |s.order| && s.order[i] == id
        ensures Without(s.order, id) == s.order[..i] + s.order[i + 1..]
      {
        WithoutSplice(s.order, id, i);
      }
    }
    WithoutDistinct(s.order, id);
    Store(s.records - {id}, Without(s.order, id))
  }

  /** Python truthiness of an optional string: present and non-empty. */
  predicate Given(o: Option<string>) {
    o.Some? && o.value != []
  }

  function Abs(n: int): nat {
    if n < 0 then -n else n
  }

  /** `f'mem_{abs(hash(content))}'[:12]` */
  function MemoryId(hash: string -> int, content: string): (id: string)
    ensures |id| <= 12 && StartsWith(id, "mem_")
  {
    var full := "mem_" + NatToString(Abs(hash(content)));
    assert full[..4] == "mem_";
    Take(full, 12)
  }

  const FailedReply := "Memory operation failed. Check parameters."

  function NotFoundReply(id: string): string {
    "Error: Memory " + id + " not found"
  }

  datatype Outcome = Outcome(store: Store, reply: string)

  /** `manage_memory(content, action, id)` on the store `s` at time `now`. */
  function ManageMemory(s: Store, hash: string -> int, content: Option<string>, action: string,
                        id: Option<string>, now: nat): (r: Outcome)
    requires WellFormed(s)
    ensures WellFormed(r.store)
  {
    if action == "create" && Given(content) then
      var key := MemoryId(hash, content.value);
      Outcome(Put(s, key, MemoryRecord(content.value, now, now)), "created memory " + key)
    else if action == "update" && Given(id) && Given(content) then
      if id.value in s.records then
        var prior := s.records[id.value];
        Outcome(Put(s, id.value, MemoryRecord(content.value, prior.createdAt, now)), "updated memory " + id.value)
      else Outcome(s, NotFoundReply(id.value))
    else if action == "delete" && Given(id) then
      if id.value in s.records then Outcome(Remove(s, id.value), "deleted memory " + id.value)
      else Outcome(s, NotFoundReply(id.value))
    else Outcome(s, FailedReply)
  }

  /**
   * A create with content stores one entry under the content's id, created
   * and updated at the same time; every other entry and the order of the
   * existing keys are kept.
   */
  lemma CreateStores(s: Store, hash: string -> int, content: string, id: Option<string>, now: nat)
    requires WellFormed(s) && content != []
    ensures var r := ManageMemory(s, hash, Some(content), "create", id, now);
            var key := MemoryId(hash, content);
            && r.reply == "created memory " + key
            && r.store.records == s.records[key := MemoryRecord(content, now, now)]
            && |r.store.order| == |s.order| + (if key in s.records then 0 else 1)
            && r.store.order[..|s.order|] == s.order
  {
  }

  /** Creating the same content again overwrites the entry the first create made. */
  lemma CreateTwiceOverwrites(s: Store, hash: string -> int, content: string, now1: nat, now2: nat)
    requires WellFormed(s) && content != []
    ensures var once := ManageMemory(s, hash, Some(content), "create", None, now1).store;
            ManageMemory(once, hash, Some(content), "create", None, now2).store
            == ManageMemory(s, hash, Some(content), "create", None, now2).store
  {
    var key := MemoryId(hash, content);
    var once := ManageMemory(s, hash, Some(content), "create", None, now1).store;
    assert key in once.records;
    assert once.records[key := MemoryRecord(content, now2, now2)] == s.records[key := MemoryRecord(content, now2, now2)];
  }

  /** An update of an existing id changes only that entry's content and update time. */
  lemma UpdateExisting(s: Store, hash: string -> int, content: string, id: string, now: nat)
    requires WellFormed(s) && content != [] && id != [] && id in s.records
    ensures var r := ManageMemory(s, hash, Some(content), "update", Some(id), now);
            && r.reply == "updated memory " + id
            && r.store.order == s.order
            && r.store.records.Keys == s.records.Keys
            && r.store.records[id] == MemoryRecord(content, s.records[id].createdAt, now)
            && forall other :: other in s.records && other != id ==> r.store.records[other] == s.records[other]
  {
  }

  /** An update or delete of an id that is not stored reports it and changes nothing. */
  lemma MissingIdUnchanged(s: Store, hash: string -> int, content: Option<string>, action: string, id: string, now: nat)
    requires WellFormed(s) && id != [] && id !in s.records
    requires (action == "update" && Given(content)) || action == "delete"
    requires !(action == "create" && Given(content))
    ensures ManageMemory(s, hash, content, action, Some(id), now) == Outcome(s, NotFoundReply(id))
  {
  }

  /** A delete of an existing id removes exactly that key and keeps the others in order. */
  lemma DeleteExisting(s: Store, hash: string -> int, id: string, now: nat)
    requires WellFormed(s) && id != [] && id in s.records
    ensures var r := ManageMemory(s, hash, None, "delete", Some(id), now);
            && r.reply == "deleted memory " + id
            && r.store.records == s.records - {id}
            && |r.store.order| == |s.order| - 1
            && multiset(r.store.order) == multiset(s.order)[id := 0]
            && forall i :: 0 <= i < |s.order| && s.order[i] == id ==> r.store.order == s.order[..i] + s.order[i + 1..]
  {
    var r := ManageMemory(s, hash, None, "delete", Some(id), now);
    assert multiset(s.order)[id] == 1 by {
      DistinctCount(s.order, id);
    }
    assert |multiset(r.store.order)| == |multiset(s.order)| - 1;
  }

  /** A key occurs once in a key order without duplicates. */
  lemma {:induction false} DistinctCount(ids: seq<string>, id: string)
    requires Distinct(ids) && id in ids
    ensures multiset(ids)[id] == 1
  {
    assert ids == [ids[0]] + ids[1..];
    if ids[0] == id {
      assert id !in ids[1..];
    } else {
      DistinctCount(ids[1..], id);
    }
  }

  /**
   * Every other combination of action and arguments, a create without
   * content among them, reports failure and changes nothing.
   */
  lemma OtherwiseFails(s: Store, hash: string -> int, content: Option<string>, action: string, id: Option<string>, now: nat)
    requires WellFormed(s)
    requires !(action == "create" && Given(content))
    requires !(action == "update" && Given(id) && Given(content))
    requires !(action == "delete" && Given(id))
    ensures ManageMemory(s, hash, content, action, id, now) == Outcome(s, FailedReply)
  {
  }

  /** One result of `search_memory`; its score is `matched / total`. */
  datatype SearchHit = SearchHit(id: string, content: string, createdAt: nat, updatedAt: nat, matched: nat, total: nat)

  function Hit(id: string, record: MemoryRecord, terms: seq<string>): Scored<SearchHit>
  {
    var matched := MatchCount(terms, Lower(record.content));
    Scored(SearchHit(id, record.content, record.createdAt, record.updatedAt, matched, |terms|), matched)
  }

  function HitScores(records: map<string, MemoryRecord>, ids: seq<string>, terms: seq<string>): (r: seq<Scored<SearchHit>>)
    requires forall k :: 0 <= k < |ids| ==> ids[k] in records
    ensures |r| == |ids|
    ensures forall k :: 0 <= k < |ids| ==> r[k] == Hit(ids[k], records[ids[k]], terms)
  {
    seq(|ids|, k requires 0 <= k < |ids| => Hit(ids[k], records[ids[k]], terms))
  }

  lemma HitScoresSnoc(records: map<string, MemoryRecord>, ids: seq<string>, i: nat, terms: seq<string>)
    requires i < |ids| && forall k :: 0 <= k < |ids| ==> ids[k] in records
    ensures HitScores(records, ids[..i + 1], terms) == HitScores(records, ids[..i], terms) + [Hit(ids[i], records[ids[i]], terms)]
  {
  }

  /** What a scored candidate of the search carries. */
  lemma HitFacts(s: Store, terms: seq<string>, x: Scored<SearchHit>)
    requires WellFormed(s) && x in HitScores(s.records, s.order, terms)
    ensures x.item.id in s.records && x.item.content == s.records[x.item.id].content
    ensures x.score == x.item.matched <= x.item.total == |terms|
    ensures x.score > 0 ==> exists t :: 0 <= t < |terms| && Contains(Lower(x.item.content), terms[t])
  {
    var scored := HitScores(s.records, s.order, terms);
    var j :| 0 <= j < |scored| && scored[j] == x;
    assert x == Hit(s.order[j], s.records[s.order[j]], terms);
  }

  /** The results of `search_memory(query, limit)`. */
  function SearchResults(s: Store, query: string, limit: int): seq<SearchHit>
    requires WellFormed(s)
  {
    Items(Top(HitScores(s.records, s.order, Words(Lower(query))), limit))
  }

  /**
   * Each result is a stored memory holding at least one query term; its
   * score `matched / total` lies in (0, 1], so the division is never by zero.
   */
  lemma SearchRelevant(s: Store, query: string, limit: int)
    requires WellFormed(s)
    ensures var terms := Words(Lower(query));
            var r := SearchResults(s, query, limit);
            forall k :: 0 <= k < |r| ==>
              && r[k].id in s.records
              && r[k].content == s.records[r[k].id].content
              && 0 < r[k].matched <= r[k].total == |terms|
              && exists t :: 0 <= t < |terms| && Contains(Lower(r[k].content), terms[t])
  {
    var terms := Words(Lower(query));
    var scored := HitScores(s.records, s.order, terms);
    var top := Top(scored, limit);
    TopMatches(scored, limit);
    forall k | 0 <= k < |top|
      ensures top[k].item.id in s.records && top[k].item.content == s.records[top[k].item.id].content
      ensures 0 < top[k].item.matched <= top[k].item.total == |terms|
      ensures exists t :: 0 <= t < |terms| && Contains(Lower(top[k].item.content), terms[t])
    {
      HitFacts(s, terms, top[k]);
    }
  }

  /** Results come by non-increasing score, and at most `limit` of them. */
  lemma SearchOrdered(s: Store, query: string, limit: int)
    requires WellFormed(s)
    ensures var r := SearchResults(s, query, limit);
            && (0 <= limit ==> |r| <= limit)
            && forall i, j :: 0 <= i < j < |r| ==> r[i].matched >= r[j].matched && r[i].total == r[j].total
  {
    var terms := Words(Lower(query));
    var scored := HitScores(s.records, s.order, terms);
    var top := Top(scored, limit);
    TopOrdered(scored, limit);
    TopMatches(scored, limit);
    forall k | 0 <= k < |top| ensures top[k].score == top[k].item.matched && top[k].item.total == |terms| {
      HitFacts(s, terms, top[k]);
    }
  }

  /** A memory left out of the results matches no more terms than any result. */
  lemma SearchComplete(s: Store, query: string, limit: int, id: string)
    requires WellFormed(s) && id in s.records
    requires Hit(id, s.records[id], Words(Lower(query))).score > 0
    ensures var r := SearchResults(s, query, limit);
            var h := Hit(id, s.records[id], Words(Lower(query))).item;
            h in r || forall k :: 0 <= k < |r| ==> r[k].matched >= h.matched
  {
    var terms := Words(Lower(query));
    var x := Hit(id, s.records[id], terms);
    HitScored(s, terms, id);
    HitsComplete(s, terms, limit, x);
  }

  lemma HitScored(s: Store, terms: seq<string>, id: string)
    requires WellFormed(s) && id in s.records
    ensures Hit(id, s.records[id], terms) in HitScores(s.records, s.order, terms)
  {
    var j :| 0 <= j < |s.order| && s.order[j] == id;
    assert HitScores(s.records, s.order, terms)[j] == Hit(id, s.records[id], terms);
  }

  /** A positive candidate left out of the ranking matches no more terms than any result. */
  lemma HitsComplete(s: Store, terms: seq<string>, limit: int, x: Scored<SearchHit>)
    requires WellFormed(s) && x in HitScores(s.records, s.order, terms) && x.score > 0
    ensures var r := Items(Top(HitScores(s.records, s.order, terms), limit));
            x.item in r || forall k :: 0 <= k < |r| ==> r[k].matched >= x.item.matched
  {
    var scored := HitScores(s.records, s.order, terms);
    var top := Top(scored, limit);
    var r := Items(top);
    HitFacts(s, terms, x);
    TopItemsComplete(scored, limit, x);
    if x.item !in r {
      TopHitScores(s, terms, limit);
      forall k | 0 <= k < |r| ensures r[k].matched >= x.item.matched {
        assert r[k].matched == top[k].score;
      }
    }
  }

  /** The score a result is ranked by is its matched-term count. */
  lemma TopHitScores(s: Store, terms: seq<string>, limit: int)
    requires WellFormed(s)
    ensures var top := Top(HitScores(s.records, s.order, terms), limit);
            forall k :: 0 <= k < |top| ==> Items(top)[k].matched == top[k].score && top[k].item.total == |terms|
  {
    var scored := HitScores(s.records, s.order, terms);
    var top := Top(scored, limit);
    TopMatches(scored, limit);
    forall k | 0 <= k < |top| ensures Items(top)[k].matched == top[k].score && top[k].item.total == |terms| {
      HitFacts(s, terms, top[k]);
    }
  }

  /** A query with no terms finds nothing. */
  lemma SearchBlankQuery(s: Store, query: string, limit: int)
    requires WellFormed(s)
    requires forall i :: 0 <= i < |query| ==> IsSpace(query[i])
    ensures SearchResults(s, query, limit) == []
  {
    var low := Lower(query);
    forall i | 0 <= i < |low| ensures IsSpace(low[i]) {
      assert low[i] == LowerChar(query[i]);
    }
    WordsEmpty(low);
    TopNoMatch(HitScores(s.records, s.order, Words(low)), limit);
  }

  /** `MEMORY_DB` with the hash function its ids are made with. */
  class MemoryDb {
    const hash: string -> int
    var records: map<string, MemoryRecord>
    var order: seq<string>

    function Contents(): Store
      reads this
    {
      Store(records, order)
    }

    ghost predicate Valid()
      reads this
    {
      WellFormed(Contents())
    }

    constructor (hash: string -> int)
      ensures Valid() && this.hash == hash
      ensures records == map[] && order == []
    {
      this.hash := hash;
      records := map[];
      order := [];
    }

    method Manage(content: Option<string>, action: string, id: Option<string>, now: nat) returns (reply: string)
      requires Valid()
      modifies this
      ensures Valid()
      ensures Contents() == ManageMemory(old(Contents()), hash, content, action, id, now).store
      ensures reply == ManageMemory(old(Contents()), hash, content, action, id, now).reply
    {
      if action == "create" && Given(content) {
        var key := MemoryId(hash, content.value);
        if key !in records {
          order := order + [key];
        }
        records := records[key := MemoryRecord(content.value, now, now)];
        return "created memory " + key;
      } else if action == "update" && Given(id) && Given(content) {
        if id.value in records {
          records := records[id.value := records[id.value].(content := content.value, updatedAt := now)];
          return "updated memory " + id.value;
        } else {
          return NotFoundReply(id.value);
        }
      } else if action == "delete" && Given(id) {
        if id.value in records {
          WithoutDistinct(order, id.value);
          records := records - {id.value};
          order := Without(order, id.value);
          return "deleted memory " + id.value;
        } else {
          return NotFoundReply(id.value);
        }
      }
      return FailedReply;
    }

    /** `search_memory`: reads the store only; `offset` and `filter` are accepted and ignored. */
    method Search(query: string, limit: int, offset: int, filter: Option<map<string, string>>) returns (r: seq<SearchHit>)
      requires Valid()
      ensures r == SearchResults(Contents(), query, limit)
    {
      var terms := Words(Lower(query));
      var results: seq<Scored<SearchHit>> := [];
      var i := 0;
      while i < |order|
        invariant 0 <= i <= |order|
        invariant results == Positive(HitScores(records, order[..i], terms))
      {
        var id := order[i];
        var matched := MatchCount(terms, Lower(records[id].content));
        HitScoresSnoc(records, order, i, terms);
        PositiveSnoc(HitScores(records, order[..i], terms), Hit(id, records[id], terms));
        if matched > 0 {
          var record := records[id];
          var hit := Scored(SearchHit(id, record.content, record.createdAt, record.updatedAt, matched, |terms|), matched);
          assert hit == Hit(id, records[id], terms);
          results := results + [hit];
        }
        i := i + 1;
      }
      assert order[..i] == order;
      results := SortBy(results, ScoreGe);
      r := Items(Take(results, limit));
    }
  }
}
