/**
 * `handle_inquiry` of langgraph/simulation.py: look the customer up in the
 * support memory, file one note about the inquiry chosen by a keyword rule,
 * and append the inquiry to the interaction history.
 */
module CustomerSimulation {
  import opened Wrappers
  import opened PyStr
  import opened SupportTools

  /** The `Inquiry` record of langgraph/schemas.py. */
  datatype Inquiry = Inquiry(author: string, to: string, subject: string, messageThread: string)

  datatype HistoryEntry = HistoryEntry(timestamp: nat, inquiry: Inquiry)

  /** The kind of note the keyword rule files. */
  datatype Topic = LoginIssue | Billing | FeatureRequest | General

  /** The keyword rule: the first test that matches the lower-cased message decides. */
  function Classify(message: string): Topic
  {
    var low := Lower(message);
    if Contains(low, "login issue") || Contains(low, "login issues") then LoginIssue
    else if Contains(low, "payment") || Contains(low, "billing") then Billing
    else if Contains(low, "feature") || Contains(low, "suggestion") then FeatureRequest
    else General
  }

  /** Text holding "login issues" holds "login issue", so the second test adds nothing. */
  lemma LoginIssuesHoldsLoginIssue(s: string)
    requires Contains(s, "login issues")
    ensures Contains(s, "login issue")
  {
    var i := IndexOf(s, "login issues").value;
    assert s[i..i + 12][..11] == s[i..i + 11];
    assert "login issues"[..11] == "login issue";
    ContainsAt(s, "login issue", i);
  }

  /**
   * Which note is filed: a login issue whenever one is mentioned, whatever
   * else the message says; billing only without a login issue; a feature
   * request only without either; a general note otherwise.
   */
  lemma ClassifyFirstMatch(message: string)
    ensures var low := Lower(message);
            && (Classify(message) == LoginIssue <==> Contains(low, "login issue"))
            && (Classify(message) == Billing <==>
                  !Contains(low, "login issue") && (Contains(low, "payment") || Contains(low, "billing")))
            && (Classify(message) == FeatureRequest <==>
                  !Contains(low, "login issue") && !Contains(low, "payment") && !Contains(low, "billing")
                  && (Contains(low, "feature") || Contains(low, "suggestion")))
  {
    var low := Lower(message);
    if Contains(low, "login issues") {
      LoginIssuesHoldsLoginIssue(low);
    }
  }

  /** What the note says before the message excerpt. */
  function NoteHead(topic: Topic, inquiry: Inquiry): string
  {
    match topic
    case LoginIssue => "Customer " + inquiry.author + " reported login issues with the mobile app: "
    case Billing => "Customer " + inquiry.author + " had billing/payment question: "
    case FeatureRequest => "Customer " + inquiry.author + " suggested new feature: "
    case General => "Interaction with " + inquiry.author + " about " + inquiry.subject + ": "
  }

  /** The content of the memory `handle_inquiry` creates. */
  function Note(inquiry: Inquiry): (r: string)
    ensures r != []
  {
    NoteHead(Classify(inquiry.messageThread), inquiry) + Take(inquiry.messageThread, 100) + "..."
  }

  /** The note quotes at most the first 100 characters of the message. */
  lemma NoteQuotesOnlyTheOpening(i1: Inquiry, i2: Inquiry)
    requires i1.author == i2.author && i1.subject == i2.subject
    requires Classify(i1.messageThread) == Classify(i2.messageThread)
    requires |i1.messageThread| >= 100 && |i2.messageThread| >= 100
    requires i1.messageThread[..100] == i2.messageThread[..100]
    ensures Note(i1) == Note(i2)
    ensures |Note(i1)| == |NoteHead(Classify(i1.messageThread), i1)| + 103
  {
  }

  /** The subject reaches the note only when no keyword matched. */
  lemma SubjectOnlyInGeneralNote(inquiry: Inquiry, subject: string)
    requires Classify(inquiry.messageThread) != General
    ensures Note(inquiry.(subject := subject)) == Note(inquiry)
  {
  }

  /**
   * Handles one inquiry against the support memory `db`: the search for the
   * customer only reads the memory, exactly one note is created, and the
   * history (a new one when none is given) gains exactly one entry.
   */
  method HandleInquiry(db: MemoryDb, inquiry: Inquiry, history: Option<seq<HistoryEntry>>, now: nat)
    returns (updated: seq<HistoryEntry>)
    requires db.Valid()
    modifies db
    ensures db.Valid()
    ensures db.Contents() == ManageMemory(old(db.Contents()), db.hash, Some(Note(inquiry)), "create", None, now).store
    ensures db.records == old(db.records)[MemoryId(db.hash, Note(inquiry)) := MemoryRecord(Note(inquiry), now, now)]
    ensures updated == LoadOr(history, []) + [HistoryEntry(now, inquiry)]
  {
    var log := if history.None? then [] else history.value;
    var email := inquiry.author;
    var context := db.Search(email, 10, 0, None);
    // The if/elif chain on the lower-cased message picks the note.
    var content := Note(inquiry);
    var reply := db.Manage(Some(content), "create", None, now);
    updated := log + [HistoryEntry(now, inquiry)];
  }
}
