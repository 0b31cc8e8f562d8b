/**
 * The two text helpers of the fitness coach in langmem/fitness_coach_agent.py:
 * `extract_key_information`, which words a user message as a memory, and
 * `clean_response`, which takes formatting markers and memory notes out of
 * a model reply.
 */
module FitnessCoach {
  import opened Wrappers
  import opened PyStr

  const SharedPrefix := "User shared: "

  /** `extract_key_information`: the message behind a fixed label, recoverable by cutting the label. */
  function ExtractKeyInformation(userMessage: string): (memory: string)
    ensures |memory| == |SharedPrefix| + |userMessage|
    ensures StartsWith(memory, SharedPrefix) && memory[|SharedPrefix|..] == userMessage
  {
    SharedPrefix + userMessage
  }

  /** Reply prefixes removed, tested in this order. */
  const LeadingMarkers: seq<string> := ["RESPONSE:", "USER RESPONSE:", "COACH:"]

  /** Memory-note markers, handled in this order. */
  const MemoryMarkers: seq<Marker> := ["MEMORY:", "STORE IN MEMORY:", "REMEMBER:"]

  /**
   * The memory markers with the longer marker first, so that its first
   * occurrence is not taken for an occurrence of the shorter one it ends with.
   */
  const OrderedMemoryMarkers: seq<Marker> := ["STORE IN MEMORY:", "MEMORY:", "REMEMBER:"]

  /** A memory marker: `str.split` refuses the empty separator. */
  type Marker = m: string | m != [] witness ":"

  /** One pass of the first loop: a reply starting with `marker` loses it and is stripped. */
  function DropLeading(response: string, marker: string): (r: string)
    ensures |r| <= |response|
  {
    if StartsWith(response, marker) then Strip(response[|marker|..]) else response
  }

  /**
   * One pass of the second loop: the first occurrence of `marker` is cut
   * out together with the text after it up to and including the next blank
   * line, or the reply is cut at the marker when no blank line follows.
   */
  function CutMemory(response: string, marker: Marker): (r: string)
    ensures |r| <= |response|
  {
    if Contains(response, marker) then
      var parts := SplitOnce(response, marker);
      var second := SplitOnce(parts[1], "\n\n");
      assert |parts[0] + marker + parts[1]| == |response|;
      if |second| > 1 then
        assert |second[0] + "\n\n" + second[1]| == |parts[1]|;
        parts[0] + second[1]
      else parts[0]
    else response
  }

  /**
   * One pass in terms of positions: with the marker first found at `i`,
   * the text from `i` through the first blank line after the marker goes,
   * or everything from `i` on when no blank line follows; a reply without
   * the marker is kept.
   */
  lemma CutMemoryCuts(response: string, marker: Marker)
    ensures IndexOf(response, marker).None? ==> CutMemory(response, marker) == response
    ensures IndexOf(response, marker).Some? ==>
            var i := IndexOf(response, marker).value;
            var after := response[i + |marker|..];
            && (IndexOf(after, "\n\n").None? ==> CutMemory(response, marker) == response[..i])
            && (IndexOf(after, "\n\n").Some? ==>
                  CutMemory(response, marker) == response[..i] + after[IndexOf(after, "\n\n").value + 2..])
  {
    if Contains(response, marker) {
      var parts := SplitOnce(response, marker);
      var i := |parts[0]|;
      assert parts[0] == response[..i];
      assert parts[1] == response[i + |marker|..];
      var second := SplitOnce(parts[1], "\n\n");
      if |second| > 1 {
        var j := |second[0]|;
        assert second[1] == parts[1][j + 2..];
      }
    }
  }

  /** The first loop over `markers`. */
  function DropLeadingAll(response: string, markers: seq<string>): (r: string)
    ensures |r| <= |response|
  {
    if markers == [] then response
    else DropLeading(DropLeadingAll(response, markers[..|markers| - 1]), markers[|markers| - 1])
  }

  /** The second loop over `markers`. */
  function CutMemoryAll(response: string, markers: seq<Marker>): (r: string)
    ensures |r| <= |response|
  {
    if markers == [] then response
    else CutMemory(CutMemoryAll(response, markers[..|markers| - 1]), markers[|markers| - 1])
  }

  /** `clean_response` with the given marker lists. */
  function Cleaned(response: string, leading: seq<string>, memory: seq<Marker>): (r: string)
  {
    Strip(CutMemoryAll(DropLeadingAll(response, leading), memory))
  }

  /** The cleaned reply is never longer than the reply. */
  lemma CleanedNotLonger(response: string, leading: seq<string>, memory: seq<Marker>)
    ensures |Cleaned(response, leading, memory)| <= |response|
  {
  }

  /** Neither loop changes a reply that has none of their markers. */
  lemma {:induction false} DropLeadingAllUnmarked(response: string, markers: seq<string>)
    requires forall k :: 0 <= k < |markers| ==> !StartsWith(response, markers[k])
    ensures DropLeadingAll(response, markers) == response
  {
    if markers != [] {
      DropLeadingAllUnmarked(response, markers[..|markers| - 1]);
    }
  }

  lemma {:induction false} CutMemoryAllUnmarked(response: string, markers: seq<Marker>)
    requires forall k :: 0 <= k < |markers| ==> !Contains(response, markers[k])
    ensures CutMemoryAll(response, markers) == response
  {
    if markers != [] {
      CutMemoryAllUnmarked(response, markers[..|markers| - 1]);
    }
  }

  /** A reply without any marker is only stripped. */
  lemma UnmarkedOnlyStripped(response: string, leading: seq<string>, memory: seq<Marker>)
    requires forall k :: 0 <= k < |leading| ==> !StartsWith(response, leading[k])
    requires forall k :: 0 <= k < |memory| ==> !Contains(response, memory[k])
    ensures Cleaned(response, leading, memory) == Strip(response)
  {
    DropLeadingAllUnmarked(response, leading);
    CutMemoryAllUnmarked(response, memory);
  }

  /** Text without a colon holds no marker, since every marker has one. */
  lemma NoColonNoMarker(s: string, marker: string)
    requires ':' !in s && ':' in marker
    ensures !Contains(s, marker) && !StartsWith(s, marker)
  {
    var c :| 0 <= c < |marker| && marker[c] == ':';
    forall i | 0 <= i ensures !Occurs(s, marker, i) {
      if i + |marker| <= |s| {
        assert s[i..i + |marker|][c] == s[i + c];
      }
    }
    if |marker| <= |s| {
      assert s[..|marker|][c] == s[c];
    }
  }

  /** Every marker of a list has a colon, so colon-free text escapes both loops. */
  lemma NoColonUnmarked(s: string, leading: seq<string>, memory: seq<Marker>)
    requires ':' !in s
    requires forall k :: 0 <= k < |leading| ==> ':' in leading[k]
    requires forall k :: 0 <= k < |memory| ==> ':' in memory[k]
    ensures Cleaned(s, leading, memory) == Strip(s)
  {
    forall k | 0 <= k < |leading| ensures !StartsWith(s, leading[k]) {
      NoColonNoMarker(s, leading[k]);
    }
    forall k | 0 <= k < |memory| ensures !Contains(s, memory[k]) {
      NoColonNoMarker(s, memory[k]);
    }
    UnmarkedOnlyStripped(s, leading, memory);
  }

  lemma MarkersHaveColons()
    ensures forall k :: 0 <= k < |LeadingMarkers| ==> ':' in LeadingMarkers[k]
    ensures forall k :: 0 <= k < |MemoryMarkers| ==> ':' in MemoryMarkers[k]
    ensures forall k :: 0 <= k < |OrderedMemoryMarkers| ==> ':' in OrderedMemoryMarkers[k]
  {
    assert LeadingMarkers[0][8] == ':' && LeadingMarkers[1][13] == ':' && LeadingMarkers[2][5] == ':';
    assert MemoryMarkers[0][6] == ':' && MemoryMarkers[1][15] == ':' && MemoryMarkers[2][8] == ':';
  }

  /** A marker whose only colon is its last character. */
  predicate ColonLast(marker: string) {
    marker != [] && marker[|marker| - 1] == ':' && ':' !in marker[..|marker| - 1]
  }

  /** The first occurrence of such a marker after colon-free text is the one right after it. */
  lemma SplitAtMarker(p: string, marker: string, rest: string)
    requires ':' !in p && ColonLast(marker)
    ensures SplitOnce(p + marker + rest, marker) == [p, rest]
  {
    var s := p + marker + rest;
    var n := |marker|;
    assert s[|p|..|p| + n] == marker;
    assert Occurs(s, marker, |p|);
    forall j | 0 <= j < |p| ensures !Occurs(s, marker, j) {
      if j + n <= |s| {
        var q := j + n - 1;
        if q < |p| {
          assert s[q] == p[q];
        } else {
          assert s[q] == marker[..n - 1][q - |p|];
        }
        assert s[j..j + n][n - 1] == s[q];
      }
    }
    var parts := SplitOnce(s, marker);
    assert IndexOf(s, marker) == Some(|p|);
    assert parts[0] == (parts[0] + marker + parts[1])[..|p|];
    assert parts[1] == (parts[0] + marker + parts[1])[|p| + n..];
  }

  /** The first blank line after line-free text is the one right after it. */
  lemma SplitAtBlankLine(note: string, tail: string)
    requires '\n' !in note
    ensures SplitOnce(note + "\n\n" + tail, "\n\n") == [note, tail]
  {
    var s := note + "\n\n" + tail;
    assert s[|note|..|note| + 2] == "\n\n";
    assert Occurs(s, "\n\n", |note|);
    forall j | 0 <= j < |note| ensures !Occurs(s, "\n\n", j) {
      assert s[j] == note[j];
      if j + 2 <= |s| {
        assert s[j..j + 2][0] == s[j];
      }
    }
    var parts := SplitOnce(s, "\n\n");
    assert IndexOf(s, "\n\n") == Some(|note|);
    assert parts[0] == (parts[0] + "\n\n" + parts[1])[..|note|];
    assert parts[1] == (parts[0] + "\n\n" + parts[1])[|note| + 2..];
  }

  /** A note between a marker and a blank line is cut out with the marker. */
  lemma CutMemoryNote(p: string, marker: string, note: string, tail: string)
    requires ':' !in p && ColonLast(marker) && '\n' !in note
    ensures CutMemory(p + marker + note + "\n\n" + tail, marker) == p + tail
  {
    var s := p + marker + note + "\n\n" + tail;
    assert s == p + marker + (note + "\n\n" + tail);
    SplitAtMarker(p, marker, note + "\n\n" + tail);
    ContainsAt(s, marker, |p|);
    SplitAtBlankLine(note, tail);
  }

  /** A `STORE IN MEMORY:` note does not start like a reply prefix. */
  lemma StoreNoteNotLed(rest: string)
    ensures forall k :: 0 <= k < |LeadingMarkers| ==> !StartsWith("STORE IN MEMORY:" + rest, LeadingMarkers[k])
  {
    var s := "STORE IN MEMORY:" + rest;
    assert s[0] == 'S';
    forall k | 0 <= k < |LeadingMarkers| ensures !StartsWith(s, LeadingMarkers[k]) {
      var m := LeadingMarkers[k];
      assert m[0] != 'S';
      if |m| <= |s| {
        assert s[..|m|][0] == s[0];
      }
    }
  }

  lemma ColonsPlaced()
    ensures ColonLast("STORE IN MEMORY:") && ColonLast("MEMORY:")
  {
    assert "STORE IN MEMORY:"[..15] == "STORE IN MEMORY";
    assert "MEMORY:"[..6] == "MEMORY";
  }

  /** The second loop over a three-marker list, one pass at a time. */
  lemma CutMemoryThree(response: string, markers: seq<Marker>)
    requires |markers| == 3
    ensures CutMemoryAll(response, markers)
            == CutMemory(CutMemory(CutMemory(response, markers[0]), markers[1]), markers[2])
  {
    var one := markers[..1];
    var two := markers[..2];
    assert one[..0] == [] && two[..1] == one && markers[..2] == two;
    assert CutMemoryAll(response, one) == CutMemory(response, markers[0]);
    assert CutMemoryAll(response, two) == CutMemory(CutMemoryAll(response, one), markers[1]);
  }

  /** The first loop over a three-marker list, one pass at a time. */
  lemma DropLeadingThree(response: string, markers: seq<string>)
    requires |markers| == 3
    ensures DropLeadingAll(response, markers)
            == DropLeading(DropLeading(DropLeading(response, markers[0]), markers[1]), markers[2])
  {
    var one := markers[..1];
    var two := markers[..2];
    assert one[..0] == [] && two[..1] == one && markers[..2] == two;
    assert DropLeadingAll(response, one) == DropLeading(response, markers[0]);
    assert DropLeadingAll(response, two) == DropLeading(DropLeadingAll(response, one), markers[1]);
  }

  /** Stripping keeps text colon-free. */
  lemma StripNoColon(s: string)
    requires ':' !in s
    ensures ':' !in Strip(s)
  {
    StripKeeps(s, ':');
  }

  /**
   * A reply opening with one of the reply prefixes, followed by colon-free
   * text, cleans to that text stripped: the earlier prefixes do not match
   * it, and nothing the later passes look for is left.
   */
  lemma LeadingMarkerRemoved(k: nat, body: string)
    requires k < |LeadingMarkers| && ':' !in body
    ensures Cleaned(LeadingMarkers[k] + body, LeadingMarkers, MemoryMarkers) == Strip(body)
  {
    var s := LeadingMarkers[k] + body;
    var rest := Strip(body);
    StripNoColon(body);
    assert DropLeadingAll(s, LeadingMarkers) == rest by {
      LeadingPassRemoves(k, body);
    }
    assert CutMemoryAll(rest, MemoryMarkers) == rest by {
      MarkersHaveColons();
      forall j | 0 <= j < |MemoryMarkers| ensures !Contains(rest, MemoryMarkers[j]) {
        NoColonNoMarker(rest, MemoryMarkers[j]);
      }
      CutMemoryAllUnmarked(rest, MemoryMarkers);
    }
    StripTrimmed(rest);
  }

  /** The first loop removes the prefix a reply opens with and strips what follows. */
  lemma LeadingPassRemoves(k: nat, body: string)
    requires k < |LeadingMarkers| && ':' !in body
    ensures DropLeadingAll(LeadingMarkers[k] + body, LeadingMarkers) == Strip(body)
  {
    var m := LeadingMarkers;
    var s := m[k] + body;
    var rest := Strip(body);
    DropLeadingThree(s, m);
    MarkersHaveColons();
    StripNoColon(body);
    Led(m[k], body);
    if k == 0 {
      ColonFreeNotLed(rest, m[1]);
      ColonFreeNotLed(rest, m[2]);
    } else if k == 1 {
      NotLed(s, m[0]);
      ColonFreeNotLed(rest, m[2]);
    } else {
      NotLed(s, m[0]);
      NotLed(s, m[1]);
    }
  }

  /**
   * On every reply: a reply opening with the `k`-th prefix loses it and is
   * stripped, the earlier prefixes having missed it, and only the later
   * prefixes are then tried on what is left, so `RESPONSE: COACH: hi`
   * loses both prefixes.
   */
  lemma LeadingChain(k: nat, body: string)
    requires k < |LeadingMarkers|
    ensures DropLeadingAll(LeadingMarkers[k] + body, LeadingMarkers)
            == DropLeadingAll(Strip(body), LeadingMarkers[k + 1..])
  {
    var m := LeadingMarkers;
    var s := m[k] + body;
    var rest := Strip(body);
    DropLeadingThree(s, m);
    Led(m[k], body);
    var tail := m[k + 1..];
    if k == 0 {
      DropLeadingTwo(rest, tail);
      assert tail[..1] == [m[1]] && tail[..1][..0] == [];
    } else if k == 1 {
      NotLed(s, m[0]);
      assert tail == [m[2]] && tail[..0] == [];
    } else {
      NotLed(s, m[0]);
      NotLed(s, m[1]);
      assert tail == [];
    }
  }

  /** The first loop over a two-marker list, one pass at a time. */
  lemma DropLeadingTwo(response: string, markers: seq<string>)
    requires |markers| == 2
    ensures DropLeadingAll(response, markers) == DropLeading(DropLeading(response, markers[0]), markers[1])
  {
    var one := markers[..1];
    assert one[..0] == [] && markers[..1] == one;
    assert DropLeadingAll(response, one) == DropLeading(response, markers[0]);
  }

  lemma Led(marker: string, body: string)
    ensures DropLeading(marker + body, marker) == Strip(body)
  {
    var s := marker + body;
    assert s[..|marker|] == marker && s[|marker|..] == body;
  }

  lemma NotLed(s: string, marker: string)
    requires s != [] && marker != [] && s[0] != marker[0]
    ensures DropLeading(s, marker) == s
  {
    if |marker| <= |s| {
      assert s[..|marker|][0] == s[0];
    }
  }

  lemma ColonFreeNotLed(s: string, marker: string)
    requires ':' !in s && ':' in marker
    ensures DropLeading(s, marker) == s
  {
    NoColonNoMarker(s, marker);
  }

  /**
   * As written, `MEMORY:` is looked for before `STORE IN MEMORY:`, and it
   * matches inside it: a `STORE IN MEMORY:` note leaves `STORE IN ` behind.
   */
  lemma StoreInMemoryLeavesPrefix(note: string, tail: string)
    requires '\n' !in note && ':' !in tail
    ensures Cleaned("STORE IN MEMORY:" + note + "\n\n" + tail, LeadingMarkers, MemoryMarkers)
            == Strip("STORE IN " + tail)
  {
    var s := "STORE IN MEMORY:" + note + "\n\n" + tail;
    MarkersHaveColons();
    ColonsPlaced();
    assert DropLeadingAll(s, LeadingMarkers) == s by {
      assert s == "STORE IN MEMORY:" + (note + "\n\n" + tail);
      StoreNoteNotLed(note + "\n\n" + tail);
      DropLeadingAllUnmarked(s, LeadingMarkers);
    }
    var after := "STORE IN " + tail;
    assert CutMemory(s, "MEMORY:") == after by {
      assert s == "STORE IN " + "MEMORY:" + note + "\n\n" + tail;
      CutMemoryNote("STORE IN ", "MEMORY:", note, tail);
    }
    assert ':' !in after;
    NoColonNoMarker(after, "STORE IN MEMORY:");
    NoColonNoMarker(after, "REMEMBER:");
    CutMemoryThree(s, MemoryMarkers);
  }

  /**
   * For every such note before a non-empty, stripped, colon-free text, the
   * reply as written keeps `STORE IN ` where the reordered markers give the
   * text alone; `"STORE IN MEMORY: x\n\nHi"` becomes `"STORE IN Hi"`, not `"Hi"`.
   */
  lemma StoreInMemoryMiscut(reply: string, note: string, tail: string)
    requires reply == "STORE IN MEMORY:" + note + "\n\n" + tail
    requires '\n' !in note && ':' !in tail && tail != [] && Trimmed(tail)
    ensures Cleaned(reply, LeadingMarkers, MemoryMarkers) == "STORE IN " + tail
    ensures Cleaned(reply, LeadingMarkers, OrderedMemoryMarkers) == tail
  {
    assert Cleaned(reply, LeadingMarkers, MemoryMarkers) == "STORE IN " + tail by {
      StoreInMemoryLeavesPrefix(note, tail);
      LabelledTrimmed(tail);
      StripTrimmed("STORE IN " + tail);
    }
    assert Cleaned(reply, LeadingMarkers, OrderedMemoryMarkers) == tail by {
      OrderedMarkersCutStoreNote(note, tail);
      StripTrimmed(tail);
    }
  }

  lemma LabelledTrimmed(tail: string)
    requires tail != [] && Trimmed(tail)
    ensures Trimmed("STORE IN " + tail)
  {
    var kept := "STORE IN " + tail;
    assert kept[0] == 'S' && kept[|kept| - 1] == tail[|tail| - 1];
  }

  /**
   * With the longer marker first, a `STORE IN MEMORY:` note up to a blank
   * line is removed whole: the reply cleans to the text after the blank line.
   */
  lemma OrderedMarkersCutStoreNote(note: string, tail: string)
    requires '\n' !in note && ':' !in tail
    ensures Cleaned("STORE IN MEMORY:" + note + "\n\n" + tail, LeadingMarkers, OrderedMemoryMarkers) == Strip(tail)
  {
    var s := "STORE IN MEMORY:" + note + "\n\n" + tail;
    MarkersHaveColons();
    ColonsPlaced();
    assert DropLeadingAll(s, LeadingMarkers) == s by {
      assert s == "STORE IN MEMORY:" + (note + "\n\n" + tail);
      StoreNoteNotLed(note + "\n\n" + tail);
      DropLeadingAllUnmarked(s, LeadingMarkers);
    }
    assert CutMemory(s, "STORE IN MEMORY:") == tail by {
      assert s == [] + "STORE IN MEMORY:" + note + "\n\n" + tail;
      CutMemoryNote([], "STORE IN MEMORY:", note, tail);
    }
    NoColonNoMarker(tail, "MEMORY:");
    NoColonNoMarker(tail, "REMEMBER:");
    CutMemoryThree(s, OrderedMemoryMarkers);
  }

  /** `clean_response`, looping over the two marker lists as the source does. */
  method CleanResponse(response: string) returns (r: string)
    ensures r == Cleaned(response, LeadingMarkers, MemoryMarkers)
    ensures |r| <= |response|
  {
    r := response;
    for i := 0 to |LeadingMarkers|
      invariant r == DropLeadingAll(response, LeadingMarkers[..i])
    {
      var marker := LeadingMarkers[i];
      assert LeadingMarkers[..i + 1][..i] == LeadingMarkers[..i];
      assert DropLeadingAll(response, LeadingMarkers[..i + 1]) == DropLeading(r, marker);
      if StartsWith(r, marker) {
        r := Strip(r[|marker|..]);
      }
    }
    assert LeadingMarkers[..|LeadingMarkers|] == LeadingMarkers;
    var led := r;
    for i := 0 to |MemoryMarkers|
      invariant r == CutMemoryAll(led, MemoryMarkers[..i])
    {
      var marker := MemoryMarkers[i];
      assert MemoryMarkers[..i + 1][..i] == MemoryMarkers[..i];
      assert CutMemoryAll(led, MemoryMarkers[..i + 1]) == CutMemory(r, marker);
      if Contains(r, marker) {
        var parts := SplitOnce(r, marker);
        if |parts| > 1 {
          var second := SplitOnce(parts[1], "\n\n");
          if |second| > 1 {
            r := parts[0] + second[1];
          } else {
            r := parts[0];
          }
        }
      }
    }
    assert MemoryMarkers[..|MemoryMarkers|] == MemoryMarkers;
    CleanedNotLonger(response, LeadingMarkers, MemoryMarkers);
    r := Strip(r);
  }
}
