/**
 * The few Python `str` and list-slice operations the memory code relies on,
 * restricted to ASCII text: `lower`, `strip`, `split()`, `split(sep)`,
 * `split(sep, 1)`, `in`, `startswith`, `join`, `s[:n]`, `s[n:]` and `str(n)`.
 */
module PyStr {
  import opened Wrappers

  /** The characters `str.split()` and `str.strip()` treat as whitespace (ASCII range). */
  predicate IsSpace(c: char) {
    0x09 <= c as int <= 0x0D || 0x1C <= c as int <= 0x20
  }

  predicate IsUpper(c: char) {
    'A' <= c <= 'Z'
  }

  function LowerChar(c: char): (r: char)
    ensures !IsUpper(r)
    ensures !IsUpper(c) ==> r == c
  {
    if IsUpper(c) then (c as int + 32) as char else c
  }

  /** `s.lower()`: same length, every ASCII capital replaced by its small letter. */
  function Lower(s: string): (r: string)
    ensures |r| == |s|
    ensures forall i :: 0 <= i < |s| ==> r[i] == LowerChar(s[i])
  {
    seq(|s|, i requires 0 <= i < |s| => LowerChar(s[i]))
  }

  /** `s.startswith(p)` */
  predicate StartsWith(s: string, p: string) {
    |p| <= |s| && s[..|p|] == p
  }

  /** `pat` occurs in `s` at index `i`. */
  predicate Occurs(s: string, pat: string, i: int) {
    0 <= i && i + |pat| <= |s| && s[i..i + |pat|] == pat
  }

  function IndexFrom(s: string, pat: string, k: nat): (r: Option<nat>)
    ensures r.Some? ==> k <= r.value && Occurs(s, pat, r.value)
    ensures r.Some? ==> forall j :: k <= j < r.value ==> !Occurs(s, pat, j)
    ensures r.None? ==> forall j :: k <= j ==> !Occurs(s, pat, j)
    decreases |s| - k
  {
    if k + |pat| > |s| then None
    else if s[k..k + |pat|] == pat then Some(k)
    else IndexFrom(s, pat, k + 1)
  }

  /** `s.find(pat)`: the first occurrence, or None for Python's -1. */
  function IndexOf(s: string, pat: string): (r: Option<nat>)
    ensures r.Some? ==> Occurs(s, pat, r.value) && forall j :: 0 <= j < r.value ==> !Occurs(s, pat, j)
    ensures r.None? ==> forall j :: !Occurs(s, pat, j)
  {
    IndexFrom(s, pat, 0)
  }

  /** `pat in s` (the empty string occurs in every string). */
  predicate Contains(s: string, pat: string) {
    IndexOf(s, pat).Some?
  }

  lemma ContainsAt(s: string, pat: string, i: int)
    requires Occurs(s, pat, i)
    ensures Contains(s, pat)
  {
  }

  /** A one-character pattern occurs exactly when the character is in the text. */
  lemma ContainsChar(s: string, c: char)
    ensures Contains(s, [c]) <==> c in s
  {
    if c in s {
      var i :| 0 <= i < |s| && s[i] == c;
      assert Occurs(s, [c], i);
    } else {
      forall i | 0 <= i ensures !Occurs(s, [c], i) {
        if i + 1 <= |s| {
          assert s[i..i + 1][0] == s[i];
        }
      }
    }
  }

  /** A pattern holding a capital letter never occurs in lower-cased text. */
  lemma UpperNeverInLower(text: string, pat: string, k: nat)
    requires k < |pat| && IsUpper(pat[k])
    ensures !Contains(Lower(text), pat)
  {
    var low := Lower(text);
    forall i | 0 <= i
      ensures !Occurs(low, pat, i)
    {
      if i + |pat| <= |low| {
        assert low[i..i + |pat|][k] == LowerChar(text[i + k]);
      }
    }
  }

  /** `s.lstrip()` */
  function LStrip(s: string): (r: string)
    ensures |r| <= |s| && r == s[|s| - |r|..]
    ensures r == [] || !IsSpace(r[0])
    ensures forall i :: 0 <= i < |s| - |r| ==> IsSpace(s[i])
  {
    if s != [] && IsSpace(s[0]) then
      var r := LStrip(s[1..]);
      assert s[1..][|s| - 1 - |r|..] == s[|s| - |r|..];
      assert forall i :: 1 <= i < |s| - |r| ==> s[i] == s[1..][i - 1];
      r
    else s
  }

  /** `s.rstrip()` */
  function RStrip(s: string): (r: string)
    ensures |r| <= |s| && r == s[..|r|]
    ensures r == [] || !IsSpace(r[|r| - 1])
    ensures forall i :: |r| <= i < |s| ==> IsSpace(s[i])
  {
    if s != [] && IsSpace(s[|s| - 1]) then RStrip(s[..|s| - 1]) else s
  }

  /** Text with no whitespace at either end. */
  predicate Trimmed(s: string) {
    s == [] || (!IsSpace(s[0]) && !IsSpace(s[|s| - 1]))
  }

  /** `s.strip()`: the slice of `s` between its leading and trailing whitespace. */
  function Strip(s: string): (r: string)
    ensures Trimmed(r)
    ensures r == [] <==> forall i :: 0 <= i < |s| ==> IsSpace(s[i])
  {
    StripEnds(s);
    StripBlank(s);
    RStrip(LStrip(s))
  }

  /** Nothing but whitespace. */
  predicate Blank(s: string) {
    forall i :: 0 <= i < |s| ==> IsSpace(s[i])
  }

  /** `r` is a slice of `s` with only whitespace cut away on either side. */
  predicate SliceBetweenBlanks(r: string, s: string) {
    exists i, j :: 0 <= i <= j <= |s| && r == s[i..j] && Blank(s[..i]) && Blank(s[j..])
  }

  /** `strip` cuts whitespace at the two ends and nothing else. */
  lemma StripSlice(s: string)
    ensures SliceBetweenBlanks(Strip(s), s)
  {
    var l := LStrip(s);
    var r := Strip(s);
    var a := |s| - |l|;
    var b := a + |r|;
    assert r == l[..|r|];
    assert r == s[a..b];
    assert Blank(s[..a]) by {
      forall i | 0 <= i < a ensures IsSpace(s[..a][i]) {
        assert s[..a][i] == s[i];
      }
    }
    assert Blank(s[b..]) by {
      forall i | 0 <= i < |s| - b ensures IsSpace(s[b..][i]) {
        assert s[b..][i] == l[|r| + i];
      }
    }
  }

  /** `strip` only removes characters: one absent from `s` is absent from `s.strip()`. */
  lemma StripKeeps(s: string, c: char)
    requires c !in s
    ensures c !in Strip(s)
  {
    LStripKeeps(s, c);
    RStripKeeps(LStrip(s), c);
  }

  lemma LStripKeeps(s: string, c: char)
    requires c !in s
    ensures c !in LStrip(s)
  {
    var l := LStrip(s);
    var a := |s| - |l|;
    forall i | 0 <= i < |l| ensures l[i] != c {
      assert l[i] == s[a + i];
    }
  }

  lemma RStripKeeps(s: string, c: char)
    requires c !in s
    ensures c !in RStrip(s)
  {
    var r := RStrip(s);
    forall i | 0 <= i < |r| ensures r[i] != c {
      assert r[i] == s[i];
    }
  }

  lemma StripEnds(s: string)
    ensures Trimmed(RStrip(LStrip(s)))
  {
    var l := LStrip(s);
    var r := RStrip(l);
    if r != [] {
      assert r[0] == l[0];
    }
  }

  lemma StripBlank(s: string)
    ensures RStrip(LStrip(s)) == [] <==> forall i :: 0 <= i < |s| ==> IsSpace(s[i])
  {
    var l := LStrip(s);
    if l != [] {
      assert !IsSpace(l[0]);
    }
  }

  /** A leading blank makes no difference to `strip`. */
  lemma StripLeadingSpace(s: string)
    ensures Strip(" " + s) == Strip(s)
  {
    assert (" " + s)[1..] == s;
  }

  /** Text without surrounding whitespace is left alone by `strip`. */
  lemma StripTrimmed(s: string)
    requires Trimmed(s)
    ensures Strip(s) == s
  {
    if s != [] {
      assert LStrip(s) == s;
      assert RStrip(s) == s;
    }
  }

  /** A blank before trimmed text is all that `strip` removes. */
  lemma StripBlankLed(s: string)
    requires Trimmed(s)
    ensures Strip(" " + s) == s
  {
    StripLeadingSpace(s);
    StripTrimmed(s);
  }

  /** `rstrip` removes a whitespace tail after text that ends in a non-space. */
  lemma RStripDropsTail(p: string, tail: string)
    requires p != [] && !IsSpace(p[|p| - 1])
    requires forall i :: 0 <= i < |tail| ==> IsSpace(tail[i])
    ensures RStrip(p + tail) == p
  {
    var s := p + tail;
    var r := RStrip(s);
    assert !IsSpace(s[|p| - 1]);
    assert forall j :: |p| <= j < |s| ==> IsSpace(s[j]) by {
      forall j | |p| <= j < |s| ensures IsSpace(s[j]) {
        assert s[j] == tail[j - |p|];
      }
    }
    assert r != [] ==> r[|r| - 1] == s[|r| - 1];
    assert |r| == |p|;
    assert r == s[..|p|];
  }

  function WordEnd(t: string): (n: nat)
    ensures n <= |t|
    ensures forall i :: 0 <= i < n ==> !IsSpace(t[i])
    ensures n == |t| || IsSpace(t[n])
  {
    if t == [] || IsSpace(t[0]) then 0 else 1 + WordEnd(t[1..])
  }

  /** A non-empty run of non-whitespace characters. */
  predicate IsWord(w: string) {
    w != [] && forall i :: 0 <= i < |w| ==> !IsSpace(w[i])
  }

  /** `s.split()`: the maximal runs of non-whitespace characters, in order. */
  function Words(s: string): (r: seq<string>)
    decreases |s|
  {
    var t := LStrip(s);
    if t == [] then []
    else
      var n := WordEnd(t);
      assert 0 < n by { assert !IsSpace(t[0]); }
      [t[..n]] + Words(t[n..])
  }

  /** Every piece of `s.split()` is a word. */
  lemma {:induction false} WordsAreWords(s: string)
    ensures forall k :: 0 <= k < |Words(s)| ==> IsWord(Words(s)[k])
    decreases |s|
  {
    var t := LStrip(s);
    if t != [] {
      var n := WordEnd(t);
      assert !IsSpace(t[0]);
      var first, rest := t[..n], Words(t[n..]);
      assert Words(s) == [first] + rest;
      assert IsWord(first) by {
        forall i | 0 <= i < |first| ensures !IsSpace(first[i]) {
          assert first[i] == t[i];
        }
      }
      WordsAreWords(t[n..]);
      forall k | 0 <= k < |Words(s)| ensures IsWord(Words(s)[k]) {
        if k > 0 {
          assert Words(s)[k] == rest[k - 1];
        }
      }
    }
  }

  /** `s.split()` is empty exactly when `s` is empty or all whitespace. */
  lemma WordsEmpty(s: string)
    ensures Words(s) == [] <==> forall i :: 0 <= i < |s| ==> IsSpace(s[i])
  {
    var t := LStrip(s);
    if t != [] {
      assert !IsSpace(s[|s| - |t|]);
    }
  }

  /** `s.split(sep, 1)`: one part when `sep` is absent, else the text around its first occurrence. */
  function SplitOnce(s: string, sep: string): (parts: seq<string>)
    requires sep != []
    ensures |parts| == 1 || |parts| == 2
    ensures |parts| == 1 <==> !Contains(s, sep)
    ensures |parts| == 1 ==> parts[0] == s
    ensures |parts| == 2 ==> parts[0] + sep + parts[1] == s && IndexOf(s, sep) == Some(|parts[0]|)
  {
    match IndexOf(s, sep)
    case None => [s]
    case Some(i) =>
      assert s == s[..i] + sep + s[i + |sep|..];
      [s[..i], s[i + |sep|..]]
  }

  /** `sep.join(parts)` */
  function Join(sep: string, parts: seq<string>): string
  {
    if parts == [] then []
    else if |parts| == 1 then parts[0]
    else parts[0] + sep + Join(sep, parts[1..])
  }

  /** `s.split(sep)` for a one-character separator: the pieces between separators. */
  function SplitOn(s: string, sep: char): (parts: seq<string>)
    ensures parts != []
    ensures forall k :: 0 <= k < |parts| ==> sep !in parts[k]
  {
    if s == [] then [[]]
    else
      var rest := SplitOn(s[1..], sep);
      if s[0] == sep then [[]] + rest
      else [[s[0]] + rest[0]] + rest[1..]
  }

  /** There is one more piece than there are separators. */
  lemma {:induction false} SplitOnCount(s: string, sep: char)
    ensures |SplitOn(s, sep)| == multiset(s)[sep] + 1
  {
    if s != [] {
      SplitOnCount(s[1..], sep);
      assert s == [s[0]] + s[1..];
    }
  }

  /** Joining the pieces of `s.split(sep)` with `sep` gives `s` back. */
  lemma {:induction false} JoinSplitOn(s: string, sep: char)
    ensures Join([sep], SplitOn(s, sep)) == s
  {
    if s != [] {
      var rest := SplitOn(s[1..], sep);
      JoinSplitOn(s[1..], sep);
      assert s == [s[0]] + s[1..];
      if s[0] == sep {
        assert ([[]] + rest)[1..] == rest;
      } else {
        assert SplitOn(s, sep) == [[s[0]] + rest[0]] + rest[1..];
        JoinConsFirst(s[0], rest, [sep]);
      }
    }
  }

  lemma JoinConsFirst(c: char, parts: seq<string>, sep: string)
    requires parts != []
    ensures Join(sep, [[c] + parts[0]] + parts[1..]) == [c] + Join(sep, parts)
  {
  }

  /** Splitting a join of separator-free pieces gives the pieces back. */
  lemma {:induction false} SplitOnJoin(parts: seq<string>, sep: char)
    requires parts != []
    requires forall k :: 0 <= k < |parts| ==> sep !in parts[k]
    ensures SplitOn(Join([sep], parts), sep) == parts
  {
    if |parts| == 1 {
      SplitOnFree(parts[0], sep);
    } else {
      var x := [sep] + Join([sep], parts[1..]);
      SplitOnJoin(parts[1..], sep);
      SplitOnPrefix(parts[0], x, sep);
      assert Join([sep], parts) == parts[0] + x;
      assert SplitOn(x, sep) == [[]] + parts[1..] by {
        assert x[0] == sep && x[1..] == Join([sep], parts[1..]);
      }
      assert parts[0] + [] == parts[0];
      assert ([[]] + parts[1..])[1..] == parts[1..];
      assert [parts[0]] + parts[1..] == parts;
    }
  }

  lemma {:induction false} SplitOnFree(s: string, sep: char)
    requires sep !in s
    ensures SplitOn(s, sep) == [s]
  {
    if s != [] {
      assert sep !in s[1..];
      SplitOnFree(s[1..], sep);
      assert s == [s[0]] + s[1..];
    }
  }

  /** A first character other than the separator joins the first piece. */
  lemma SplitOnCons(c: char, t: string, sep: char)
    requires c != sep
    ensures var r := SplitOn(t, sep); SplitOn([c] + t, sep) == [[c] + r[0]] + r[1..]
  {
    assert ([c] + t)[1..] == t;
  }

  /** A separator-free prefix glues onto the first piece. */
  lemma {:induction false} SplitOnPrefix(p: string, s: string, sep: char)
    requires sep !in p
    ensures var r := SplitOn(s, sep); SplitOn(p + s, sep) == [p + r[0]] + r[1..]
  {
    var r := SplitOn(s, sep);
    if p != [] {
      assert sep !in p[1..];
      SplitOnPrefix(p[1..], s, sep);
      assert p + s == [p[0]] + (p[1..] + s);
      SplitOnCons(p[0], p[1..] + s, sep);
      assert [p[0]] + (p[1..] + r[0]) == p + r[0];
    } else {
      assert p + s == s;
      assert p + r[0] == r[0];
      assert [r[0]] + r[1..] == r;
    }
  }

  /** Python `s[:n]`: a negative `n` counts from the end. */
  function Take<T>(s: seq<T>, n: int): (r: seq<T>)
    ensures |r| <= |s| && r == s[..|r|]
    ensures 0 <= n ==> |r| == if n < |s| then n else |s|
    ensures n < 0 ==> |r| == if |s| + n > 0 then |s| + n else 0
  {
    if 0 <= n then (if n < |s| then s[..n] else s)
    else if |s| + n > 0 then s[..|s| + n] else []
  }

  /** Python `s[n:]`: a negative `n` counts from the end. */
  function Drop<T>(s: seq<T>, n: int): (r: seq<T>)
    ensures |r| <= |s| && r == s[|s| - |r|..]
    ensures 0 <= n ==> |r| == if n < |s| then |s| - n else 0
    ensures n < 0 ==> |r| == if -n < |s| then -n else |s|
  {
    if 0 <= n then (if n < |s| then s[n..] else [])
    else if |s| + n > 0 then s[|s| + n..] else s
  }

  predicate IsDigit(c: char) {
    '0' <= c <= '9'
  }

  function DigitChar(d: nat): (c: char)
    requires d < 10
    ensures IsDigit(c) && c as int - '0' as int == d
  {
    (d + '0' as int) as char
  }

  /** `str(n)` for a natural number: its decimal digits. */
  function NatToString(n: nat): (r: string)
    ensures r != []
    ensures forall i :: 0 <= i < |r| ==> IsDigit(r[i])
  {
    if n < 10 then [DigitChar(n)] else NatToString(n / 10) + [DigitChar(n % 10)]
  }

  /** `int(s)` for a string of decimal digits. */
  function DigitsValue(s: string): nat
    requires forall i :: 0 <= i < |s| ==> IsDigit(s[i])
  {
    if s == [] then 0
    else
      assert IsDigit(s[|s| - 1]);
      DigitsValue(s[..|s| - 1]) * 10 + (s[|s| - 1] as int - '0' as int)
  }

  /** `int(str(n)) == n` */
  lemma {:induction false} NatToStringRoundTrip(n: nat)
    ensures DigitsValue(NatToString(n)) == n
  {
    var r := NatToString(n);
    if n >= 10 {
      NatToStringRoundTrip(n / 10);
      assert r[..|r| - 1] == NatToString(n / 10);
    }
  }
}
