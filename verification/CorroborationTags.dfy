/**
 Corroboration tags (backend/chat_agentic.py): marking the lines of a block that other sources support.

 A block is given as its lines. Brackets and words are read character by character, as the two regular
 expressions of the original read ASCII text.
 */
module CorroborationTags {
  import opened Decimals
  import opened Options
  import opened Reals
  import opened Sets
  import opened Texts

  // ---------- Sources and words of a line ----------

  /** A scan for `\[([^\]]+)\]`: what it has found, and the text since a bracket that is still open. */
  datatype Brackets = Brackets(found: seq<string>, open: Option<string>)

  function ReadBracket(b: Brackets, c: char): Brackets {
    match b.open
    case None => if c == '[' then b.(open := Some("")) else b
    case Some(text) =>
      if c != ']' then b.(open := Some(text + [c]))
      else if text == "" then b.(open := None)
      else Brackets(b.found + [text], None)
  }

  function ScanBrackets(b: Brackets, line: string): Brackets {
    if line == "" then b else ReadBracket(ScanBrackets(b, line[..|line| - 1]), line[|line| - 1])
  }

  function Bracketed(line: string): Brackets {
    ScanBrackets(Brackets([], None), line)
  }

  predicate AllDigits(s: string) {
    forall c :: c in s ==> IsDigit(c)
  }

  /** The text without dots and hyphens. */
  function Undotted(s: string): string {
    if s == "" then ""
    else
      var before, c := Undotted(s[..|s| - 1]), s[|s| - 1];
      if c == '.' || c == '-' then before else before + [c]
  }

  predicate IsRealSource(s: string) {
    && !(Undotted(s) != "" && AllDigits(Undotted(s)))
    && Lower(s) !in {"crag fallback", "low confidence", "top", "high confidence"}
    && |s| <= 30
  }

  function RealSources(found: seq<string>): seq<string> {
    if found == [] then []
    else
      var before, s := RealSources(found[..|found| - 1]), found[|found| - 1];
      if IsRealSource(s) then before + [Lower(s)] else before
  }

  function SourcesOf(line: string): seq<string> {
    RealSources(Bracketed(line).found)
  }

  predicate IsWordChar(c: char) {
    'a' <= c <= 'z' || 'A' <= c <= 'Z' || IsDigit(c) || c == '_'
  }

  /** A scan for `\w{4,}`: the words before the current run of word characters, and that run. */
  datatype Run = Run(words: set<string>, current: string)

  function Words(r: Run): set<string> {
    if |r.current| >= 4 then r.words + {r.current} else r.words
  }

  function ReadWord(r: Run, c: char): Run {
    if IsWordChar(c) then r.(current := r.current + [c]) else Run(Words(r), "")
  }

  function ScanWords(r: Run, text: string): Run {
    if text == "" then r else ReadWord(ScanWords(r, text[..|text| - 1]), text[|text| - 1])
  }

  function WordsOf(line: string): set<string> {
    Words(ScanWords(Run({}, ""), Lower(line)))
  }

  function Elements(s: seq<string>): set<string> {
    set x | x in s
  }

  /** `_word_overlap(a, b) >= 0.15`. */
  predicate Overlap(a: set<string>, b: set<string>) {
    a != {} && b != {} && 20 * |a * b| >= 3 * |a + b|
  }

  /** Two sourced lines support each other: no common source, and enough common words. */
  predicate Supports(a: string, b: string) {
    && SourcesOf(a) != [] && SourcesOf(b) != []
    && Elements(SourcesOf(a)) * Elements(SourcesOf(b)) == {}
    && Overlap(WordsOf(a), WordsOf(b))
  }

  lemma SupportIsSymmetric(a: string, b: string)
    ensures Supports(a, b) <==> Supports(b, a)
  {
    var s, t, v, w := Elements(SourcesOf(a)), Elements(SourcesOf(b)), WordsOf(a), WordsOf(b);
    assert s * t == t * s && v * w == w * v && v + w == w + v;
  }

  // ---------- The same in plain terms ----------

  lemma {:induction false} UndottedHolds(s: string, c: char)
    ensures c in Undotted(s) <==> c in s && c != '.' && c != '-'
  {
    if s != "" {
      UndottedHolds(s[..|s| - 1], c);
      assert s == s[..|s| - 1] + [s[|s| - 1]];
    }
  }

  /** A source has at most 30 characters, is no number with dots and hyphens, and none of the four notes. */
  lemma RealSourceIff(s: string)
    ensures IsRealSource(s) <==>
            && |s| <= 30
            && ((exists c :: c in s && !('0' <= c <= '9') && c != '.' && c != '-')
                || (forall c :: c in s ==> !('0' <= c <= '9')))
            && Lower(s) != "crag fallback" && Lower(s) != "low confidence"
            && Lower(s) != "top" && Lower(s) != "high confidence"
  {
    forall c ensures c in Undotted(s) <==> c in s && c != '.' && c != '-' {
      UndottedHolds(s, c);
    }
    if Undotted(s) != "" {
      assert Undotted(s)[0] in Undotted(s);
    }
    assert AllDigits(Undotted(s)) <==> forall c :: c in s && c != '.' && c != '-' ==> '0' <= c <= '9';
  }

  /** The sources of a line are the real ones among what its brackets hold, in lower case and in order. */
  lemma {:induction false} RealSourcesConcat(a: seq<string>, b: seq<string>)
    ensures RealSources(a + b) == RealSources(a) + RealSources(b)
    ensures |a| == 1 ==> RealSources(a) == if IsRealSource(a[0]) then [Lower(a[0])] else []
  {
    if b == [] {
      assert a + b == a;
    } else {
      RealSourcesConcat(a, b[..|b| - 1]);
      assert (a + b)[..|a + b| - 1] == a + b[..|b| - 1];
    }
    if |a| == 1 {
      assert a[..0] == [];
    }
  }

  /** From i to j the text is all word characters, and it is not on either side. */
  predicate RunAt(text: string, i: nat, j: nat) {
    && i < j <= |text| && (forall k :: i <= k < j ==> IsWordChar(text[k]))
    && (i == 0 || !IsWordChar(text[i - 1])) && (j == |text| || !IsWordChar(text[j]))
  }

  ghost predicate LongRun(text: string, i: nat, j: nat, w: string) {
    RunAt(text, i, j) && j - i >= 4 && text[i..j] == w
  }

  /** `tail` is the run of word characters that the text ends in. */
  ghost predicate EndsIn(text: string, tail: string) {
    var from := |text| - |tail|;
    && |tail| <= |text| && tail == text[from..]
    && (forall k :: from <= k < |text| ==> IsWordChar(text[k])) && (from == 0 || !IsWordChar(text[from - 1]))
  }

  /** How far a scan has come: its words are the long runs that have ended, and its current run is the last one. */
  ghost predicate Scanned(text: string, r: Run) {
    && EndsIn(text, r.current)
    && forall w :: w in r.words <==> exists i: nat, j: nat :: LongRun(text, i, j, w) && j < |text|
  }

  lemma RunsStay(text: string, c: char, i: nat, j: nat, w: string)
    ensures j < |text| ==> (LongRun(text + [c], i, j, w) <==> LongRun(text, i, j, w))
    ensures j == |text| && !IsWordChar(c) ==> (LongRun(text + [c], i, j, w) <==> LongRun(text, i, j, w))
    ensures j == |text| && IsWordChar(c) ==> !LongRun(text + [c], i, j, w)
  {
    var more := text + [c];
    assert forall k :: 0 <= k < |text| ==> more[k] == text[k];
    assert i <= j <= |text| ==> more[i..j] == text[i..j];
  }

  lemma LastRun(text: string, tail: string, i: nat, w: string)
    requires EndsIn(text, tail)
    ensures LongRun(text, i, |text|, w) <==> i == |text| - |tail| && |tail| >= 4 && w == tail
  {
    var from := |text| - |tail|;
    if i < from {
      assert !IsWordChar(text[from - 1]) && i <= from - 1 < |text|;
    } else if from < i <= |text| {
      assert IsWordChar(text[i - 1]);
    }
  }

  lemma EndsNext(text: string, tail: string, c: char)
    requires EndsIn(text, tail)
    ensures EndsIn(text + [c], if IsWordChar(c) then tail + [c] else "")
  {
    var more, from := text + [c], |text| - |tail|;
    assert forall k :: 0 <= k < |text| ==> more[k] == text[k];
    assert more[from..] == tail + [c] && more[|more|..] == "";
  }

  lemma ScanNext(text: string, r: Run, c: char)
    requires Scanned(text, r)
    ensures Scanned(text + [c], ReadWord(r, c))
  {
    EndsNext(text, r.current, c);
    forall w ensures w in ReadWord(r, c).words <==>
        exists i: nat, j: nat :: LongRun(text + [c], i, j, w) && j < |text + [c]| {
      EndedRuns(text, r, c, w);
    }
  }

  lemma EndedRuns(text: string, r: Run, c: char, w: string)
    requires Scanned(text, r)
    ensures w in ReadWord(r, c).words <==> exists i: nat, j: nat :: LongRun(text + [c], i, j, w) && j < |text + [c]|
  {
    var more := text + [c];
    forall i: nat, j: nat | j <= |text|
      ensures LongRun(more, i, j, w) <==> LongRun(text, i, j, w) && (j < |text| || !IsWordChar(c))
    {
      RunsStay(text, c, i, j, w);
    }
    forall i: nat
      ensures LongRun(text, i, |text|, w) <==> i == |text| - |r.current| && |r.current| >= 4 && w == r.current
    {
      LastRun(text, r.current, i, w);
    }
    if !IsWordChar(c) && |r.current| >= 4 && w == r.current {
      assert LongRun(more, |text| - |r.current|, |text|, w);
    }
  }

  lemma ScanSnoc(text: string, init: string, r: Run, c: char)
    requires text == init + [c] && r == ScanWords(Run({}, ""), init) && Scanned(init, r)
    ensures Scanned(text, ScanWords(Run({}, ""), text))
  {
    ScanNext(init, r, c);
    assert text[..|text| - 1] == init;
    assert ScanWords(Run({}, ""), text) == ReadWord(r, c);
  }

  lemma {:induction false} ScanIs(text: string)
    ensures Scanned(text, ScanWords(Run({}, ""), text))
  {
    if text != "" {
      var init := text[..|text| - 1];
      ScanIs(init);
      ScanSnoc(text, init, ScanWords(Run({}, ""), init), text[|text| - 1]);
    }
  }

  lemma RunOfWord(text: string, r: Run, w: string) returns (i: nat, j: nat)
    requires Scanned(text, r) && w in Words(r)
    ensures LongRun(text, i, j, w)
  {
    if w in r.words {
      i, j :| LongRun(text, i, j, w) && j < |text|;
    } else {
      i, j := |text| - |r.current|, |text|;
      LastRun(text, r.current, i, w);
    }
  }

  lemma WordOfRun(text: string, r: Run, w: string, i: nat, j: nat)
    requires Scanned(text, r) && LongRun(text, i, j, w)
    ensures w in Words(r)
  {
    if j == |text| {
      LastRun(text, r.current, i, w);
    }
  }

  /** Letters of either case, digits and the underscore make words, and folding the case changes none of that. */
  lemma WordCharIff(c: char)
    ensures IsWordChar(c) <==> 'a' <= c <= 'z' || 'A' <= c <= 'Z' || '0' <= c <= '9' || c == '_'
    ensures IsWordChar(LowerChar(c)) <==> IsWordChar(c)
  {}

  /** The words of a line are its whole runs of at least four word characters, in lower case. */
  lemma WordIff(line: string, text: string, w: string)
    requires text == Lower(line)
    ensures w in WordsOf(line) <==> exists i: nat, j: nat :: LongRun(text, i, j, w)
  {
    var r := ScanWords(Run({}, ""), text);
    ScanIs(text);
    if w in Words(r) {
      var i, j := RunOfWord(text, r, w);
    }
    forall i: nat, j: nat | LongRun(text, i, j, w) ensures w in Words(r) {
      WordOfRun(text, r, w, i, j);
    }
  }

  /** Enough common words: at least 15% of all the words of both. */
  lemma OverlapIff(a: set<string>, b: set<string>)
    ensures Overlap(a, b) <==>
            a != {} && b != {} && |a * b| as real / |a + b| as real >= 0.15
  {
    if a != {} {
      SubsetSize(a, a + b);
      Ratio(|a * b|, |a + b|, 0.15);
    }
  }

  // ---------- Tagging ----------

  function Bracket(tag: string): string { "[" + tag + "]" }

  const CORROBORATED := "corroborated"
  const UNCORROBORATED := "uncorroborated"

  function Mark(line: string, tag: string): string {
    if Contains(Lower(line), Bracket(tag)) then line else RStrip(line) + " " + Bracket(tag)
  }

  /** Some other line of the block supports line i. */
  ghost predicate Shared(lines: seq<string>, i: nat)
    requires i < |lines|
  {
    exists j :: 0 <= j < |lines| && j != i && Supports(lines[i], lines[j])
  }

  ghost function TagOf(lines: seq<string>, i: nat): string
    requires i < |lines|
  {
    if Shared(lines, i) then CORROBORATED else UNCORROBORATED
  }

  /** What tagging makes of line i: every decision is made on the original block. */
  ghost function Tagged(lines: seq<string>, i: nat): string
    requires i < |lines|
  {
    if SourcesOf(lines[i]) == [] then lines[i] else Mark(lines[i], TagOf(lines, i))
  }

  datatype Counts = Counts(corroborated: nat, uncorroborated: nat, taggedLines: nat, sourceCount: nat)

  datatype Entry = Entry(index: nat, line: string, sources: seq<string>)

  /** The entries are the sourced lines among the first n, in order. */
  function Entries(lines: seq<string>, n: nat): seq<Entry>
    requires n <= |lines|
  {
    if n == 0 then []
    else
      var before, line := Entries(lines, n - 1), lines[n - 1];
      if SourcesOf(line) != [] then before + [Entry(n - 1, line, SourcesOf(line))] else before
  }

  function AllSources(lines: seq<string>, n: nat): set<string>
    requires n <= |lines|
  {
    if n == 0 then {} else AllSources(lines, n - 1) + Elements(SourcesOf(lines[n - 1]))
  }

  /** How many of the entries are shared. */
  ghost function CountShared(lines: seq<string>, entries: seq<Entry>): nat {
    if entries == [] then 0
    else
      var e := entries[|entries| - 1];
      CountShared(lines, entries[..|entries| - 1]) + if e.index < |lines| && Shared(lines, e.index) then 1 else 0
  }

  lemma {:induction false} EntriesHold(lines: seq<string>, n: nat)
    requires n <= |lines|
    ensures forall e :: e in Entries(lines, n) ==>
              e.index < n && e.line == lines[e.index] && e.sources == SourcesOf(e.line) != []
    ensures forall i :: 0 <= i < n && SourcesOf(lines[i]) != [] ==>
              Entry(i, lines[i], SourcesOf(lines[i])) in Entries(lines, n)
  {
    if n > 0 {
      EntriesHold(lines, n - 1);
    }
  }

  lemma {:induction false} EntriesAscend(lines: seq<string>, n: nat)
    requires n <= |lines|
    ensures forall j, k :: 0 <= j < k < |Entries(lines, n)| ==> Entries(lines, n)[j].index < Entries(lines, n)[k].index
  {
    if n > 0 {
      EntriesAscend(lines, n - 1);
      EntriesHold(lines, n - 1);
      var before := Entries(lines, n - 1);
      forall j | 0 <= j < |before| ensures before[j].index < n - 1 {
        assert before[j] in before;
      }
    }
  }

  /** The lines before the k-th entry. */
  function Upto(lines: seq<string>, entries: seq<Entry>, k: nat): nat {
    if k < |entries| then entries[k].index else |lines|
  }

  lemma GapHasNoEntry(lines: seq<string>, k: nat, i: nat)
    requires k <= |Entries(lines, |lines|)| && i < Upto(lines, Entries(lines, |lines|), k)
    requires k > 0 ==> Entries(lines, |lines|)[k - 1].index < i
    ensures forall e :: e in Entries(lines, |lines|) ==> e.index != i
  {
    var entries := Entries(lines, |lines|);
    EntriesAscend(lines, |lines|);
    forall j | 0 <= j < |entries| ensures entries[j].index != i {
      assert k > 0 && j < k - 1 ==> entries[j].index < entries[k - 1].index;
      assert k < |entries| && k < j ==> entries[k].index < entries[j].index;
    }
  }

  /** Between two entries lie only lines without sources. */
  lemma NoneBetween(lines: seq<string>, k: nat, i: nat)
    requires k <= |Entries(lines, |lines|)| && i < Upto(lines, Entries(lines, |lines|), k)
    requires i < |lines| && (k > 0 ==> Entries(lines, |lines|)[k - 1].index < i)
    ensures SourcesOf(lines[i]) == []
  {
    GapHasNoEntry(lines, k, i);
    EntriesHold(lines, |lines|);
    assert Entry(i, lines[i], SourcesOf(lines[i])) !in Entries(lines, |lines|);
  }

  /** The first loop. */
  method Collect(lines: seq<string>) returns (entries: seq<Entry>, sources: set<string>)
    ensures entries == Entries(lines, |lines|) && sources == AllSources(lines, |lines|)
  {
    entries, sources := [], {};
    var i := 0;
    while i < |lines|
      invariant 0 <= i <= |lines| && entries == Entries(lines, i) && sources == AllSources(lines, i)
    {
      var clean := SourcesOf(lines[i]);
      if clean != [] {
        sources := sources + Elements(clean);
        entries := entries + [Entry(i, lines[i], clean)];
      }
      i := i + 1;
    }
  }

  lemma EntryHolds(lines: seq<string>, e: Entry)
    requires e in Entries(lines, |lines|)
    ensures e.index < |lines| && e.line == lines[e.index] && e.sources == SourcesOf(e.line) != []
  {
    EntriesHold(lines, |lines|);
  }

  /** One entry backs another exactly when their lines support each other. */
  lemma BacksIff(e: Entry, other: Entry)
    requires e.sources == SourcesOf(e.line) != [] && other.sources == SourcesOf(other.line) != []
    ensures Supports(e.line, other.line) <==>
              Elements(e.sources) * Elements(other.sources) == {} && Overlap(WordsOf(e.line), WordsOf(other.line))
  {}

  lemma SupportedBy(lines: seq<string>, e: Entry, other: Entry)
    requires e.index < |lines| && other.index < |lines| && e.index != other.index
    requires e.line == lines[e.index] && other.line == lines[other.index] && Supports(e.line, other.line)
    ensures Shared(lines, e.index)
  {
    assert Supports(lines[e.index], lines[other.index]);
  }

  /** Among the first k entries there is none that supports this one. */
  ghost predicate NoneUntil(entries: seq<Entry>, e: Entry, k: nat)
    requires k <= |entries|
  {
    forall j :: 0 <= j < k ==> entries[j].index == e.index || !Supports(e.line, entries[j].line)
  }

  lemma NoneNext(entries: seq<Entry>, e: Entry, k: nat)
    requires k < |entries| && NoneUntil(entries, e, k)
    requires entries[k].index == e.index || !Supports(e.line, entries[k].line)
    ensures NoneUntil(entries, e, k + 1)
  {}

  lemma {:induction false} AllChecked(lines: seq<string>, entries: seq<Entry>, e: Entry)
    requires entries == Entries(lines, |lines|) && e.index < |lines| && e.line == lines[e.index]
    requires NoneUntil(entries, e, |entries|)
    ensures !Shared(lines, e.index)
  {
    EntriesHold(lines, |lines|);
    forall j | 0 <= j < |lines| && j != e.index ensures !Supports(lines[e.index], lines[j]) {
      if SourcesOf(lines[j]) != [] {
        assert Entry(j, lines[j], SourcesOf(lines[j])) in entries;
      }
    }
  }

  /** The inner loop: does another entry support this one? */
  method IsShared(lines: seq<string>, entries: seq<Entry>, e: Entry) returns (shared: bool)
    requires entries == Entries(lines, |lines|) && e in entries
    requires e.index < |lines|
    ensures shared == Shared(lines, e.index)
  {
    EntryHolds(lines, e);
    var k := 0;
    while k < |entries|
      invariant 0 <= k <= |entries| && NoneUntil(entries, e, k)
    {
      var other := entries[k];
      EntryHolds(lines, other);
      BacksIff(e, other);
      if other.index != e.index {
        if Elements(e.sources) * Elements(other.sources) == {} {
          if Overlap(WordsOf(e.line), WordsOf(other.line)) {
            SupportedBy(lines, e, other);
            return true;
          }
        }
      }
      NoneNext(entries, e, k);
      k := k + 1;
    }
    AllChecked(lines, entries, e);
    return false;
  }

  /** What holds after the entries of the first n lines have been marked. */
  ghost predicate Marked(lines: seq<string>, out: seq<string>, n: nat)
    requires n <= |lines|
  {
    && |out| == |lines|
    && (forall i :: 0 <= i < n ==> out[i] == Tagged(lines, i))
    && (forall i :: n <= i < |lines| ==> out[i] == lines[i])
  }

  lemma {:induction false} MarkedFirst(lines: seq<string>)
    ensures Upto(lines, Entries(lines, |lines|), 0) <= |lines|
    ensures Marked(lines, lines, Upto(lines, Entries(lines, |lines|), 0))
  {
    var entries := Entries(lines, |lines|);
    EntriesHold(lines, |lines|);
    if entries != [] {
      assert entries[0] in entries;
    }
    forall i | 0 <= i < Upto(lines, entries, 0) ensures lines[i] == Tagged(lines, i) {
      NoneBetween(lines, 0, i);
    }
  }

  lemma {:induction false} NextEntry(lines: seq<string>, entries: seq<Entry>, k: nat)
    requires entries == Entries(lines, |lines|) && k < |entries|
    ensures var at := Upto(lines, entries, k);
            && at < Upto(lines, entries, k + 1) <= |lines| && at < |lines| && SourcesOf(lines[at]) != []
  {
    EntriesHold(lines, |lines|);
    EntriesAscend(lines, |lines|);
    assert entries[k] in entries;
    if k + 1 < |entries| {
      assert entries[k + 1] in entries;
    }
  }

  lemma MarkedUpto(lines: seq<string>, out: seq<string>, at: nat, next: nat)
    requires at < next <= |lines| && Marked(lines, out, at)
    requires forall i :: at < i < next ==> SourcesOf(lines[i]) == []
    ensures out[at] == lines[at] && Marked(lines, out[at := Tagged(lines, at)], next)
  {}

  lemma MarkedNext(lines: seq<string>, out: seq<string>, k: nat)
    requires k < |Entries(lines, |lines|)| && Upto(lines, Entries(lines, |lines|), k) < |lines|
    requires Marked(lines, out, Upto(lines, Entries(lines, |lines|), k))
    ensures var at := Upto(lines, Entries(lines, |lines|), k);
            && out[at] == lines[at] && SourcesOf(lines[at]) != []
            && at < Upto(lines, Entries(lines, |lines|), k + 1) <= |lines|
            && Marked(lines, out[at := Tagged(lines, at)], Upto(lines, Entries(lines, |lines|), k + 1))
  {
    var entries := Entries(lines, |lines|);
    NextEntry(lines, entries, k);
    var at, next := Upto(lines, entries, k), Upto(lines, entries, k + 1);
    forall i | at < i < next ensures SourcesOf(lines[i]) == [] {
      NoneBetween(lines, k + 1, i);
    }
    MarkedUpto(lines, out, at, next);
  }

  lemma {:induction false} CountNext(lines: seq<string>, entries: seq<Entry>, k: nat)
    requires k < |entries| && entries[k].index < |lines|
    ensures CountShared(lines, entries[..k + 1]) ==
            CountShared(lines, entries[..k]) + if Shared(lines, entries[k].index) then 1 else 0
  {
    assert entries[..k + 1][..k] == entries[..k];
  }

  method ApplyTags(lines: seq<string>) returns (out: seq<string>, counts: Counts)
    ensures Marked(lines, out, |lines|)
    ensures counts.corroborated == CountShared(lines, Entries(lines, |lines|))
    ensures counts.corroborated + counts.uncorroborated == counts.taggedLines == |Entries(lines, |lines|)|
    ensures counts.sourceCount == |AllSources(lines, |lines|)|
  {
    var entries, sources := Collect(lines);
    EntriesHold(lines, |lines|);
    MarkedFirst(lines);
    out := lines;
    var yes, no := 0, 0;
    var k := 0;
    while k < |entries|
      invariant 0 <= k <= |entries| && Upto(lines, entries, k) <= |lines|
      invariant Marked(lines, out, Upto(lines, entries, k))
      invariant yes == CountShared(lines, entries[..k]) && yes + no == k
    {
      var e := entries[k];
      assert e in entries;
      MarkedNext(lines, out, k);
      CountNext(lines, entries, k);
      var shared := IsShared(lines, entries, e);
      if shared {
        yes := yes + 1;
        out := out[e.index := Mark(out[e.index], CORROBORATED)];
      } else {
        no := no + 1;
        out := out[e.index := Mark(out[e.index], UNCORROBORATED)];
      }
      k := k + 1;
    }
    assert entries[..k] == entries;
    counts := Counts(yes, no, |entries|, |sources|);
  }

  // ---------- What a tag looks like ----------

  lemma NotesAre()
    ensures Bracket(CORROBORATED) == "[corroborated]" && Bracket(UNCORROBORATED) == "[uncorroborated]"
  {}

  /** A sourced line gets its note at the end, unless it holds the note already, in either case. */
  lemma TaggedIs(lines: seq<string>, i: nat)
    requires i < |lines| && SourcesOf(lines[i]) != []
    ensures var note := if Shared(lines, i) then "[corroborated]" else "[uncorroborated]";
            Tagged(lines, i) == if Contains(Lower(lines[i]), note) then lines[i] else RStrip(lines[i]) + " " + note
  {
    NotesAre();
  }

  // ---------- What the counts are ----------

  lemma {:induction false} AllSourcesHold(lines: seq<string>, n: nat, s: string)
    requires n <= |lines|
    ensures s in AllSources(lines, n) <==> exists i :: 0 <= i < n && s in SourcesOf(lines[i])
  {
    if n > 0 {
      AllSourcesHold(lines, n - 1, s);
    }
  }

  // ---------- What the counts cannot be ----------

  lemma {:induction false} CountFinds(lines: seq<string>, entries: seq<Entry>) returns (k: nat)
    requires CountShared(lines, entries) > 0
    ensures k < |entries| && entries[k].index < |lines| && Shared(lines, entries[k].index)
  {
    var last := entries[|entries| - 1];
    if last.index < |lines| && Shared(lines, last.index) {
      return |entries| - 1;
    }
    k := CountFinds(lines, entries[..|entries| - 1]);
  }

  lemma {:induction false} CountAtLeast(lines: seq<string>, entries: seq<Entry>, j: nat, k: nat)
    requires j < k < |entries| && entries[j].index < |lines| && entries[k].index < |lines|
    requires Shared(lines, entries[j].index) && Shared(lines, entries[k].index)
    ensures CountShared(lines, entries) >= 2
  {
    if k < |entries| - 1 {
      CountAtLeast(lines, entries[..|entries| - 1], j, k);
    } else {
      CountIncludes(lines, entries[..k], j);
    }
  }

  lemma {:induction false} CountBoth(lines: seq<string>, entries: seq<Entry>, j: nat, k: nat)
    requires j < |entries| && k < |entries| && entries[j].index < |lines| && entries[k].index < |lines|
    requires entries[j].index != entries[k].index
    requires Shared(lines, entries[j].index) && Shared(lines, entries[k].index)
    ensures CountShared(lines, entries) >= 2
  {
    if j < k {
      CountAtLeast(lines, entries, j, k);
    } else {
      CountAtLeast(lines, entries, k, j);
    }
  }

  lemma {:induction false} CountIncludes(lines: seq<string>, entries: seq<Entry>, j: nat)
    requires j < |entries| && entries[j].index < |lines| && Shared(lines, entries[j].index)
    ensures CountShared(lines, entries) >= 1
  {
    if j < |entries| - 1 {
      CountIncludes(lines, entries[..|entries| - 1], j);
    }
  }

  lemma Mate(lines: seq<string>, i: nat) returns (mate: nat)
    requires i < |lines| && Shared(lines, i)
    ensures mate < |lines| && mate != i && SourcesOf(lines[mate]) != [] && Shared(lines, mate)
  {
    var j :| 0 <= j < |lines| && j != i && Supports(lines[i], lines[j]);
    SupportIsSymmetric(lines[i], lines[j]);
    return j;
  }

  lemma EntryOf(lines: seq<string>, i: nat) returns (k: nat)
    requires i < |lines| && SourcesOf(lines[i]) != []
    ensures k < |Entries(lines, |lines|)| && Entries(lines, |lines|)[k].index == i
  {
    EntriesHold(lines, |lines|);
    var e := Entry(i, lines[i], SourcesOf(lines[i]));
    assert e in Entries(lines, |lines|);
    k :| 0 <= k < |Entries(lines, |lines|)| && Entries(lines, |lines|)[k] == e;
  }

  lemma {:induction false} HasMate(lines: seq<string>, entries: seq<Entry>, k: nat)
    requires entries == Entries(lines, |lines|)
    requires k < |entries| && entries[k].index < |lines| && Shared(lines, entries[k].index)
    ensures CountShared(lines, entries) >= 2
  {
    var mate := Mate(lines, entries[k].index);
    var j := EntryOf(lines, mate);
    CountBoth(lines, entries, j, k);
  }

  /** Support is mutual, so never exactly one line is corroborated. */
  lemma {:induction false} NeverExactlyOne(lines: seq<string>)
    ensures CountShared(lines, Entries(lines, |lines|)) != 1
  {
    if CountShared(lines, Entries(lines, |lines|)) > 0 {
      var k := CountFinds(lines, Entries(lines, |lines|));
      HasMate(lines, Entries(lines, |lines|), k);
    }
  }

  /** Further lines never take a corroboration away. */
  lemma MoreLinesKeepSupport(lines: seq<string>, more: seq<string>, i: nat)
    requires i < |lines| && Shared(lines, i)
    ensures Shared(lines + more, i)
  {
    var j :| 0 <= j < |lines| && j != i && Supports(lines[i], lines[j]);
    assert (lines + more)[j] == lines[j] && (lines + more)[i] == lines[i];
  }

  /** Tagging only appends: what is kept of a line is all of it up to trailing blanks. */
  lemma {:induction false} StrippedIsPrefix(line: string)
    ensures RStrip(line) <= line
  {
    if line != "" {
      StrippedIsPrefix(line[..|line| - 1]);
    }
  }

  lemma TagsOnlyAppend(lines: seq<string>, i: nat)
    requires i < |lines|
    ensures RStrip(lines[i]) <= lines[i] && RStrip(lines[i]) <= Tagged(lines, i)
    ensures SourcesOf(lines[i]) == [] ==> Tagged(lines, i) == lines[i]
  {
    StrippedIsPrefix(lines[i]);
  }
}
