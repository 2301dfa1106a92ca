/**
 Tagging a block that has been tagged before (backend/chat_agentic.py): the tags of the first pass read
 as sources in the second.
 */
module Retagging {
  import opened CorroborationTags
  import opened Decimals
  import opened Options
  import opened Texts

  /** A line whose brackets are closed, and where no tag stands inside another bracket. */
  predicate Readable(line: string) {
    && Bracketed(line).open.None?
    && (Contains(Lower(line), Bracket(CORROBORATED)) ==> CORROBORATED in SourcesOf(line))
    && (Contains(Lower(line), Bracket(UNCORROBORATED)) ==> UNCORROBORATED in SourcesOf(line))
  }

  /** A line whose brackets are closed and which holds neither word of the tags. */
  predicate Plain(line: string) {
    Bracketed(line).open.None? && CORROBORATED !in WordsOf(line) && UNCORROBORATED !in WordsOf(line)
  }

  predicate IsTag(tag: string) {
    tag == CORROBORATED || tag == UNCORROBORATED
  }

  predicate Lowercase(s: string) {
    forall i :: 0 <= i < |s| ==> 'a' <= s[i] <= 'z'
  }

  lemma TagsAreLowercase(tag: string)
    requires IsTag(tag)
    ensures Lowercase(tag) && 4 <= |tag| <= 30
  {}

  // ---------- Lower case ----------

  lemma {:induction false} LowerConcat(a: string, b: string)
    ensures Lower(a + b) == Lower(a) + Lower(b)
  {
    if a == "" {
      assert a + b == b;
    } else {
      LowerConcat(a[1..], b);
      assert (a + b)[1..] == a[1..] + b && (a + b)[0] == a[0];
      var x := LowerChar(a[0]);
      assert [x] + (Lower(a[1..]) + Lower(b)) == [x] + Lower(a[1..]) + Lower(b);
    }
  }

  lemma {:induction false} LowerKeeps(s: string)
    requires Lowercase(s)
    ensures Lower(s) == s
  {
    if s != "" {
      LowerKeeps(s[1..]);
    }
  }

  // ---------- Words ----------

  lemma {:induction false} WordsConcat(r: Run, a: string, b: string)
    ensures ScanWords(r, a + b) == ScanWords(ScanWords(r, a), b)
  {
    if b == "" {
      assert a + b == a;
    } else {
      WordsConcat(r, a, b[..|b| - 1]);
      assert (a + b)[..|a + b| - 1] == a + b[..|b| - 1];
    }
  }

  lemma {:induction false} WordRun(r: Run, s: string)
    requires Lowercase(s)
    ensures ScanWords(r, s) == Run(r.words, r.current + s)
  {
    if s == "" {
      assert r.current + s == r.current;
    } else {
      WordRun(r, s[..|s| - 1]);
      assert r.current + s[..|s| - 1] + [s[|s| - 1]] == r.current + s;
    }
  }

  lemma OneWordChar(r: Run, c: char)
    ensures ScanWords(r, [c]) == ReadWord(r, c)
  {
    assert [c][..0] == "";
  }

  /** Reading a bracketed tag adds the tag to the words and leaves no run. */
  lemma BracketWords(r: Run, tag: string)
    requires Lowercase(tag) && |tag| >= 4
    ensures ScanWords(r, Bracket(tag)) == Run(Words(r) + {tag}, "")
  {
    assert Bracket(tag) == ['['] + tag + [']'];
    WordsConcat(r, ['['] + tag, [']']);
    WordsConcat(r, ['['], tag);
    OneWordChar(r, '[');
    WordRun(Run(Words(r), ""), tag);
    assert "" + tag == tag;
    OneWordChar(Run(Words(r), tag), ']');
  }

  lemma LowerBracket(tag: string)
    requires Lowercase(tag)
    ensures Lower(Bracket(tag)) == Bracket(tag) && Lower(" ") == " "
  {
    assert Bracket(tag) == ['['] + tag + [']'];
    LowerConcat(['['] + tag, [']']);
    LowerConcat(['['], tag);
    LowerKeeps(tag);
  }

  lemma AppendedWords(line: string, tag: string)
    requires Lowercase(tag) && |tag| >= 4
    ensures WordsOf(line + " " + Bracket(tag)) == WordsOf(line) + {tag}
  {
    var r := ScanWords(Run({}, ""), Lower(line));
    LowerConcat(line + " ", Bracket(tag));
    LowerConcat(line, " ");
    LowerBracket(tag);
    WordsConcat(Run({}, ""), Lower(line) + " ", Bracket(tag));
    WordsConcat(Run({}, ""), Lower(line), " ");
    OneWordChar(r, ' ');
    BracketWords(Run(Words(r), ""), tag);
  }

  lemma {:induction false} StrippedWords(line: string)
    ensures WordsOf(RStrip(line)) == WordsOf(line)
  {
    if line != "" && IsSpace(line[|line| - 1]) {
      var init, c := line[..|line| - 1], line[|line| - 1];
      StrippedWords(init);
      assert line == init + [c];
      LowerConcat(init, [c]);
      assert [c][1..] == "";
      WordsConcat(Run({}, ""), Lower(init), [c]);
      OneWordChar(ScanWords(Run({}, ""), Lower(init)), c);
    }
  }

  lemma {:induction false} WordsGrow(r: Run, s: string)
    ensures r.words <= ScanWords(r, s).words
  {
    if s != "" {
      WordsGrow(r, s[..|s| - 1]);
    }
  }

  lemma {:induction false} ContainsSplits(s: string, part: string) returns (a: string, b: string)
    requires Contains(s, part)
    ensures s == a + part + b
  {
    if StartsWith(s, part) {
      return "", s[|part|..];
    }
    a, b := ContainsSplits(s[1..], part);
    assert s == [s[0]] + s[1..];
    assert [s[0]] + (a + part + b) == ([s[0]] + a) + part + b;
    a := [s[0]] + a;
  }

  /** A line that holds a tag already holds its word. */
  lemma ContainedTagIsWord(line: string, tag: string)
    requires Lowercase(tag) && |tag| >= 4 && Contains(Lower(line), Bracket(tag))
    ensures tag in WordsOf(line)
  {
    var a, b := ContainsSplits(Lower(line), Bracket(tag));
    WordsConcat(Run({}, ""), a + Bracket(tag), b);
    WordsConcat(Run({}, ""), a, Bracket(tag));
    BracketWords(ScanWords(Run({}, ""), a), tag);
    WordsGrow(ScanWords(Run({}, ""), a + Bracket(tag)), b);
  }

  lemma UntaggedByWord(line: string, tag: string)
    requires IsTag(tag) && tag !in WordsOf(line)
    ensures !Contains(Lower(line), Bracket(tag))
  {
    TagsAreLowercase(tag);
    if Contains(Lower(line), Bracket(tag)) {
      ContainedTagIsWord(line, tag);
    }
  }

  // ---------- Sources ----------

  lemma {:induction false} BracketsConcat(r: Brackets, a: string, b: string)
    ensures ScanBrackets(r, a + b) == ScanBrackets(ScanBrackets(r, a), b)
  {
    if b == "" {
      assert a + b == a;
    } else {
      BracketsConcat(r, a, b[..|b| - 1]);
      assert (a + b)[..|a + b| - 1] == a + b[..|b| - 1];
    }
  }

  lemma {:induction false} InsideBracket(found: seq<string>, t: string, s: string)
    requires ']' !in s
    ensures ScanBrackets(Brackets(found, Some(t)), s) == Brackets(found, Some(t + s))
  {
    if s == "" {
      assert t + s == t;
    } else {
      InsideBracket(found, t, s[..|s| - 1]);
      assert s[|s| - 1] in s && t + s[..|s| - 1] + [s[|s| - 1]] == t + s;
    }
  }

  lemma OneBracketChar(r: Brackets, c: char)
    ensures ScanBrackets(r, [c]) == ReadBracket(r, c)
  {
    assert [c][..0] == "";
  }

  lemma ScanOpen(r: Brackets, tail: string)
    requires r.open.None? && ']' !in tail
    ensures ScanBrackets(r, "[" + tail) == Brackets(r.found, Some(tail))
  {
    BracketsConcat(r, "[", tail);
    OneBracketChar(r, '[');
    InsideBracket(r.found, "", tail);
    assert "" + tail == tail;
  }

  lemma ScanBracket(r: Brackets, source: string)
    requires r.open.None? && ']' !in source && source != ""
    ensures ScanBrackets(r, Bracket(source)) == Brackets(r.found + [source], None)
  {
    ScanOpen(r, source);
    BracketsConcat(r, "[" + source, "]");
    OneBracketChar(Brackets(r.found, Some(source)), ']');
  }

  lemma AppendedBracket(line: string, tag: string)
    requires Bracketed(line).open.None? && ']' !in tag && tag != ""
    ensures Bracketed(line + " " + Bracket(tag)) == Brackets(Bracketed(line).found + [tag], None)
  {
    var r, empty := Bracketed(line), Brackets([], None);
    BracketsConcat(empty, line + " ", Bracket(tag));
    BracketsConcat(empty, line, " ");
    OneBracketChar(r, ' ');
    ScanBracket(r, tag);
  }

  lemma {:induction false} StrippedBrackets(line: string)
    requires Bracketed(line).open.None?
    ensures Bracketed(RStrip(line)) == Bracketed(line)
  {
    if line != "" && IsSpace(line[|line| - 1]) {
      StrippedBrackets(line[..|line| - 1]);
    }
  }

  lemma {:induction false} FoundBefore(found: seq<string>, b: Brackets, text: string)
    ensures var rest := ScanBrackets(b, text);
            ScanBrackets(Brackets(found + b.found, b.open), text) == Brackets(found + rest.found, rest.open)
  {
    if text != "" {
      FoundBefore(found, b, text[..|text| - 1]);
      var rest := ScanBrackets(b, text[..|text| - 1]);
      if rest.open.Some? {
        assert found + rest.found + [rest.open.value] == found + (rest.found + [rest.open.value]);
      }
    }
  }

  lemma {:induction false} NoBracket(r: Brackets, text: string)
    requires r.open.None? && '[' !in text
    ensures ScanBrackets(r, text) == r
  {
    if text != "" {
      assert text[|text| - 1] in text;
      NoBracket(r, text[..|text| - 1]);
    }
  }

  /**
   How a line is read, bracket by bracket from the left: up to the first opening bracket nothing is found; what
   stands from there to the next closing bracket is one find, unless it is empty, and reading starts afresh
   behind it; without a closing bracket nothing more is found.
   */
  lemma ReadFromLeft(text: string, inside: string, rest: string)
    requires '[' !in text && ']' !in inside
    ensures Bracketed(text) == Brackets([], None)
    ensures Bracketed(text + "[" + inside) == Brackets([], Some(inside))
    ensures Bracketed(text + "[" + inside + "]" + rest) ==
            var later := Bracketed(rest);
            if inside == "" then later else Brackets([inside] + later.found, later.open)
  {
    var empty, all := Brackets([], None), text + "[" + inside + "]" + rest;
    NoBracket(empty, text);
    BracketsConcat(empty, text, "[" + inside);
    assert text + ("[" + inside) == text + "[" + inside;
    ScanOpen(empty, inside);
    BracketsConcat(empty, text + "[" + inside, "]");
    OneBracketChar(Brackets([], Some(inside)), ']');
    BracketsConcat(empty, text + "[" + inside + "]", rest);
    if inside != "" {
      assert [] + [inside] == [inside] && [inside] + [] == [inside];
      FoundBefore([inside], empty, rest);
    }
  }

  lemma {:induction false} UndottedKeeps(s: string)
    requires Lowercase(s)
    ensures Undotted(s) == s
  {
    if s != "" {
      UndottedKeeps(s[..|s| - 1]);
    }
  }

  lemma TagIsNoMarker(tag: string)
    requires IsTag(tag)
    ensures tag !in {"crag fallback", "low confidence", "top", "high confidence"}
  {
    if tag == CORROBORATED {
      assert |tag| == 12;
    } else {
      assert |tag| == 14 && tag[0] == 'u' && "low confidence"[0] == 'l';
    }
  }

  lemma LettersAreNoNumber(tag: string)
    requires Lowercase(tag) && tag != ""
    ensures !AllDigits(Undotted(tag))
  {
    UndottedKeeps(tag);
    assert tag[0] in tag && !IsDigit(tag[0]);
  }

  lemma {:induction false} TagIsSource(tag: string)
    requires IsTag(tag)
    ensures IsRealSource(tag) && Lower(tag) == tag
  {
    TagsAreLowercase(tag);
    LettersAreNoNumber(tag);
    LowerKeeps(tag);
    TagIsNoMarker(tag);
  }

  // ---------- A tagged line ----------

  lemma PlainIsReadable(line: string)
    requires Plain(line)
    ensures Readable(line)
    ensures !Contains(Lower(line), Bracket(CORROBORATED)) && !Contains(Lower(line), Bracket(UNCORROBORATED))
  {
    UntaggedByWord(line, CORROBORATED);
    UntaggedByWord(line, UNCORROBORATED);
  }

  lemma SourcesSnoc(found: seq<string>, source: string)
    requires IsRealSource(source) && Lower(source) == source
    ensures RealSources(found + [source]) == RealSources(found) + [source]
  {
    assert (found + [source])[..|found|] == found;
  }

  lemma MarkAppends(line: string, tag: string)
    requires !Contains(Lower(line), Bracket(tag))
    ensures Mark(line, tag) == RStrip(line) + " " + Bracket(tag)
  {}

  lemma TaggedSources(line: string, tag: string)
    requires Bracketed(line).open.None? && IsTag(tag) && !Contains(Lower(line), Bracket(tag))
    ensures SourcesOf(Mark(line, tag)) == SourcesOf(line) + [tag]
  {
    MarkAppends(line, tag);
    TagsAreLowercase(tag);
    StrippedBrackets(line);
    AppendedBracket(RStrip(line), tag);
    TagIsSource(tag);
    SourcesSnoc(Bracketed(line).found, tag);
  }

  lemma TaggedWords(line: string, tag: string)
    requires IsTag(tag)
    ensures WordsOf(Mark(line, tag)) == WordsOf(line) + {tag}
  {
    TagsAreLowercase(tag);
    if Contains(Lower(line), Bracket(tag)) {
      ContainedTagIsWord(line, tag);
    } else {
      StrippedWords(line);
      AppendedWords(RStrip(line), tag);
    }
  }

  /** A tag adds exactly itself: to the words of any line, and to the sources of a readable one. */
  lemma TaggedLine(line: string, tag: string)
    requires IsTag(tag)
    ensures WordsOf(Mark(line, tag)) == WordsOf(line) + {tag}
    ensures Readable(line) ==> Elements(SourcesOf(Mark(line, tag))) == Elements(SourcesOf(line)) + {tag}
  {
    TaggedWords(line, tag);
    if Readable(line) {
      if Contains(Lower(line), Bracket(tag)) {
        assert Elements(SourcesOf(line)) == Elements(SourcesOf(line)) + {tag};
      } else {
        TaggedSources(line, tag);
        assert Elements(SourcesOf(line) + [tag]) == Elements(SourcesOf(line)) + {tag};
      }
    }
  }

  lemma AddedWords(v: set<string>, w: set<string>, a: string, b: string)
    requires a != b && a !in v + w && b !in v + w && Overlap(v + {a}, w + {b})
    ensures Overlap(v, w)
  {
    var common, all := v * w, v + w;
    assert (v + {a}) * (w + {b}) == common;
    assert (v + {a}) + (w + {b}) == all + {a} + {b};
    assert v == {} || w == {} ==> common == {};
  }

  lemma SmallerApart(a: set<string>, b: set<string>, more: set<string>, extra: set<string>)
    requires (a + more) * (b + extra) == {}
    ensures a * b == {}
  {
    assert a * b <= (a + more) * (b + extra);
  }

  /** Two plain lines that support each other once tagged did so before, and their tags differ. */
  lemma SupportWasThere(a: string, b: string, s: string, t: string)
    requires Plain(a) && Plain(b) && IsTag(s) && IsTag(t) && SourcesOf(a) != [] && SourcesOf(b) != []
    requires Supports(Mark(a, s), Mark(b, t))
    ensures s != t && Supports(a, b)
  {
    PlainIsReadable(a);
    PlainIsReadable(b);
    TaggedLine(a, s);
    TaggedLine(b, t);
    assert s != t;
    SmallerApart(Elements(SourcesOf(a)), Elements(SourcesOf(b)), {s}, {t});
    AddedWords(WordsOf(a), WordsOf(b), s, t);
  }

  lemma NotSharedAgain(lines: seq<string>, out: seq<string>, i: nat)
    requires Marked(lines, out, |lines|) && i < |lines|
    requires forall line :: line in lines ==> Plain(line)
    ensures !Shared(out, i)
  {
    forall j | 0 <= j < |out| && j != i ensures !Supports(out[i], out[j]) {
      assert lines[i] in lines && lines[j] in lines;
      assert out[i] == Tagged(lines, i) && out[j] == Tagged(lines, j);
      if SourcesOf(lines[i]) != [] && SourcesOf(lines[j]) != [] {
        PairNotShared(lines, i, j);
      }
    }
  }

  lemma SameTag(lines: seq<string>, i: nat, j: nat)
    requires i < |lines| && j < |lines| && i != j && Supports(lines[i], lines[j])
    ensures TagOf(lines, i) == TagOf(lines, j)
  {
    SupportIsSymmetric(lines[i], lines[j]);
    assert Shared(lines, i) && Shared(lines, j);
  }

  lemma PairNotShared(lines: seq<string>, i: nat, j: nat)
    requires i < |lines| && j < |lines| && i != j && Plain(lines[i]) && Plain(lines[j])
    requires SourcesOf(lines[i]) != [] && SourcesOf(lines[j]) != []
    ensures !Supports(Mark(lines[i], TagOf(lines, i)), Mark(lines[j], TagOf(lines, j)))
  {
    if Supports(Mark(lines[i], TagOf(lines, i)), Mark(lines[j], TagOf(lines, j))) {
      SupportWasThere(lines[i], lines[j], TagOf(lines, i), TagOf(lines, j));
      SameTag(lines, i, j);
    }
  }

  /**
   On a block of plain lines a second pass corroborates nothing, whatever the first one found: lines with
   equal tags now share a source, and lines with different tags did not support each other.
   */
  lemma {:induction false} SecondPassCorroboratesNothing(lines: seq<string>, out: seq<string>)
    requires Marked(lines, out, |lines|) && forall line :: line in lines ==> Plain(line)
    ensures CountShared(out, Entries(out, |out|)) == 0
  {
    if CountShared(out, Entries(out, |out|)) > 0 {
      var k := CountFinds(out, Entries(out, |out|));
      NotSharedAgain(lines, out, Entries(out, |out|)[k].index);
    }
  }

  // ---------- When the second pass changes the block ----------

  lemma {:induction false} ContainsAt(s: string, part: string, q: nat)
    requires q + |part| <= |s| && s[q..q + |part|] == part
    ensures Contains(s, part)
  {
    if q > 0 {
      assert s[1..][q - 1..q - 1 + |part|] == s[q..q + |part|];
      ContainsAt(s[1..], part, q - 1);
    }
  }

  lemma ContainedAt(s: string, part: string) returns (q: nat)
    requires Contains(s, part)
    ensures q + |part| <= |s| && s[q..q + |part|] == part
  {
    var a, b := ContainsSplits(s, part);
    q := |a|;
  }

  lemma BracketHasNoBlank(other: string, x: nat)
    requires ' ' !in other && x < |Bracket(other)|
    ensures Bracket(other)[x] != ' '
  {
    if 0 < x < |other| + 1 {
      assert Bracket(other)[x] == other[x - 1] && other[x - 1] in other;
    }
  }

  lemma OnlyOpening(tag: string, x: nat)
    requires '[' !in tag && 0 < x < |Bracket(tag)|
    ensures Bracket(tag)[x] != '['
  {
    if x < |tag| + 1 {
      assert Bracket(tag)[x] == tag[x - 1] && tag[x - 1] in tag;
    }
  }

  /** No other tag can be read in what is appended. */
  lemma NotLater(a: string, tag: string, other: string, q: nat)
    requires tag != "" && other != "" && tag[0] != other[0] && '[' !in tag && ' ' !in other
    requires |a| < q + |Bracket(other)| <= |a + " " + Bracket(tag)|
    ensures (a + " " + Bracket(tag))[q..q + |Bracket(other)|] != Bracket(other)
  {
    var s, part := a + " " + Bracket(tag), Bracket(other);
    var slice := s[q..q + |part|];
    if q <= |a| {
      assert slice[|a| - q] == s[|a|] == ' ';
      BracketHasNoBlank(other, |a| - q);
    } else if q == |a| + 1 {
      assert slice[1] == s[q + 1] == Bracket(tag)[1] == tag[0] && part[1] == other[0];
    } else {
      assert slice[0] == s[q] == Bracket(tag)[q - |a| - 1];
      OnlyOpening(tag, q - |a| - 1);
    }
  }

  /** What is found in a text with a bracket appended is found before it, or is that bracket. */
  lemma OnlyBefore(a: string, tag: string, other: string)
    requires tag != "" && other != "" && tag[0] != other[0] && '[' !in tag && ' ' !in other
    requires Contains(a + " " + Bracket(tag), Bracket(other))
    ensures Contains(a, Bracket(other))
  {
    var s, part := a + " " + Bracket(tag), Bracket(other);
    var q := ContainedAt(s, part);
    assert q + |part| <= |a| by {
      if |a| < q + |part| {
        NotLater(a, tag, other, q);
      }
    }
    assert s[q..q + |part|] == a[q..q + |part|];
    ContainsAt(a, part, q);
  }

  lemma LowerStripped(line: string)
    ensures Lower(RStrip(line)) <= Lower(line)
  {
    StrippedIsPrefix(line);
    LowerConcat(RStrip(line), line[|RStrip(line)|..]);
    assert RStrip(line) + line[|RStrip(line)|..] == line;
  }

  lemma ContainsLonger(s: string, longer: string, part: string)
    requires Contains(s, part) && s <= longer
    ensures Contains(longer, part)
  {
    var q := ContainedAt(s, part);
    assert longer[q..q + |part|] == s[q..q + |part|];
    ContainsAt(longer, part, q);
  }

  lemma LowerMarked(line: string, tag: string)
    requires IsTag(tag)
    ensures Lower(RStrip(line) + " " + Bracket(tag)) == Lower(RStrip(line)) + " " + Bracket(tag)
  {
    TagsAreLowercase(tag);
    LowerConcat(RStrip(line) + " ", Bracket(tag));
    LowerConcat(RStrip(line), " ");
    LowerBracket(tag);
  }

  /** A line tagged with one tag holds the other one only if it did before. */
  lemma OtherTag(line: string, tag: string, other: string)
    requires IsTag(tag) && IsTag(other) && tag != other
    requires Contains(Lower(Mark(line, tag)), Bracket(other))
    ensures Contains(Lower(line), Bracket(other))
  {
    if !Contains(Lower(line), Bracket(tag)) {
      LowerMarked(line, tag);
      assert CORROBORATED[0] == 'c' && UNCORROBORATED[0] == 'u';
      OnlyBefore(Lower(RStrip(line)), tag, other);
      LowerStripped(line);
      ContainsLonger(Lower(RStrip(line)), Lower(line), Bracket(other));
    }
  }

  /** A tagged line holds its tag. */
  lemma HoldsTag(line: string, tag: string)
    requires IsTag(tag)
    ensures Contains(Lower(Mark(line, tag)), Bracket(tag))
  {
    if !Contains(Lower(line), Bracket(tag)) {
      LowerMarked(line, tag);
      var a, b := Lower(RStrip(line)) + " ", Bracket(tag);
      assert (a + b)[|a|..|a| + |b|] == b;
      ContainsAt(a + b, b, |a|);
    }
  }

  /** Marking changes a line exactly when it does not hold the tag. */
  lemma MarkChangesIff(line: string, tag: string)
    requires IsTag(tag)
    ensures Mark(line, tag) == line <==> Contains(Lower(line), Bracket(tag))
  {
    HoldsTag(line, tag);
  }

  /** What is known of a readable line after the first pass, with its tag and the other one. */
  lemma FirstPassAt(lines: seq<string>, out: seq<string>, i: nat)
    requires Marked(lines, out, |lines|) && i < |lines| && Readable(lines[i]) && SourcesOf(lines[i]) != []
    ensures Elements(SourcesOf(out[i])) == Elements(SourcesOf(lines[i])) + {TagOf(lines, i)}
    ensures SourcesOf(out[i]) != [] && Contains(Lower(out[i]), Bracket(TagOf(lines, i)))
    ensures var other := if Shared(lines, i) then UNCORROBORATED else CORROBORATED;
            Contains(Lower(out[i]), Bracket(other)) ==> other in Elements(SourcesOf(lines[i]))
  {
    var tag := TagOf(lines, i);
    assert out[i] == Tagged(lines, i);
    TaggedLine(lines[i], tag);
    HoldsTag(lines[i], tag);
    assert tag in Elements(SourcesOf(out[i]));
    var other := if Shared(lines, i) then UNCORROBORATED else CORROBORATED;
    assert |CORROBORATED| == 12 && |UNCORROBORATED| == 14;
    if Contains(Lower(out[i]), Bracket(other)) {
      OtherTag(lines[i], tag, other);
    }
  }

  lemma {:induction false} UnsharedTag(lines: seq<string>, i: nat)
    requires i < |lines| && SourcesOf(lines[i]) != [] && CountShared(lines, Entries(lines, |lines|)) == 0
    ensures !Shared(lines, i)
  {
    if Shared(lines, i) {
      var k := EntryOf(lines, i);
      CountIncludes(lines, Entries(lines, |lines|), k);
    }
  }

  /** Lines with the same tag share it as a source. */
  lemma SameTagApart(lines: seq<string>, out: seq<string>, i: nat, j: nat)
    requires Marked(lines, out, |lines|) && i < |lines| && j < |lines|
    requires Readable(lines[i]) && Readable(lines[j]) && SourcesOf(lines[i]) != [] && SourcesOf(lines[j]) != []
    requires Shared(lines, i) <==> Shared(lines, j)
    ensures !Supports(out[i], out[j])
  {
    FirstPassAt(lines, out, i);
    FirstPassAt(lines, out, j);
    assert TagOf(lines, i) in Elements(SourcesOf(out[i])) * Elements(SourcesOf(out[j]));
  }

  lemma StaysUnsourced(lines: seq<string>, out: seq<string>, i: nat)
    requires Marked(lines, out, |lines|) && i < |lines|
    requires SourcesOf(lines[i]) == []
    ensures SourcesOf(out[i]) == []
  {
    assert out[i] == Tagged(lines, i);
  }

  lemma {:induction false} KeptWhenUnshared(lines: seq<string>, out: seq<string>, i: nat)
    requires Marked(lines, out, |lines|) && i < |lines| && forall line :: line in lines ==> Readable(line)
    requires CountShared(lines, Entries(lines, |lines|)) == 0
    ensures Tagged(out, i) == out[i]
  {
    assert lines[i] in lines;
    if SourcesOf(lines[i]) == [] {
      StaysUnsourced(lines, out, i);
    } else {
      UnsharedTag(lines, i);
      forall j | 0 <= j < |out| && j != i ensures !Supports(out[i], out[j]) {
        assert lines[j] in lines;
        if SourcesOf(lines[j]) == [] {
          StaysUnsourced(lines, out, j);
        } else {
          UnsharedTag(lines, j);
          SameTagApart(lines, out, i, j);
        }
      }
      FirstPassAt(lines, out, i);
      MarkChangesIff(out[i], UNCORROBORATED);
    }
  }

  lemma NotInBoth(a: set<string>, b: set<string>, x: string)
    requires a * b == {}
    ensures !(x in a && x in b)
  {
    assert x in a * b <==> x in a && x in b;
  }

  /** Of two lines that supported each other, one does not name "uncorroborated" as its source. */
  lemma OneLacks(lines: seq<string>, i: nat) returns (k: nat)
    requires i < |lines| && Shared(lines, i)
    ensures k < |lines| && Shared(lines, k) && SourcesOf(lines[k]) != []
    ensures UNCORROBORATED !in Elements(SourcesOf(lines[k]))
  {
    var j :| 0 <= j < |lines| && j != i && Supports(lines[i], lines[j]);
    SupportIsSymmetric(lines[i], lines[j]);
    assert Shared(lines, j);
    k := if UNCORROBORATED in Elements(SourcesOf(lines[i])) then j else i;
    NotInBoth(Elements(SourcesOf(lines[i])), Elements(SourcesOf(lines[j])), UNCORROBORATED);
  }

  /** A corroborated line that the second pass corroborates again is supported by one that it then changes. */
  lemma SupporterChanges(lines: seq<string>, out: seq<string>, i: nat, k: nat)
    requires Marked(lines, out, |lines|) && i < |lines| && k < |lines| && i != k
    requires Readable(lines[i]) && Readable(lines[k]) && SourcesOf(lines[i]) != [] && Shared(lines, i)
    requires Supports(out[i], out[k])
    ensures Tagged(out, k) != out[k]
  {
    if SourcesOf(lines[k]) == [] {
      StaysUnsourced(lines, out, k);
    } else {
      if Shared(lines, k) {
        SameTagApart(lines, out, i, k);
      }
      FirstPassAt(lines, out, i);
      FirstPassAt(lines, out, k);
      SupportIsSymmetric(out[i], out[k]);
      assert Shared(out, k);
      assert CORROBORATED in Elements(SourcesOf(out[i]));
      NotInBoth(Elements(SourcesOf(out[i])), Elements(SourcesOf(out[k])), CORROBORATED);
      MarkChangesIff(out[k], CORROBORATED);
    }
  }

  lemma {:induction false} SomeLineChanges(lines: seq<string>, out: seq<string>) returns (k: nat)
    requires Marked(lines, out, |lines|) && forall line :: line in lines ==> Readable(line)
    requires CountShared(lines, Entries(lines, |lines|)) > 0
    ensures k < |out| && Tagged(out, k) != out[k]
  {
    var i := SomeShared(lines);
    i := OneLacks(lines, i);
    assert lines[i] in lines;
    FirstPassAt(lines, out, i);
    if Shared(out, i) {
      k :| 0 <= k < |out| && k != i && Supports(out[i], out[k]);
      assert lines[k] in lines;
      SupporterChanges(lines, out, i, k);
    } else {
      k := i;
      MarkChangesIff(out[i], UNCORROBORATED);
    }
  }

  /**
   Tagging is idempotent on a block of readable lines exactly when it corroborates nothing there. The lines
   may hold the words of the tags and the tags themselves; tagged lines do, and stay readable.
   */
  lemma {:induction false} IdempotentIff(lines: seq<string>, out: seq<string>, again: seq<string>)
    requires Marked(lines, out, |lines|) && Marked(out, again, |out|)
    requires forall line :: line in lines ==> Readable(line)
    ensures again == out <==> CountShared(lines, Entries(lines, |lines|)) == 0
  {
    if CountShared(lines, Entries(lines, |lines|)) == 0 {
      forall i | 0 <= i < |out| ensures again[i] == out[i] {
        KeptWhenUnshared(lines, out, i);
      }
    } else {
      var k := SomeLineChanges(lines, out);
      assert again[k] != out[k];
    }
  }

  lemma MarkedIsReadable(line: string, tag: string)
    requires Readable(line) && IsTag(tag)
    ensures Readable(Mark(line, tag))
  {
    var other := if tag == CORROBORATED then UNCORROBORATED else CORROBORATED;
    TagsAreLowercase(tag);
    assert |CORROBORATED| == 12 && |UNCORROBORATED| == 14;
    StrippedBrackets(line);
    AppendedBracket(RStrip(line), tag);
    TaggedLine(line, tag);
    assert tag in Elements(SourcesOf(Mark(line, tag)));
    if Contains(Lower(Mark(line, tag)), Bracket(other)) {
      OtherTag(line, tag, other);
      assert other in Elements(SourcesOf(line));
    }
  }

  /** A tagged block of readable lines is one again, so the same holds for every further pass. */
  lemma StaysReadable(lines: seq<string>, out: seq<string>)
    requires Marked(lines, out, |lines|) && forall line :: line in lines ==> Readable(line)
    ensures forall line :: line in out ==> Readable(line)
  {
    forall i | 0 <= i < |out| ensures Readable(out[i]) {
      assert lines[i] in lines && out[i] == Tagged(lines, i);
      MarkedIsReadable(lines[i], TagOf(lines, i));
    }
  }

  lemma {:induction false} SomeShared(lines: seq<string>) returns (i: nat)
    requires CountShared(lines, Entries(lines, |lines|)) > 0
    ensures i < |lines| && SourcesOf(lines[i]) != [] && Shared(lines, i)
  {
    EntriesHold(lines, |lines|);
    var k := CountFinds(lines, Entries(lines, |lines|));
    assert Entries(lines, |lines|)[k] in Entries(lines, |lines|);
    i := Entries(lines, |lines|)[k].index;
  }

  // ---------- Two lines that do change ----------

  lemma {:induction false} OutsideBracket(r: Brackets, s: string)
    requires r.open.None? && Lowercase(s)
    ensures ScanBrackets(r, s) == r
  {
    if s != "" {
      OutsideBracket(r, s[..|s| - 1]);
    }
  }

  lemma ShortWordIsSource(source: string)
    requires Lowercase(source) && 4 <= |source| <= 11
    ensures RealSources([source]) == [source]
  {
    LettersAreNoNumber(source);
    LowerKeeps(source);
    assert [source][..0] == [];
  }

  /** A line of one word and one source. */
  function SimpleLine(word: string, source: string): string {
    word + " " + Bracket(source)
  }

  lemma SimpleSources(word: string, source: string)
    requires Lowercase(word) && Lowercase(source) && 4 <= |source| <= 11
    ensures SourcesOf(SimpleLine(word, source)) == [source] && Bracketed(SimpleLine(word, source)).open.None?
  {
    OutsideBracket(Brackets([], None), word);
    AppendedBracket(word, source);
    assert [] + [source] == [source];
    ShortWordIsSource(source);
  }

  lemma RunOfOne(word: string)
    requires |word| >= 4
    ensures Words(Run({}, "" + word)) == {word}
  {
    assert "" + word == word && {} + {word} == {word};
  }

  lemma OneWord(word: string)
    requires Lowercase(word) && |word| >= 4
    ensures WordsOf(word) == {word}
  {
    LowerKeeps(word);
    WordRun(Run({}, ""), word);
    RunOfOne(word);
  }

  lemma SimpleWords(word: string, source: string)
    requires Lowercase(word) && |word| >= 4 && Lowercase(source) && 4 <= |source|
    ensures WordsOf(SimpleLine(word, source)) == {word, source}
  {
    OneWord(word);
    AppendedWords(word, source);
    assert {word} + {source} == {word, source};
  }

  lemma SimplePlain(word: string, source: string)
    requires Lowercase(word) && 4 <= |word| <= 11 && Lowercase(source) && 4 <= |source| <= 11
    ensures Plain(SimpleLine(word, source))
  {
    SimpleSources(word, source);
    SimpleWords(word, source);
    assert |CORROBORATED| == 12 && |UNCORROBORATED| == 14;
  }

  lemma SimplePair(word: string, s: string, t: string)
    requires Lowercase(word) && |word| >= 4 && s != t && word != s && word != t
    requires Lowercase(s) && 4 <= |s| <= 11 && Lowercase(t) && 4 <= |t| <= 11
    ensures Supports(SimpleLine(word, s), SimpleLine(word, t))
  {
    SimpleSources(word, s);
    SimpleSources(word, t);
    SimpleWords(word, s);
    SimpleWords(word, t);
    assert {word, s} * {word, t} == {word} && {word, s} + {word, t} == {word, s, t};
    assert Elements([s]) == {s} && Elements([t]) == {t};
  }

  lemma PairIsCorroborated(a: string, b: string)
    requires Supports(a, b)
    ensures CountShared([a, b], Entries([a, b], 2)) == 2
  {
    var lines := [a, b];
    SupportIsSymmetric(a, b);
    assert Supports(lines[0], lines[1]) && Supports(lines[1], lines[0]);
    assert Shared(lines, 0) && Shared(lines, 1);
    var x, y := Entry(0, a, SourcesOf(a)), Entry(1, b, SourcesOf(b));
    assert Entries(lines, 0) == [] && Entries(lines, 1) == [x] && Entries(lines, 2) == [x, y];
    PairCount(lines, x, y);
  }

  lemma {:induction false} PairCount(lines: seq<string>, x: Entry, y: Entry)
    requires x.index < |lines| && y.index < |lines| && Shared(lines, x.index) && Shared(lines, y.index)
    ensures CountShared(lines, [x, y]) == 2
  {
    var entries := [x, y];
    CountNext(lines, entries, 0);
    CountNext(lines, entries, 1);
    assert entries[..0] == [] && entries[..2] == entries;
  }

  lemma PairChanges(word: string, s: string, t: string)
    requires Lowercase(word) && 4 <= |word| <= 11 && s != t && word != s && word != t
    requires Lowercase(s) && 4 <= |s| <= 11 && Lowercase(t) && 4 <= |t| <= 11
    ensures var lines := [SimpleLine(word, s), SimpleLine(word, t)];
            (forall line :: line in lines ==> Plain(line)) && CountShared(lines, Entries(lines, 2)) == 2
  {
    SimplePlain(word, s);
    SimplePlain(word, t);
    SimplePair(word, s, t);
    PairIsCorroborated(SimpleLine(word, s), SimpleLine(word, t));
  }

  /** Both lines of the block "flood [usgs]", "flood [gdacs]" are corroborated, so a second pass changes both. */
  lemma {:induction false} TwoLinesChange()
    ensures var lines := [SimpleLine("flood", "usgs"), SimpleLine("flood", "gdacs")];
            (forall line :: line in lines ==> Plain(line)) && CountShared(lines, Entries(lines, 2)) == 2
  {
    PairChanges("flood", "usgs", "gdacs");
  }

  // ---------- Lines that are not readable ----------

  /** A tag appended to an open bracket becomes a part of what the bracket holds. */
  lemma OpenAppended(line: string, found: seq<string>, tail: string, tag: string)
    requires Bracketed(line) == Brackets(found, Some(tail)) && ']' !in tag
    ensures Bracketed(line + " " + Bracket(tag)) == Brackets(found + [tail + " [" + tag], None)
  {
    var empty, inside := Brackets([], None), " [" + tag;
    assert line + " " + Bracket(tag) == line + inside + "]" && tail + " [" + tag == tail + inside;
    BracketsConcat(empty, line + inside, "]");
    BracketsConcat(empty, line, inside);
    InsideBracket(found, tail, inside);
    OneBracketChar(Brackets(found, Some(tail + inside)), ']');
  }

  /** What an open bracket holds once a tag has been appended to it. */
  function Swallowed(tail: char): string {
    [tail] + " [" + UNCORROBORATED
  }

  lemma {:induction false} UndottedHas(s: string, c: char)
    requires c in s && c != '.' && c != '-'
    ensures c in Undotted(s)
  {
    if s[|s| - 1] != c {
      assert s == s[..|s| - 1] + [s[|s| - 1]];
      UndottedHas(s[..|s| - 1], c);
    }
  }

  lemma LongIsSource(s: string)
    requires '[' in s && 16 <= |s| <= 30 && Lower(s) == s
    ensures IsRealSource(s)
  {
    UndottedHas(s, '[');
    assert !IsDigit('[');
  }

  lemma LowerJoint(tail: char)
    requires 'a' <= tail <= 'z'
    ensures Lower([tail] + " [") == [tail] + " ["
  {
    LowerKeeps([tail]);
    LowerConcat([tail], " [");
    LowerConcat(" ", "[");
    assert " [" == " " + "[";
  }

  lemma LowerSwallowed(tail: char)
    requires 'a' <= tail <= 'z'
    ensures Lower(Swallowed(tail)) == Swallowed(tail)
  {
    LowerJoint(tail);
    TagsAreLowercase(UNCORROBORATED);
    LowerKeeps(UNCORROBORATED);
    LowerConcat([tail] + " [", UNCORROBORATED);
  }

  lemma SwallowedIsSource(tail: char)
    requires 'a' <= tail <= 'z'
    ensures IsRealSource(Swallowed(tail)) && Lower(Swallowed(tail)) == Swallowed(tail) && |Swallowed(tail)| == 17
  {
    LowerSwallowed(tail);
    assert |UNCORROBORATED| == 14 && Swallowed(tail)[2] == '[';
    LongIsSource(Swallowed(tail));
  }

  lemma ShortIsSource(source: string)
    requires Lowercase(source) && 1 <= |source| <= 11 && source != "top"
    ensures IsRealSource(source) && Lower(source) == source
  {
    LettersAreNoNumber(source);
    LowerKeeps(source);
  }

  /** An open bracket that holds one letter so far. */
  function Opened(tail: char): string { "[" + [tail] }

  /** A bracketed source and an open bracket behind it. */
  function OpenLine(source: string, tail: char): string {
    Bracket(source) + " " + Opened(tail)
  }

  lemma OpenLineBrackets(source: string, tail: char)
    requires Lowercase(source) && source != "" && 'a' <= tail <= 'z'
    ensures Bracketed(OpenLine(source, tail)) == Brackets([source], Some([tail]))
  {
    var empty := Brackets([], None);
    BracketsConcat(empty, Bracket(source) + " ", Opened(tail));
    BracketsConcat(empty, Bracket(source), " ");
    ScanBracket(empty, source);
    assert [] + [source] == [source];
    OneBracketChar(Brackets([source], None), ' ');
    ScanOpen(Brackets([source], None), [tail]);
  }

  lemma OpenedWords(r: Run, tail: char)
    requires 'a' <= tail <= 'z' && r.current == ""
    ensures Words(ScanWords(r, Opened(tail))) == r.words
  {
    WordsConcat(r, "[", [tail]);
    OneWordChar(r, '[');
    OneWordChar(Run(r.words, ""), tail);
  }

  lemma LowerOpened(tail: char)
    requires 'a' <= tail <= 'z'
    ensures Lower(Opened(tail)) == Opened(tail)
  {
    LowerConcat("[", [tail]);
    LowerKeeps([tail]);
  }

  lemma LowerOpenLine(source: string, tail: char)
    requires Lowercase(source) && 'a' <= tail <= 'z'
    ensures Lower(OpenLine(source, tail)) == OpenLine(source, tail)
  {
    LowerConcat(Bracket(source) + " ", Opened(tail));
    LowerConcat(Bracket(source), " ");
    LowerBracket(source);
    LowerOpened(tail);
  }

  lemma OpenLineWords(source: string, tail: char)
    requires Lowercase(source) && |source| >= 4 && 'a' <= tail <= 'z'
    ensures WordsOf(OpenLine(source, tail)) == {source}
  {
    var r := Run({}, "");
    LowerOpenLine(source, tail);
    WordsConcat(r, Bracket(source) + " ", Opened(tail));
    WordsConcat(r, Bracket(source), " ");
    BracketWords(r, source);
    assert Words(r) + {source} == {source};
    OneWordChar(Run({source}, ""), ' ');
    OpenedWords(Run({source}, ""), tail);
  }

  lemma TwoSources(a: string, b: string)
    requires IsRealSource(a) && Lower(a) == a && IsRealSource(b) && Lower(b) == b
    ensures RealSources([a]) == [a] && RealSources([a, b]) == [a, b]
  {
    SourcesSnoc([], a);
    SourcesSnoc([a], b);
    assert [] + [a] == [a] && [a] + [b] == [a, b];
  }

  /** What the tag makes of a line that ends in an open bracket. */
  lemma OpenMarked(line: string, found: seq<string>, tail: char)
    requires Bracketed(line) == Brackets(found, Some([tail])) && UNCORROBORATED !in WordsOf(line)
    requires line != "" && line[|line| - 1] == tail && 'a' <= tail <= 'z'
    ensures Mark(line, UNCORROBORATED) == line + " " + Bracket(UNCORROBORATED)
    ensures Bracketed(Mark(line, UNCORROBORATED)) == Brackets(found + [Swallowed(tail)], None)
    ensures WordsOf(Mark(line, UNCORROBORATED)) == WordsOf(line) + {UNCORROBORATED}
  {
    MarkNoStrip(line, UNCORROBORATED);
    TaggedWords(line, UNCORROBORATED);
    TagsAreLowercase(UNCORROBORATED);
    OpenAppended(line, found, [tail], UNCORROBORATED);
  }

  lemma MarkNoStrip(line: string, tag: string)
    requires IsTag(tag) && tag !in WordsOf(line) && line != "" && 'a' <= line[|line| - 1] <= 'z'
    ensures Mark(line, tag) == line + " " + Bracket(tag)
  {
    UntaggedByWord(line, tag);
    MarkAppends(line, tag);
  }

  lemma OpenLineSources(source: string, tail: char)
    requires Lowercase(source) && 4 <= |source| <= 11 && 'a' <= tail <= 'z'
    ensures SourcesOf(OpenLine(source, tail)) == [source]
    ensures RealSources([source] + [Swallowed(tail)]) == [source, Swallowed(tail)]
  {
    OpenLineBrackets(source, tail);
    ShortIsSource(source);
    SwallowedIsSource(tail);
    TwoSources(source, Swallowed(tail));
    assert [source] + [Swallowed(tail)] == [source, Swallowed(tail)];
  }

  lemma OpenLineMarked(source: string, tail: char)
    requires Lowercase(source) && 4 <= |source| <= 11 && 'a' <= tail <= 'z'
    ensures var marked := Mark(OpenLine(source, tail), UNCORROBORATED);
            SourcesOf(marked) == [source, Swallowed(tail)] && WordsOf(marked) == {source, UNCORROBORATED}
  {
    var line := OpenLine(source, tail);
    assert |UNCORROBORATED| == 14 && line[|line| - 1] == tail;
    OpenLineBrackets(source, tail);
    OpenLineWords(source, tail);
    OpenLineSources(source, tail);
    OpenMarked(line, [source], tail);
    assert {source} + {UNCORROBORATED} == {source, UNCORROBORATED};
  }

  lemma {:induction false} NoneShared(lines: seq<string>)
    requires |lines| == 2 && !Supports(lines[0], lines[1])
    ensures !Shared(lines, 0) && !Shared(lines, 1) && CountShared(lines, Entries(lines, 2)) == 0
  {
    SupportIsSymmetric(lines[0], lines[1]);
    if CountShared(lines, Entries(lines, 2)) > 0 {
      var i := SomeShared(lines);
    }
  }

  /** A block of two lines of which neither is corroborated at first and both are once they are tagged. */
  lemma PairChangesLater(lines: seq<string>, out: seq<string>, again: seq<string>)
    requires |lines| == 2 && SourcesOf(lines[0]) != [] && SourcesOf(lines[1]) != [] && !Supports(lines[0], lines[1])
    requires Marked(lines, out, 2) && Marked(out, again, |out|)
    requires Supports(Mark(lines[0], UNCORROBORATED), Mark(lines[1], UNCORROBORATED))
    requires CORROBORATED !in WordsOf(Mark(lines[0], UNCORROBORATED))
    ensures CountShared(lines, Entries(lines, 2)) == 0 && again != out
  {
    NoneShared(lines);
    assert out[0] == Tagged(lines, 0) && out[1] == Tagged(lines, 1);
    assert Supports(out[0], out[1]) && Shared(out, 0);
    TaggedWords(out[0], CORROBORATED);
    assert again[0] == Tagged(out, 0);
  }

  lemma OverlapOfPair(a: string, b: string, c: string)
    requires a != b && a != c && b != c
    ensures Overlap({a, c}, {b, c}) && !Overlap({a}, {b})
  {
    assert {a, c} * {b, c} == {c} && {a, c} + {b, c} == {a, b, c};
    assert {a} * {b} == {};
  }

  lemma ApartPairs(a: string, b: string, x: string, y: string)
    requires a != b && a != y && x != b && x != y
    ensures Elements([a, x]) * Elements([b, y]) == {}
  {
    assert Elements([a, x]) == {a, x} && Elements([b, y]) == {b, y};
  }

  lemma OpenPairSupports(s: string, x: char, t: string, y: char)
    requires Lowercase(s) && 4 <= |s| <= 11 && Lowercase(t) && 4 <= |t| <= 11 && s != t
    requires 'a' <= x <= 'z' && 'a' <= y <= 'z' && x != y
    ensures !Supports(OpenLine(s, x), OpenLine(t, y))
    ensures Supports(Mark(OpenLine(s, x), UNCORROBORATED), Mark(OpenLine(t, y), UNCORROBORATED))
  {
    OpenLineMarked(s, x);
    OpenLineMarked(t, y);
    OpenLineSources(s, x);
    OpenLineSources(t, y);
    OpenLineWords(s, x);
    OpenLineWords(t, y);
    assert |UNCORROBORATED| == 14;
    OverlapOfPair(s, t, UNCORROBORATED);
    SwallowedIsSource(x);
    SwallowedIsSource(y);
    assert Swallowed(x)[0] != Swallowed(y)[0];
    ApartPairs(s, t, Swallowed(x), Swallowed(y));
  }

  lemma OpenPairChanges(s: string, x: char, t: string, y: char, out: seq<string>, again: seq<string>)
    requires Lowercase(s) && 4 <= |s| <= 11 && Lowercase(t) && 4 <= |t| <= 11 && s != t
    requires 'a' <= x <= 'z' && 'a' <= y <= 'z' && x != y
    requires Marked([OpenLine(s, x), OpenLine(t, y)], out, 2) && Marked(out, again, |out|)
    ensures var lines := [OpenLine(s, x), OpenLine(t, y)];
            CountShared(lines, Entries(lines, 2)) == 0 && again != out
  {
    OpenPairSupports(s, x, t, y);
    OpenLineMarked(s, x);
    OpenLineSources(s, x);
    OpenLineSources(t, y);
    assert |CORROBORATED| == 12 && |UNCORROBORATED| == 14;
    PairChangesLater([OpenLine(s, x), OpenLine(t, y)], out, again);
  }

  /**
   Open brackets: the first pass corroborates neither "[usgs] [x" nor "[gdacs] [y", but the tags it adds end
   up inside the open brackets and as a word the two lines share, so the second pass corroborates both.
   */
  lemma OpenBracketsChange(out: seq<string>, again: seq<string>)
    requires Marked(["[usgs] [x", "[gdacs] [y"], out, 2) && Marked(out, again, |out|)
    ensures CountShared(["[usgs] [x", "[gdacs] [y"], Entries(["[usgs] [x", "[gdacs] [y"], 2)) == 0 && again != out
  {
    assert OpenLine("usgs", 'x') == "[usgs] [x" && OpenLine("gdacs", 'y') == "[gdacs] [y";
    OpenPairChanges("usgs", 'x', "gdacs", 'y', out, again);
  }

  /** A line that holds the tag inside another bracket. */
  function Nested(x: char): string {
    Opened(x) + " " + Bracket(UNCORROBORATED)
  }

  lemma OpenedAlone(x: char)
    requires 'a' <= x <= 'z'
    ensures Bracketed(Opened(x)) == Brackets([], Some([x])) && WordsOf(Opened(x)) == {}
  {
    ScanOpen(Brackets([], None), [x]);
    LowerOpened(x);
    OpenedWords(Run({}, ""), x);
  }

  lemma NestedLine(x: char)
    requires 'a' <= x <= 'z'
    ensures Bracketed(Nested(x)).open.None? && SourcesOf(Nested(x)) == [Swallowed(x)]
    ensures WordsOf(Nested(x)) == {UNCORROBORATED} && Mark(Nested(x), UNCORROBORATED) == Nested(x)
  {
    OpenedAlone(x);
    OpenMarked(Opened(x), [], x);
    assert [] + [Swallowed(x)] == [Swallowed(x)] && {} + {UNCORROBORATED} == {UNCORROBORATED};
    SwallowedIsSource(x);
    TwoSources(Swallowed(x), Swallowed(x));
    HoldsTag(Opened(x), UNCORROBORATED);
  }

  lemma LoneWords(y: char)
    requires 'a' <= y <= 'z'
    ensures WordsOf(Bracket([y])) == {}
  {
    var r := ScanWords(Run({}, ""), Opened(y));
    LowerKeeps([y]);
    LowerBracket([y]);
    WordsConcat(Run({}, ""), Opened(y), "]");
    OpenedWords(Run({}, ""), y);
    OneWordChar(r, ']');
  }

  lemma LoneSource(y: char)
    requires 'a' <= y <= 'z'
    ensures var line := Bracket([y]);
            && Bracketed(line).open.None? && SourcesOf(line) == [[y]] && WordsOf(line) == {}
            && SourcesOf(Mark(line, UNCORROBORATED)) == [[y], UNCORROBORATED]
            && WordsOf(Mark(line, UNCORROBORATED)) == {UNCORROBORATED}
  {
    var line := Bracket([y]);
    LoneWords(y);
    ScanBracket(Brackets([], None), [y]);
    assert [] + [[y]] == [[y]];
    ShortIsSource([y]);
    TwoSources([y], [y]);
    UntaggedByWord(line, UNCORROBORATED);
    TaggedSources(line, UNCORROBORATED);
    TaggedWords(line, UNCORROBORATED);
    assert [[y]] + [UNCORROBORATED] == [[y], UNCORROBORATED] && {} + {UNCORROBORATED} == {UNCORROBORATED};
  }

  lemma NestedSupports(x: char, y: char)
    requires 'a' <= x <= 'z' && 'a' <= y <= 'z'
    ensures !Supports(Nested(x), Bracket([y])) && SourcesOf(Nested(x)) != [] && SourcesOf(Bracket([y])) != []
    ensures Supports(Mark(Nested(x), UNCORROBORATED), Mark(Bracket([y]), UNCORROBORATED))
  {
    NestedLine(x);
    LoneSource(y);
    SwallowedIsSource(x);
    assert |UNCORROBORATED| == 14;
    ApartPairs(Swallowed(x), [y], Swallowed(x), UNCORROBORATED);
    assert Elements([Swallowed(x), Swallowed(x)]) == Elements([Swallowed(x)]);
    OverlapOfOne(UNCORROBORATED);
  }

  lemma OverlapOfOne(a: string)
    ensures Overlap({a}, {a})
  {
    assert {a} * {a} == {a} == {a} + {a};
  }

  lemma NestedChanges(x: char, y: char, out: seq<string>, again: seq<string>)
    requires 'a' <= x <= 'z' && 'a' <= y <= 'z'
    requires Marked([Nested(x), Bracket([y])], out, 2) && Marked(out, again, |out|)
    ensures Bracketed(Nested(x)).open.None? && Bracketed(Bracket([y])).open.None?
    ensures var lines := [Nested(x), Bracket([y])];
            CountShared(lines, Entries(lines, 2)) == 0 && again != out
  {
    NestedSupports(x, y);
    NestedLine(x);
    LoneSource(y);
    assert |CORROBORATED| == 12 && |UNCORROBORATED| == 14;
    PairChangesLater([Nested(x), Bracket([y])], out, again);
  }

  /**
   Closed brackets are not enough: "[x [uncorroborated]" holds a tag inside another bracket, so it is not
   tagged again, and shares the word but not the source with what "[y]" becomes.
   */
  lemma SwallowedTagChanges(out: seq<string>, again: seq<string>)
    requires Marked(["[x [uncorroborated]", "[y]"], out, 2) && Marked(out, again, |out|)
    ensures Bracketed("[x [uncorroborated]").open.None? && Bracketed("[y]").open.None?
    ensures var lines := ["[x [uncorroborated]", "[y]"];
            CountShared(lines, Entries(lines, 2)) == 0 && again != out
  {
    assert Nested('x') == "[x [uncorroborated]" && Bracket(['y']) == "[y]";
    NestedChanges('x', 'y', out, again);
  }
}
