/**
 The context budget manager (backend/context_budget.py), with the word-count estimator.

 Sentence splitting is any function that loses no words and returns no empty sentence. Provenance
 scores are given with the blocks.
 */
module TokenBudget {
  import opened Indices
  import opened Options
  import opened Reals
  import opened StableSort
  import opened Texts

  // ---------- Estimating ----------

  /** `len(text.split())`: a word starts at each non-space character that follows a space or nothing. */
  function WordCount(text: string): nat {
    if text == "" then 0
    else
      var n := |text| - 1;
      WordCount(text[..n]) + if !IsSpace(text[n]) && (n == 0 || IsSpace(text[n - 1])) then 1 else 0
  }

  /** `max(1, int(words / 0.75))`, and 0 for no text. */
  function Tokens(text: string): nat {
    if text == "" then 0
    else if 4 * WordCount(text) / 3 < 1 then 1
    else 4 * WordCount(text) / 3
  }

  function TokenSum(sentences: seq<string>): nat {
    if sentences == [] then 0
    else TokenSum(sentences[..|sentences| - 1]) + Tokens(sentences[|sentences| - 1])
  }

  function WordSum(sentences: seq<string>): nat {
    if sentences == [] then 0
    else WordSum(sentences[..|sentences| - 1]) + WordCount(sentences[|sentences| - 1])
  }

  /** `"\n".join(sentences)`. */
  function Join(sentences: seq<string>): string {
    if sentences == [] then ""
    else if |sentences| == 1 then sentences[0]
    else Join(sentences[..|sentences| - 1]) + "\n" + sentences[|sentences| - 1]
  }

  type Splitter = string -> seq<string>

  ghost predicate IsSplit(text: string, sentences: seq<string>) {
    && (forall i :: 0 <= i < |sentences| ==> WordCount(sentences[i]) >= 1)
    && WordSum(sentences) == WordCount(text)
  }

  ghost predicate Splits(split: Splitter) {
    forall text :: IsSplit(text, split(text))
  }

  // ---------- Truncating one section ----------

  /** `f` is the length of the longest prefix of the sentences that fits. */
  ghost predicate LongestFit(sentences: seq<string>, budget: int, f: nat) {
    && f <= |sentences|
    && TokenSum(sentences[..f]) <= budget
    && (f < |sentences| ==> TokenSum(sentences[..f + 1]) > budget)
  }

  datatype Cut = Cut(text: string, truncated: bool, used: int)

  /** What truncation to `budget` may return. `k` counts the kept sentences of a truncated text. */
  ghost predicate IsCut(text: string, budget: int, split: Splitter, cut: Cut, k: nat) {
    var sentences := split(text);
    if Tokens(text) <= budget || sentences == [] then cut == Cut(text, false, Tokens(text))
    else
      && k <= |sentences|
      && cut == Cut(Join(sentences[..k]), true, TokenSum(sentences[..k]))
      && (if budget > 0 && TokenSum(sentences[..1]) > budget then k == 1 else LongestFit(sentences, budget, k))
  }

  ghost predicate Truncates(text: string, budget: int, split: Splitter, cut: Cut) {
    exists k: nat :: IsCut(text, budget, split, cut, k)
  }

  lemma {:induction false} TakeNext(sentences: seq<string>, i: nat)
    requires i < |sentences|
    ensures sentences[..i] + [sentences[i]] == sentences[..i + 1]
    ensures TokenSum(sentences[..i + 1]) == TokenSum(sentences[..i]) + Tokens(sentences[i])
  {
    assert sentences[..i + 1][..i] == sentences[..i];
  }

  /** The loop of truncation: sentences are kept in order until one does not fit. */
  method KeepFitting(sentences: seq<string>, budget: int) returns (kept: seq<string>, used: int)
    requires budget >= 0
    ensures LongestFit(sentences, budget, |kept|) && kept == sentences[..|kept|] && used == TokenSum(kept)
  {
    kept, used := [], 0;
    while |kept| < |sentences|
      invariant |kept| <= |sentences| && kept == sentences[..|kept|] && used == TokenSum(kept) <= budget
    {
      TakeNext(sentences, |kept|);
      var tokens := Tokens(sentences[|kept|]);
      if used + tokens > budget {
        return;
      }
      kept := kept + [sentences[|kept|]];
      used := used + tokens;
    }
  }

  method TruncateSection(text: string, budget: int, split: Splitter) returns (cut: Cut)
    requires budget >= 0
    ensures Truncates(text, budget, split, cut)
  {
    var estimated := Tokens(text);
    if estimated <= budget {
      cut := Cut(text, false, estimated);
      assert IsCut(text, budget, split, cut, 0);
      return;
    }
    var sentences := split(text);
    if sentences == [] {
      cut := Cut(text, false, estimated);
      assert IsCut(text, budget, split, cut, 0);
      return;
    }
    var kept, used := KeepFitting(sentences, budget);
    if kept == [] && budget > 0 {
      kept := [sentences[0]];
      used := Tokens(sentences[0]);
      TakeNext(sentences, 0);
    } else if budget > 0 {
      FirstFits(sentences, |kept|, budget);
    }
    cut := Cut(Join(kept), true, used);
    assert IsCut(text, budget, split, cut, |kept|);
  }

  /** If some sentences fit, the first one does. */
  lemma {:induction false} FirstFits(sentences: seq<string>, k: nat, budget: int)
    requires 1 <= k <= |sentences| && TokenSum(sentences[..k]) <= budget
    ensures TokenSum(sentences[..1]) <= budget
    decreases k
  {
    if k > 1 {
      assert sentences[..k][..k - 1] == sentences[..k - 1];
      FirstFits(sentences, k - 1, budget);
    }
  }

  lemma WordSnoc(t: string, x: char)
    ensures WordCount(t + [x]) == WordCount(t) + if !IsSpace(x) && (t == "" || IsSpace(t[|t| - 1])) then 1 else 0
  {
    var n, text := |t|, t + [x];
    assert text[..n] == t && text[n] == x && (n > 0 ==> text[n - 1] == t[n - 1]);
  }

  lemma {:induction false} WordsAcrossSpace(a: string, c: char, b: string)
    requires IsSpace(c)
    ensures WordCount(a + [c] + b) == WordCount(a) + WordCount(b)
  {
    if b == "" {
      assert a + [c] + b == a + [c];
      WordSnoc(a, c);
    } else {
      var n := |b| - 1;
      WordsAcrossSpace(a, c, b[..n]);
      var t := a + [c] + b[..n];
      assert a + [c] + b == t + [b[n]];
      assert t[|t| - 1] == if n == 0 then c else b[n - 1];
      WordSnoc(t, b[n]);
    }
  }

  /** Words by their ends: none in nothing, one in a text without blanks, and a blank separates. */
  lemma {:induction false} WordsAre(text: string)
    ensures WordCount("") == 0
    ensures text != "" && (forall c :: c in text ==> !IsSpace(c)) ==> WordCount(text) == 1
  {
    if |text| > 1 {
      var n := |text| - 1;
      assert text == text[..n] + [text[n]] && text[n - 1] in text;
      WordsAre(text[..n]);
    } else if |text| == 1 {
      assert text[..0] == "" && text[0] in text;
    }
  }

  /** The estimate is the largest whole number of tokens in four thirds of the words, at least 1 for a text. */
  lemma TokensAre(text: string)
    requires text != ""
    ensures Tokens(text) >= 1 && 3 * Tokens(text) <= (if WordCount(text) == 0 then 3 else 4 * WordCount(text))
    ensures 4 * WordCount(text) < 3 * Tokens(text) + 3
  {}

  /** Kept sentences are joined by line breaks. */
  lemma {:induction false} JoinConcat(a: seq<string>, b: seq<string>)
    requires a != [] && b != []
    ensures Join(a + b) == Join(a) + "\n" + Join(b)
    ensures |a| == 1 ==> Join(a) == a[0]
  {
    var n := |b| - 1;
    assert (a + b)[..|a + b| - 1] == a + b[..n];
    if n == 0 {
      assert a + b[..0] == a;
    } else {
      JoinConcat(a, b[..n]);
      assert Join(a) + "\n" + Join(b[..n]) + "\n" + b[n] == Join(a) + "\n" + (Join(b[..n]) + "\n" + b[n]);
    }
  }

  /**
   Joining k kept sentences and estimating again gives at least what was recorded and at most
   floor(2k/3) more: each sentence's own estimate rounds down by at most two thirds of a token.
   */
  lemma {:induction false} Reestimate(kept: seq<string>)
    requires kept != [] && forall i :: 0 <= i < |kept| ==> WordCount(kept[i]) >= 1
    ensures WordCount(Join(kept)) == WordSum(kept) >= |kept|
    ensures TokenSum(kept) <= Tokens(Join(kept)) <= TokenSum(kept) + 2 * |kept| / 3
  {
    JoinedWords(kept);
    RoundingLoss(kept);
    assert Join(kept) != "";
  }

  lemma {:induction false} JoinedWords(kept: seq<string>)
    requires kept != [] && forall i :: 0 <= i < |kept| ==> WordCount(kept[i]) >= 1
    ensures WordCount(Join(kept)) == WordSum(kept) >= |kept|
  {
    var n := |kept| - 1;
    if n > 0 {
      JoinedWords(kept[..n]);
      WordsAcrossSpace(Join(kept[..n]), '\n', kept[n]);
    } else {
      assert kept[..0] == [];
    }
  }

  lemma {:induction false} RoundingLoss(kept: seq<string>)
    requires forall i :: 0 <= i < |kept| ==> WordCount(kept[i]) >= 1
    ensures 3 * TokenSum(kept) <= 4 * WordSum(kept) <= 3 * TokenSum(kept) + 2 * |kept|
  {
    if kept != [] {
      RoundingLoss(kept[..|kept| - 1]);
      assert kept[|kept| - 1] != "";
    }
  }

  // ---------- Filling one category ----------

  datatype Block = Block(name: string, text: string, score: real)

  datatype Section = Section(name: string, text: string, score: real, originalTokens: int, finalTokens: int,
                             truncated: bool)

  function Used(sections: seq<Section>): int {
    if sections == [] then 0 else Used(sections[..|sections| - 1]) + sections[|sections| - 1].finalTokens
  }

  /** Section `s` is block `b` cut to `remaining`. */
  ghost predicate Keeps(b: Block, remaining: int, split: Splitter, s: Section) {
    && s.name == b.name && s.score == b.score && s.originalTokens == Tokens(b.text)
    && Truncates(b.text, remaining, split, Cut(s.text, s.truncated, s.finalTokens))
  }

  ghost predicate FilledSoFar(blocks: seq<Block>, budget: int, split: Splitter, sections: seq<Section>) {
    if sections == [] then true
    else
      var n := |sections| - 1;
      && FilledSoFar(blocks, budget, split, sections[..n])
      && n < |blocks| && Used(sections[..n]) < budget
      && Keeps(blocks[n], budget - Used(sections[..n]), split, sections[n])
  }

  lemma {:induction false} KeptAt(blocks: seq<Block>, budget: int, split: Splitter, sections: seq<Section>, i: nat)
    requires FilledSoFar(blocks, budget, split, sections) && i < |sections|
    ensures i < |blocks| && Used(sections[..i]) < budget
    ensures Keeps(blocks[i], budget - Used(sections[..i]), split, sections[i])
  {
    var n := |sections| - 1;
    if i < n {
      KeptAt(blocks, budget, split, sections[..n], i);
      assert sections[..n][..i] == sections[..i];
    }
  }

  /**
   The sections are the first blocks of the list, each cut to what the ones before it left over; the
   list is cut short only when the budget is used up.
   */
  ghost predicate Filled(blocks: seq<Block>, budget: int, split: Splitter, sections: seq<Section>) {
    && FilledSoFar(blocks, budget, split, sections)
    && (|sections| < |blocks| ==> Used(sections) >= budget)
  }

  lemma FillOne(blocks: seq<Block>, budget: int, split: Splitter, sections: seq<Section>, s: Section)
    requires FilledSoFar(blocks, budget, split, sections) && |sections| < |blocks|
    requires Used(sections) < budget && Keeps(blocks[|sections|], budget - Used(sections), split, s)
    ensures FilledSoFar(blocks, budget, split, sections + [s])
    ensures Used(sections + [s]) == Used(sections) + s.finalTokens
  {
    assert (sections + [s])[..|sections|] == sections;
  }

  method MakeSection(b: Block, remaining: int, split: Splitter) returns (s: Section)
    requires remaining >= 0
    ensures Keeps(b, remaining, split, s)
  {
    var cut := TruncateSection(b.text, remaining, split);
    s := Section(b.name, cut.text, b.score, Tokens(b.text), cut.used, cut.truncated);
    assert Cut(s.text, s.truncated, s.finalTokens) == cut;
  }

  method FillCategory(blocks: seq<Block>, budget: int, split: Splitter) returns (sections: seq<Section>, used: int)
    ensures Filled(blocks, budget, split, sections) && used == Used(sections)
  {
    sections, used := [], 0;
    var i := 0;
    while i < |blocks|
      invariant |sections| <= i <= |blocks| && (|sections| < i ==> used >= budget)
      invariant FilledSoFar(blocks, budget, split, sections) && used == Used(sections)
    {
      var remaining := if budget - used > 0 then budget - used else 0;
      if remaining <= 0 {
        i := i + 1;
        continue;
      }
      var s := MakeSection(blocks[i], remaining, split);
      FillOne(blocks, budget, split, sections, s);
      sections := sections + [s];
      used := used + s.finalTokens;
      i := i + 1;
    }
  }

  // ---------- Consequences for a category ----------

  /** A cut goes over its budget only by keeping a single sentence that is larger than the budget. */
  lemma CutOvershoot(text: string, budget: int, split: Splitter, cut: Cut, k: nat)
    requires Splits(split) && text != "" && budget >= 1 && IsCut(text, budget, split, cut, k)
    ensures cut.used > budget ==>
              && cut.truncated && split(text) != []
              && cut.text == split(text)[0]
              && cut.used == Tokens(split(text)[0])
  {
    var sentences := split(text);
    assert IsSplit(text, sentences);
    if sentences == [] {
      assert Tokens(text) == 1;
    } else {
      var one := [sentences[0]];
      assert sentences[..1] == one && one[..0] == [];
      assert TokenSum(one) == Tokens(sentences[0]);
    }
  }

  /**
   A category goes over its budget at most once, with its last section, which is then one single
   sentence, and by less than that sentence's tokens. Before it, the category was within budget.
   */
  lemma {:induction false} OvershootIsOneSentence(blocks: seq<Block>, budget: int, split: Splitter,
                                                  sections: seq<Section>)
    requires Splits(split) && Filled(blocks, budget, split, sections)
    requires forall i :: 0 <= i < |blocks| ==> blocks[i].text != ""
    ensures forall i :: 0 <= i < |sections| ==> Used(sections[..i]) < budget
    ensures sections != [] && Used(sections) > budget ==>
              var n := |sections| - 1;
              && sections[n].truncated && split(blocks[n].text) != []
              && sections[n].text == split(blocks[n].text)[0]
              && Used(sections) - budget < Tokens(sections[n].text)
  {
    forall i | 0 <= i < |sections| ensures Used(sections[..i]) < budget {
      KeptAt(blocks, budget, split, sections, i);
    }
    if sections != [] && Used(sections) > budget {
      var n := |sections| - 1;
      var s, remaining := sections[n], budget - Used(sections[..n]);
      var k: nat :| IsCut(blocks[n].text, remaining, split, Cut(s.text, s.truncated, s.finalTokens), k);
      CutOvershoot(blocks[n].text, remaining, split, Cut(s.text, s.truncated, s.finalTokens), k);
    }
  }

  predicate ScoreGe(a: Block, b: Block) { a.score >= b.score }

  /** No block is skipped while a lower-provenance block of its category is kept. */
  lemma NothingBetterIsSkipped(blocks: seq<Block>, budget: int, split: Splitter, sections: seq<Section>, i: nat, j: nat)
    requires Sorted(ScoreGe, blocks) && Filled(blocks, budget, split, sections)
    requires i < |sections| <= j < |blocks|
    ensures sections[i].name == blocks[i].name && sections[i].score >= blocks[j].score
    ensures Used(sections) >= budget
  {
    KeptAt(blocks, budget, split, sections, i);
  }

  // ---------- The whole budget ----------

  datatype Category = System | Evidence | Rag | Aux

  datatype Budget = Budget(system: int, evidence: int, rag: int, aux: int)

  /** The first keyword found in the name decides. */
  function DetectCategory(name: string): Category {
    var low := Lower(name);
    if Contains(low, "system") then System
    else if Contains(low, "internal telemetry") then Evidence
    else if Contains(low, "rag memory") then Rag
    else if Contains(low, "selected target") then Evidence
    else if Contains(low, "web search results") then Rag
    else Aux
  }

  /** The non-empty blocks of a category, in input order. */
  function BlocksIn(cat: Category, blocks: seq<Block>): seq<Block> {
    if blocks == [] then []
    else
      var b := blocks[|blocks| - 1];
      BlocksIn(cat, blocks[..|blocks| - 1]) + if b.text != "" && DetectCategory(b.name) == cat then [b] else []
  }

  /** The list one category is filled from: best provenance first, ties in input order. */
  function Ranked(cat: Category, blocks: seq<Block>): seq<Block> {
    Sort(ScoreGe, BlocksIn(cat, blocks))
  }

  lemma {:induction false} BlocksInMembers(cat: Category, blocks: seq<Block>)
    ensures forall b :: b in BlocksIn(cat, blocks) <==> b in blocks && b.text != "" && DetectCategory(b.name) == cat
  {
    if blocks != [] {
      BlocksInMembers(cat, blocks[..|blocks| - 1]);
      assert blocks == blocks[..|blocks| - 1] + [blocks[|blocks| - 1]];
    }
  }

  lemma RankedFacts(cat: Category, blocks: seq<Block>)
    ensures Sorted(ScoreGe, Ranked(cat, blocks))
    ensures forall b :: b in Ranked(cat, blocks) <==> b in blocks && b.text != "" && DetectCategory(b.name) == cat
    ensures forall i :: 0 <= i < |Ranked(cat, blocks)| ==> Ranked(cat, blocks)[i].text != ""
  {
    BlocksInMembers(cat, blocks);
    SortIsSorted(ScoreGe, BlocksIn(cat, blocks));
    var r := Ranked(cat, blocks);
    forall i | 0 <= i < |r| ensures r[i].text != "" {
      assert r[i] in r;
    }
  }

  datatype Refusal = SystemTooLong | LowQuality

  datatype Result = Result(refused: Option<Refusal>, sections: seq<Section>, totalTokens: int, quality: real,
                           systemTokens: int)

  function Weighted(sections: seq<Section>): real {
    if sections == [] then 0.0
    else
      var s := sections[|sections| - 1];
      Weighted(sections[..|sections| - 1]) + s.score * (s.finalTokens as real)
  }

  function Quality(sections: seq<Section>): real {
    if sections == [] || Used(sections) <= 0 then 0.0 else Weighted(sections) / (Used(sections) as real)
  }

  function Clip(text: string, budget: int): string
    requires budget >= 0
  {
    if |text| <= 4 * budget then text else text[..4 * budget]
  }

  /** What a text is charged with once it has been clipped to a budget it exceeds. */
  function FitTokens(text: string, budget: int): int
    requires budget >= 0
  {
    if Tokens(text) > budget then Tokens(Clip(text, budget)) else Tokens(text)
  }

  /** The tokens the auxiliary text is charged with. */
  function AuxTokens(auxiliary: string, budget: int, used: int): int {
    if auxiliary == "" || budget <= used then 0
    else FitTokens(auxiliary, budget - used)
  }

  /** The sections of each category, and the tokens charged for the auxiliary text. */
  datatype Allocation = Allocation(evidence: seq<Section>, rag: seq<Section>, aux: seq<Section>, auxiliary: int) {
    function All(): seq<Section> { evidence + rag + aux }
  }

  /** Each category is filled from its ranked list; the auxiliary text is charged with what aux left over. */
  ghost predicate Allocated(blocks: seq<Block>, auxiliary: string, budget: Budget, split: Splitter, parts: Allocation) {
    && Filled(Ranked(Evidence, blocks), budget.evidence, split, parts.evidence)
    && Filled(Ranked(Rag, blocks), budget.rag, split, parts.rag)
    && Filled(Ranked(Aux, blocks), budget.aux, split, parts.aux)
    && parts.auxiliary == AuxTokens(auxiliary, budget.aux, Used(parts.aux))
  }

  method FitPrompt(prompt: string, budget: int) returns (tokens: int)
    requires budget >= 0
    ensures tokens == FitTokens(prompt, budget)
  {
    tokens := Tokens(prompt);
    if tokens > budget {
      tokens := Tokens(Clip(prompt, budget));
    }
  }

  method ChargeAuxiliary(auxiliary: string, budget: int, used: int) returns (tokens: int)
    ensures tokens == AuxTokens(auxiliary, budget, used)
  {
    tokens := 0;
    if auxiliary != "" {
      var room := if budget - used > 0 then budget - used else 0;
      if room > 0 {
        tokens := FitPrompt(auxiliary, room);
      }
    }
  }

  /** The category loop, in the source's order of priority. */
  method FillAll(blocks: seq<Block>, auxiliary: string, budget: Budget, split: Splitter)
    returns (parts: Allocation, used: int)
    ensures Allocated(blocks, auxiliary, budget, split, parts)
    ensures used == Used(parts.All())
  {
    var evidence, usedEvidence := FillCategory(Ranked(Evidence, blocks), budget.evidence, split);
    var rag, usedRag := FillCategory(Ranked(Rag, blocks), budget.rag, split);
    var aux, usedAux := FillCategory(Ranked(Aux, blocks), budget.aux, split);
    var auxTokens := ChargeAuxiliary(auxiliary, budget.aux, usedAux);
    parts := Allocation(evidence, rag, aux, auxTokens);
    used := usedEvidence + usedRag + usedAux;
    UsedConcat(evidence, rag);
    UsedConcat(evidence + rag, aux);
  }

  /** How a result follows from what was charged. */
  ghost predicate Concluded(result: Result, sections: seq<Section>, auxTokens: int, threshold: real) {
    && result.sections == sections
    && result.totalTokens == result.systemTokens + Used(sections) + auxTokens
    && result.quality == Quality(sections)
    && result.refused == if result.quality < threshold then Some(LowQuality) else None
  }

  lemma {:induction false} UsedConcat(a: seq<Section>, b: seq<Section>)
    ensures Used(a + b) == Used(a) + Used(b)
  {
    if b == [] {
      assert a + b == a;
    } else {
      UsedConcat(a, b[..|b| - 1]);
      assert (a + b)[..|a + b| - 1] == a + b[..|b| - 1];
    }
  }

  method Conclude(systemTokens: int, sections: seq<Section>, used: int, auxTokens: int, threshold: real)
    returns (result: Result)
    requires used == Used(sections)
    ensures Concluded(result, sections, auxTokens, threshold) && result.systemTokens == systemTokens
  {
    var quality := Quality(sections);
    var refused := if quality < threshold then Some(LowQuality) else None;
    result := Result(refused, sections, systemTokens + used + auxTokens, quality, systemTokens);
  }

  /** What the budget does once the system prompt has passed. `prompt` is the prompt with the notes added. */
  ghost predicate Budgeted(prompt: string, blocks: seq<Block>, auxiliary: string, budget: Budget, split: Splitter,
                           threshold: real, result: Result, parts: Allocation)
    requires budget.system >= 0
  {
    && result.systemTokens == FitTokens(prompt, budget.system)
    && Allocated(blocks, auxiliary, budget, split, parts)
    && Concluded(result, parts.All(), parts.auxiliary, threshold)
  }

  method Assemble(prompt: string, blocks: seq<Block>, auxiliary: string, budget: Budget, split: Splitter,
                  threshold: real)
    returns (result: Result, ghost allocation: Allocation)
    requires budget.system >= 0
    ensures Budgeted(prompt, blocks, auxiliary, budget, split, threshold, result, allocation)
  {
    var systemTokens := FitPrompt(prompt, budget.system);
    var parts, used := FillAll(blocks, auxiliary, budget, split);
    allocation := parts;
    result := Conclude(systemTokens, parts.All(), used, parts.auxiliary, threshold);
  }

  ghost predicate Concludes(prompt: string, blocks: seq<Block>, auxiliary: string, budget: Budget, split: Splitter,
                            threshold: real, result: Result)
    requires budget.system >= 0
  {
    exists parts :: Budgeted(prompt, blocks, auxiliary, budget, split, threshold, result, parts)
  }

  method ApplyBudget(system: string, note: string, blocks: seq<Block>, auxiliary: string, budget: Budget,
                     split: Splitter, threshold: real)
    returns (result: Result)
    requires budget.system >= 0
    ensures if Tokens(system) > budget.system
            then result == Result(Some(SystemTooLong), [], Tokens(system), 0.0, budget.system)
            else Concludes(system + note, blocks, auxiliary, budget, split, threshold, result)
  {
    var given := Tokens(system);
    if given > budget.system {
      result := Result(Some(SystemTooLong), [], given, 0.0, budget.system);
    } else {
      ghost var parts;
      result, parts := Assemble(system + note, blocks, auxiliary, budget, split, threshold);
    }
  }

  /** What puts a name into each category, its other keywords taken into account. */
  lemma CategoryIff(name: string)
    ensures var low := Lower(name);
            var telemetry, target := Contains(low, "internal telemetry"), Contains(low, "selected target");
            var memory, web := Contains(low, "rag memory"), Contains(low, "web search results");
            && (DetectCategory(name) == System <==> Contains(low, "system"))
            && (DetectCategory(name) == Evidence <==>
                  !Contains(low, "system") && (telemetry || (target && !memory)))
            && (DetectCategory(name) == Rag <==>
                  !Contains(low, "system") && !telemetry && (memory || (web && !target)))
            && (DetectCategory(name) == Aux <==>
                  !Contains(low, "system") && !telemetry && !target && !memory && !web)
  {}

  ghost function Positions(cat: Category, blocks: seq<Block>): set<nat> {
    set i: nat | i < |blocks| && blocks[i].text != "" && DetectCategory(blocks[i].name) == cat
  }

  lemma PositionsNext(cat: Category, blocks: seq<Block>, n: nat)
    requires n + 1 == |blocks|
    ensures Positions(cat, blocks) == Positions(cat, blocks[..n]) + (if n in Positions(cat, blocks) then {n} else {})
  {
    forall i: nat | i < n ensures i in Positions(cat, blocks) <==> i in Positions(cat, blocks[..n]) {
      assert blocks[..n][i] == blocks[i];
    }
  }

  lemma {:induction false} BlocksInAre(cat: Category, blocks: seq<Block>) returns (at: seq<nat>)
    ensures Lists(at, Positions(cat, blocks)) && |BlocksIn(cat, blocks)| == |at|
    ensures forall k :: 0 <= k < |at| ==> BlocksIn(cat, blocks)[k] == blocks[at[k]]
  {
    at := [];
    if blocks != [] {
      var n := |blocks| - 1;
      at := BlocksInAre(cat, blocks[..n]);
      PositionsNext(cat, blocks, n);
      if n in Positions(cat, blocks) {
        ListsMore(at, Positions(cat, blocks[..n]), n);
        at := at + [n];
      }
    }
  }

  /**
   The list a category is filled from: each non-empty block of the category, at its place by score and, of
   equal scores, by position.
   */
  lemma RankedInOrder(cat: Category, blocks: seq<Block>) returns (at: seq<nat>, mine: seq<Block>)
    ensures Lists(at, Positions(cat, blocks)) && |at| == |mine| == |Ranked(cat, blocks)|
    ensures forall k :: 0 <= k < |at| ==> mine[k] == blocks[at[k]]
    ensures forall k :: 0 <= k < |at| ==>
              var r := Rank(ScoreGe, mine, k);
              r < |at| && Ranked(cat, blocks)[r] == blocks[at[k]]
  {
    at := BlocksInAre(cat, blocks);
    mine := BlocksIn(cat, blocks);
    forall k | 0 <= k < |at|
      ensures Rank(ScoreGe, mine, k) < |at| && Ranked(cat, blocks)[Rank(ScoreGe, mine, k)] == blocks[at[k]]
    {
      SortedAtRank(ScoreGe, mine, k);
    }
  }

  /** A section always comes from a block of the category it is charged to. */
  lemma SectionsStayInCategory(cat: Category, blocks: seq<Block>, budget: int, split: Splitter,
                               sections: seq<Section>, i: nat)
    requires Filled(Ranked(cat, blocks), budget, split, sections) && i < |sections|
    ensures DetectCategory(sections[i].name) == cat
    ensures exists b :: b in blocks && b.text != "" && b.name == sections[i].name && b.score == sections[i].score
  {
    RankedFacts(cat, blocks);
    KeptAt(Ranked(cat, blocks), budget, split, sections, i);
    var b := Ranked(cat, blocks)[i];
    assert b in Ranked(cat, blocks);
  }

  lemma {:induction false} AllocatedFrom(cat: Category, blocks: seq<Block>, budget: int, split: Splitter,
                                         sections: seq<Section>)
    requires Filled(Ranked(cat, blocks), budget, split, sections)
    ensures forall s :: s in sections ==> DetectCategory(s.name) == cat
  {
    forall i | 0 <= i < |sections| ensures DetectCategory(sections[i].name) == cat {
      SectionsStayInCategory(cat, blocks, budget, split, sections, i);
    }
  }

  /** Blocks with "system" in their name get a category of their own, and no result ever holds one. */
  lemma {:induction false} SystemBlocksAreNeverAllocated(prompt: string, blocks: seq<Block>, auxiliary: string,
                                                         budget: Budget, split: Splitter, threshold: real,
                                                         result: Result)
    requires budget.system >= 0
    requires Concludes(prompt, blocks, auxiliary, budget, split, threshold, result)
    ensures forall s :: s in result.sections ==> DetectCategory(s.name) != System
  {
    var parts :| Budgeted(prompt, blocks, auxiliary, budget, split, threshold, result, parts);
    AllocatedFrom(Evidence, blocks, budget.evidence, split, parts.evidence);
    AllocatedFrom(Rag, blocks, budget.rag, split, parts.rag);
    AllocatedFrom(Aux, blocks, budget.aux, split, parts.aux);
    assert forall s :: s in parts.All() ==> s in parts.evidence || s in parts.rag || s in parts.aux;
  }

  // ---------- Quality ----------

  lemma {:induction false} WeightedBetween(sections: seq<Section>, lo: real, hi: real)
    requires forall i :: 0 <= i < |sections| ==> lo <= sections[i].score <= hi && sections[i].finalTokens >= 0
    ensures Used(sections) >= 0
    ensures lo * (Used(sections) as real) <= Weighted(sections) <= hi * (Used(sections) as real)
  {
    if sections != [] {
      var n := |sections| - 1;
      WeightedBetween(sections[..n], lo, hi);
      var w, x, s := sections[n].finalTokens as real, Used(sections[..n]) as real, sections[n].score;
      assert (s - lo) * w >= 0.0 && (hi - s) * w >= 0.0;
      assert lo * (x + w) == lo * x + lo * w && hi * (x + w) == hi * x + hi * w;
    }
  }

  lemma Divided(lo: real, hi: real, q: real, w: real, product: real, low: real, high: real)
    requires w > 0.0 && w * q == product && low == lo * w && high == hi * w && low <= product <= high
    ensures lo <= q <= hi
  {
    Divide(lo, q, w);
    Divide(q, hi, w);
  }

  lemma QualityTimes(sections: seq<Section>, w: real)
    requires Used(sections) > 0 && w == Used(sections) as real
    ensures w * Quality(sections) == Weighted(sections)
  {
    assert sections != [];
  }

  /** The quality of what was kept lies between its worst and its best provenance score. */
  lemma QualityIsBetween(sections: seq<Section>, lo: real, hi: real)
    requires forall i :: 0 <= i < |sections| ==> lo <= sections[i].score <= hi && sections[i].finalTokens >= 0
    requires Used(sections) > 0
    ensures lo <= Quality(sections) <= hi
  {
    var w := Used(sections) as real;
    WeightedBetween(sections, lo, hi);
    QualityTimes(sections, w);
    Divided(lo, hi, Quality(sections), w, Weighted(sections), lo * w, hi * w);
  }

  /** One section's quality is its own score. */
  lemma QualityOfOne(s: Section)
    requires s.finalTokens > 0
    ensures Quality([s]) == s.score && Used([s]) == s.finalTokens
  {
    var one, w := [s], s.finalTokens as real;
    assert one[..0] == [] && Used(one) == s.finalTokens;
    assert Weighted(one) == s.score * w;
    Quotient(s.score, w, Weighted(one));
  }

  lemma Quotient(x: real, w: real, product: real)
    requires w > 0.0 && product == x * w
    ensures product / w == x
  {}

  lemma {:induction false} WeightedConcat(a: seq<Section>, b: seq<Section>)
    ensures Weighted(a + b) == Weighted(a) + Weighted(b)
  {
    if b == [] {
      assert a + b == a;
    } else {
      WeightedConcat(a, b[..|b| - 1]);
      assert (a + b)[..|a + b| - 1] == a + b[..|b| - 1];
    }
  }

  /**
   The quality is the mean score by tokens: two lists of sections weigh in the quality of both together with
   the tokens each of them holds, wherever the cut is made.
   */
  lemma QualityIsMean(a: seq<Section>, b: seq<Section>)
    requires Used(a) > 0 && Used(b) > 0
    ensures Used(a + b) == Used(a) + Used(b)
    ensures Quality(a + b) * (Used(a + b) as real) == Quality(a) * (Used(a) as real) + Quality(b) * (Used(b) as real)
  {
    UsedConcat(a, b);
    WeightedConcat(a, b);
    TokensTimesQuality(a);
    TokensTimesQuality(b);
    TokensTimesQuality(a + b);
  }

  lemma TokensTimesQuality(sections: seq<Section>)
    requires Used(sections) > 0
    ensures Quality(sections) * (Used(sections) as real) == Weighted(sections)
  {
    QualityTimes(sections, Used(sections) as real);
  }

  /** Sections that hold no tokens do not weigh in at all. */
  lemma {:induction false} EmptySectionsDoNotCount(a: seq<Section>, s: Section)
    requires s.finalTokens == 0
    ensures Quality(a + [s]) == Quality(a) && Used([]) == 0 && Quality([]) == 0.0
  {
    assert (a + [s])[..|a|] == a;
  }

  lemma Below(q: real, w: real, product: real, t: real, least: real)
    requires w > 0.0 && product == w * q && least == w * t
    ensures q < t <==> product < least
  {
    if product >= least {
      Divide(t, q, w);
    } else {
      Divide(q, t, w);
    }
  }

  lemma QualityBelow(sections: seq<Section>, w: real, threshold: real, least: real)
    requires Used(sections) > 0 && w == Used(sections) as real && least == w * threshold
    ensures Quality(sections) < threshold <==> Weighted(sections) < least
  {
    QualityTimes(sections, w);
    Below(Quality(sections), w, Weighted(sections), threshold, least);
  }

  /** Two lists of sections that together weigh less than all their tokens would at the threshold. */
  ghost predicate TooLight(a: seq<Section>, b: seq<Section>, threshold: real) {
    Quality(a) * (Used(a) as real) + Quality(b) * (Used(b) as real) < Used(a + b) as real * threshold
  }

  lemma BothWeigh(a: seq<Section>, b: seq<Section>)
    requires Used(a) > 0 && Used(b) > 0
    ensures Quality(a) * (Used(a) as real) + Quality(b) * (Used(b) as real) == Weighted(a + b)
  {
    TokensTimesQuality(a);
    TokensTimesQuality(b);
    WeightedConcat(a, b);
  }

  lemma TooLightIff(a: seq<Section>, b: seq<Section>, threshold: real)
    requires Used(a) > 0 && Used(b) > 0 && Used(a + b) > 0
    ensures Quality(a + b) < threshold <==> TooLight(a, b, threshold)
  {
    BothWeigh(a, b);
    QualityBelow(a + b, Used(a + b) as real, threshold, Used(a + b) as real * threshold);
  }

  /**
   Once the system prompt has passed, a request is refused exactly when the mean of its sections is too low,
   wherever they are cut in two.
   */
  lemma {:induction false} RefusedIffMeanIsLow(prompt: string, blocks: seq<Block>, auxiliary: string, budget: Budget,
                                               split: Splitter, threshold: real, result: Result,
                                               a: seq<Section>, b: seq<Section>)
    requires budget.system >= 0 && Concludes(prompt, blocks, auxiliary, budget, split, threshold, result)
    requires result.sections == a + b && Used(a) > 0 && Used(b) > 0
    ensures result.refused == if TooLight(a, b, threshold) then Some(LowQuality) else None
  {
    UsedConcat(a, b);
    TooLightIff(a, b, threshold);
  }

  // ---------- Cutting by characters ----------

  lemma {:induction false} WordsByLength(text: string)
    ensures 2 * WordCount(text) <= |text| + 1
    ensures text != "" && IsSpace(text[|text| - 1]) ==> 2 * WordCount(text) <= |text|
  {
    if text != "" {
      var n := |text| - 1;
      WordsByLength(text[..n]);
    }
  }

  function Alternating(n: nat): string {
    if n == 0 then "" else Alternating(n - 1) + "a "
  }

  lemma {:induction false} AlternatingWords(n: nat)
    ensures |Alternating(n)| == 2 * n && WordCount(Alternating(n)) == n
    ensures n > 0 ==> IsSpace(Alternating(n)[2 * n - 1])
  {
    if n > 0 {
      AlternatingWords(n - 1);
      var s := Alternating(n);
      assert s[..2 * n - 1] == Alternating(n - 1) + "a";
      assert s[..2 * n - 1][..2 * n - 2] == Alternating(n - 1);
    }
  }

  /**
   The auxiliary text is cut by characters, four for each token of the room left. That leaves at most
   floor(8b/3) tokens for a room of b, and for every positive b some text that many.
   */
  lemma CharacterCutOvershoots(b: nat)
    requires b >= 1
    ensures forall text :: FitTokens(text, b) <= 8 * b / 3
    ensures exists text :: Tokens(text) > b && FitTokens(text, b) == 8 * b / 3 > b
  {
    forall text ensures FitTokens(text, b) <= 8 * b / 3 {
      WordsByLength(Clip(text, b));
    }
    AlternatingWords(2 * b);
    var text := Alternating(2 * b);
    assert Clip(text, b) == text;
    assert Tokens(text) > b && FitTokens(text, b) == 8 * b / 3 > b;
  }

  /** A text fits its room exactly when it did uncut, or the characters kept hold few enough words. */
  lemma CutFitsIff(text: string, b: int)
    requires b >= 1
    ensures FitTokens(text, b) <= b <==>
              || Tokens(text) <= b
              || 4 * WordCount(if |text| <= 4 * b then text else text[..4 * b]) < 3 * (b + 1)
  {}

  lemma {:induction false} WordsOfPrefix(text: string, n: nat)
    requires n <= |text|
    ensures WordCount(text[..n]) <= WordCount(text)
  {
    if n == |text| {
      assert text[..n] == text;
    } else {
      WordsOfPrefix(text[..|text| - 1], n);
      assert text[..|text| - 1][..n] == text[..n];
    }
  }

  lemma {:induction false} WordsOfConcat(a: string, b: string)
    ensures WordCount(a + b) <= WordCount(a) + WordCount(b)
  {
    if b == "" {
      assert a + b == a;
    } else {
      var n := |b| - 1;
      WordsOfConcat(a, b[..n]);
      assert a + b == (a + b[..n]) + [b[n]] && b == b[..n] + [b[n]];
      WordSnoc(a + b[..n], b[n]);
    }
  }

  /**
   The system prompt is cut the same way, but only after a prompt that is too long by itself has been
   refused. So it goes over its budget by no more than the note that is added to it.
   */
  lemma PromptOvershootsByItsNote(system: string, note: string, b: int)
    requires b >= 0 && Tokens(system) <= b
    ensures FitTokens(system + note, b) <= b + Tokens(note) + 1
  {
    WordsOfConcat(system, note);
    WordsOfPrefix(system + note, if |system + note| <= 4 * b then |system + note| else 4 * b);
    assert (system + note)[..|system + note|] == system + note;
    FewerWords(Clip(system + note, b), system, note);
  }

  lemma FewerWords(text: string, a: string, b: string)
    requires WordCount(text) <= WordCount(a) + WordCount(b)
    ensures Tokens(text) <= Tokens(a) + Tokens(b) + 1
  {}

  // ---------- The whole result ----------

  /** No sentence of the given blocks has more than m tokens. */
  ghost predicate Short(blocks: seq<Block>, split: Splitter, m: nat) {
    forall b, i :: b in blocks && 0 <= i < |split(b.text)| ==> Tokens(split(b.text)[i]) <= m
  }

  lemma {:induction false} SomeLength(sentences: seq<string>) returns (m: nat)
    ensures m >= 1 && forall i :: 0 <= i < |sentences| ==> Tokens(sentences[i]) <= m
  {
    m := 1;
    if sentences != [] {
      m := SomeLength(sentences[..|sentences| - 1]);
      var last := Tokens(sentences[|sentences| - 1]);
      m := if last <= m then m else last;
    }
  }

  /** However long the sentences are, some bound holds for any given blocks. */
  lemma {:induction false} SomeBound(blocks: seq<Block>, split: Splitter) returns (m: nat)
    ensures m >= 1 && Short(blocks, split, m)
  {
    m := 1;
    if blocks != [] {
      var init, last := blocks[..|blocks| - 1], blocks[|blocks| - 1];
      var before := SomeBound(init, split);
      var own := SomeLength(split(last.text));
      m := if own <= before then before else own;
      assert blocks == init + [last];
    }
  }

  lemma {:induction false} UsedIsNatural(blocks: seq<Block>, budget: int, split: Splitter, sections: seq<Section>)
    requires FilledSoFar(blocks, budget, split, sections)
    ensures Used(sections) >= 0
  {
    if sections != [] {
      UsedIsNatural(blocks, budget, split, sections[..|sections| - 1]);
    }
  }

  lemma CategoryBound(cat: Category, blocks: seq<Block>, budget: int, split: Splitter, sections: seq<Section>, m: nat)
    requires Splits(split) && Short(blocks, split, m) && m >= 1 && budget >= 0
    requires Filled(Ranked(cat, blocks), budget, split, sections)
    ensures 0 <= Used(sections) < budget + m
  {
    var ranked := Ranked(cat, blocks);
    UsedIsNatural(ranked, budget, split, sections);
    RankedFacts(cat, blocks);
    OvershootIsOneSentence(ranked, budget, split, sections);
    if sections != [] {
      KeptAt(ranked, budget, split, sections, |sections| - 1);
      assert ranked[|sections| - 1] in ranked;
    }
  }

  lemma AuxiliaryBound(auxiliary: string, budget: int, used: int, m: nat)
    requires 0 <= used < budget + m
    ensures used + AuxTokens(auxiliary, budget, used)
         <= if 8 * budget / 3 < budget + m then budget + m else 8 * budget / 3
  {
    if auxiliary != "" && used < budget {
      CharacterCutOvershoots(budget - used);
      assert AuxTokens(auxiliary, budget, used) == FitTokens(auxiliary, budget - used);
    }
  }

  /**
   The total of a result. If the sentences of the given blocks have at most m tokens, a category goes less
   than m over its budget, the prompt goes over by its note, and the auxiliary text fills aux to 8/3 of its
   budget at most.
   */
  lemma {:induction false} TotalIsBounded(system: string, note: string, blocks: seq<Block>, auxiliary: string,
                                          budget: Budget, split: Splitter, threshold: real, result: Result, m: nat)
    requires Splits(split) && Short(blocks, split, m) && m >= 1
    requires budget.system >= 0 && budget.evidence >= 0 && budget.rag >= 0 && budget.aux >= 0
    requires Tokens(system) <= budget.system
    requires Concludes(system + note, blocks, auxiliary, budget, split, threshold, result)
    ensures var aux := if 8 * budget.aux / 3 < budget.aux + m then budget.aux + m else 8 * budget.aux / 3;
            result.totalTokens <= budget.system + Tokens(note) + 1 + budget.evidence + budget.rag + 2 * m + aux
  {
    var parts :| Budgeted(system + note, blocks, auxiliary, budget, split, threshold, result, parts);
    PromptOvershootsByItsNote(system, note, budget.system);
    CategoryBound(Evidence, blocks, budget.evidence, split, parts.evidence, m);
    CategoryBound(Rag, blocks, budget.rag, split, parts.rag, m);
    CategoryBound(Aux, blocks, budget.aux, split, parts.aux, m);
    AuxiliaryBound(auxiliary, budget.aux, Used(parts.aux), m);
    UsedConcat(parts.evidence, parts.rag);
    UsedConcat(parts.evidence + parts.rag, parts.aux);
  }

  // ---------- Requests that fit ----------

  function TokensOfAll(blocks: seq<Block>): nat {
    if blocks == [] then 0 else TokensOfAll(blocks[..|blocks| - 1]) + Tokens(blocks[|blocks| - 1].text)
  }

  /** The sections of blocks that are kept as they are. */
  function Uncut(blocks: seq<Block>): seq<Section> {
    seq(|blocks|, i requires 0 <= i < |blocks| =>
      Section(blocks[i].name, blocks[i].text, blocks[i].score, Tokens(blocks[i].text), Tokens(blocks[i].text), false))
  }

  lemma {:induction false} PrefixFits(blocks: seq<Block>, n: nat)
    requires n <= |blocks|
    ensures TokensOfAll(blocks[..n]) <= TokensOfAll(blocks)
    ensures n < |blocks| ==> TokensOfAll(blocks[..n]) + Tokens(blocks[n].text) <= TokensOfAll(blocks)
  {
    if n == |blocks| {
      assert blocks[..n] == blocks;
    } else {
      var init := blocks[..|blocks| - 1];
      PrefixFits(init, n);
      assert init[..n] == blocks[..n];
    }
  }

  lemma UncutSection(b: Block, remaining: int, split: Splitter, s: Section)
    requires Keeps(b, remaining, split, s) && Tokens(b.text) <= remaining
    ensures s == Section(b.name, b.text, b.score, Tokens(b.text), Tokens(b.text), false)
  {
    var k: nat :| IsCut(b.text, remaining, split, Cut(s.text, s.truncated, s.finalTokens), k);
  }

  lemma {:induction false} UncutSoFar(blocks: seq<Block>, budget: int, split: Splitter, sections: seq<Section>)
    requires FilledSoFar(blocks, budget, split, sections) && TokensOfAll(blocks) <= budget
    ensures |sections| <= |blocks| && sections == Uncut(blocks[..|sections|])
    ensures Used(sections) == TokensOfAll(blocks[..|sections|])
  {
    if sections != [] {
      var n := |sections| - 1;
      UncutSoFar(blocks, budget, split, sections[..n]);
      PrefixFits(blocks, n);
      UncutSection(blocks[n], budget - Used(sections[..n]), split, sections[n]);
      assert blocks[..n + 1][..n] == blocks[..n];
      assert Uncut(blocks[..n + 1]) == Uncut(blocks[..n]) + [sections[n]];
      assert sections == sections[..n] + [sections[n]];
    }
  }

  /** A category whose blocks fit is kept whole. */
  lemma {:induction false} UncutCategory(blocks: seq<Block>, budget: int, split: Splitter, sections: seq<Section>)
    requires Filled(blocks, budget, split, sections) && TokensOfAll(blocks) <= budget
    requires forall i :: 0 <= i < |blocks| ==> blocks[i].text != ""
    ensures sections == Uncut(blocks) && Used(sections) == TokensOfAll(blocks)
  {
    UncutSoFar(blocks, budget, split, sections);
    PrefixFits(blocks, |sections|);
    assert forall i :: 0 <= i < |blocks| ==> Tokens(blocks[i].text) >= 1;
    assert blocks[..|blocks|] == blocks;
  }

  /**
   A request whose parts all fit loses nothing: every non-empty block outside "system" is kept whole, evidence
   first, then rag, then aux, and the total is the sum of all estimates, the auxiliary text's included.
   */
  lemma {:induction false} NothingIsLostWhenAllFits(prompt: string, blocks: seq<Block>, auxiliary: string,
                                                    budget: Budget, split: Splitter, threshold: real, result: Result)
    requires 0 <= Tokens(prompt) <= budget.system
    requires Concludes(prompt, blocks, auxiliary, budget, split, threshold, result)
    requires TokensOfAll(Ranked(Evidence, blocks)) <= budget.evidence
    requires TokensOfAll(Ranked(Rag, blocks)) <= budget.rag
    requires TokensOfAll(Ranked(Aux, blocks)) + Tokens(auxiliary) <= budget.aux
    ensures result.sections == Uncut(Ranked(Evidence, blocks)) + Uncut(Ranked(Rag, blocks)) + Uncut(Ranked(Aux, blocks))
    ensures result.systemTokens == Tokens(prompt)
    ensures result.totalTokens == Tokens(prompt) + TokensOfAll(Ranked(Evidence, blocks))
                                  + TokensOfAll(Ranked(Rag, blocks)) + TokensOfAll(Ranked(Aux, blocks))
                                  + Tokens(auxiliary)
  {
    var parts :| Budgeted(prompt, blocks, auxiliary, budget, split, threshold, result, parts);
    RankedFacts(Evidence, blocks);
    RankedFacts(Rag, blocks);
    RankedFacts(Aux, blocks);
    UncutCategory(Ranked(Evidence, blocks), budget.evidence, split, parts.evidence);
    UncutCategory(Ranked(Rag, blocks), budget.rag, split, parts.rag);
    UncutCategory(Ranked(Aux, blocks), budget.aux, split, parts.aux);
    UsedConcat(parts.evidence, parts.rag);
    UsedConcat(parts.evidence + parts.rag, parts.aux);
    FittingAuxiliary(auxiliary, budget.aux, Used(parts.aux));
  }

  lemma FittingAuxiliary(auxiliary: string, budget: int, used: int)
    requires used + Tokens(auxiliary) <= budget
    ensures AuxTokens(auxiliary, budget, used) == Tokens(auxiliary)
  {}
}
