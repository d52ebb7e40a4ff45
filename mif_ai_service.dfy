/** The MIF (Functional Independence Measure) score suggestion engine of
    lib/mif-ai-service.ts: a fixed rule table of seven levels, a keyword
    scorer, an adjustment from past clinician decisions, the selector that
    turns the weights into a suggested score with confidence, alternatives,
    matched keywords and an explanation, and the bounded decision log.

    Weights are kept as integers scaled by 20, so that every step of the
    source is integral: a positive keyword adds 20 (1.0), a negative one
    takes 10 (0.5), a past decision adds 10 or 15 (0.5 or 0.75) and an
    overridden suggestion loses 6 (0.3). Weights are a sequence of seven
    numbers indexed by score - 1. */
module MifAiService {
  import opened Text

  /** A MIF score. */
  type Score = s: int | 1 <= s <= 7 witness 1

  datatype Level = Level(value: Score, keywords: seq<string>, negativeKeywords: seq<string>)

  /** `MIF_LEVELS`, the keyword columns: one level per score, in ascending
      order. The label and description columns are `LevelLabel` and
      `LevelDescription`. */
  function Levels(): (r: seq<Level>)
    ensures |r| == 7
    ensures forall i :: 0 <= i < 7 ==> r[i].value == i + 1
  {
    [
      Level(1,
        ["não consegue", "incapaz", "totalmente dependente", "assistência total", "sem participação", "0%",
         "nenhuma capacidade", "completamente dependente", "necessita assistência total", "não realiza", "não executa"],
        ["independente", "sozinho", "sem ajuda", "autonomia"]),
      Level(2,
        ["muita ajuda", "assistência máxima", "mínima participação", "pouco contribui", "25%", "grande dificuldade",
         "muito limitado", "necessita muita ajuda", "realiza pequena parte", "contribuição mínima", "esforço mínimo"],
        ["independente", "sozinho", "sem ajuda", "supervisão apenas"]),
      Level(3,
        ["ajuda moderada", "assistência moderada", "participação parcial", "contribui moderadamente", "50%",
         "metade da tarefa", "necessita ajuda moderada", "realiza metade", "contribuição moderada", "esforço moderado",
         "auxílio constante"],
        ["independente", "sozinho", "sem ajuda", "apenas supervisão"]),
      Level(4,
        ["pouca ajuda", "assistência mínima", "contato leve", "suporte mínimo", "75%", "maior parte da tarefa",
         "necessita pouca ajuda", "realiza maior parte", "contribuição significativa", "esforço significativo",
         "auxílio ocasional"],
        ["totalmente dependente", "não consegue", "incapaz"]),
      Level(5,
        ["supervisão", "preparo", "orientação", "comando verbal", "instrução", "monitoramento", "sem contato físico",
         "precisa ser lembrado", "necessita supervisão", "observação", "estímulo", "incentivo", "sem ajuda física"],
        ["assistência física", "ajuda física", "contato físico", "incapaz"]),
      Level(6,
        ["independência modificada", "dispositivo", "adaptação", "órtese", "prótese", "tecnologia assistiva",
         "auxílio técnico", "tempo adicional", "mais tempo", "adaptado", "modificado", "com dispositivo",
         "com adaptação", "independente com"],
        ["assistência", "ajuda", "supervisão", "dependente"]),
      Level(7,
        ["independente", "sozinho", "sem ajuda", "autonomia", "completa independência", "sem dificuldade",
         "sem adaptação", "sem dispositivo", "tempo razoável", "segurança", "sem risco", "completamente independente",
         "total independência"],
        ["assistência", "ajuda", "supervisão", "dependente", "adaptação", "dispositivo"])
    ]
  }

  /** The `label` column of `MIF_LEVELS`. */
  function LevelLabel(s: Score): string
  {
    match s
    case 1 => "Dependência Total (Assistência Total)"
    case 2 => "Dependência Máxima (Assistência Máxima)"
    case 3 => "Dependência Moderada (Assistência Moderada)"
    case 4 => "Dependência Mínima (Assistência Mínima)"
    case 5 => "Supervisão/Preparo"
    case 6 => "Independência Modificada"
    case 7 => "Independência Completa"
  }

  /** The `description` column of `MIF_LEVELS`. */
  function LevelDescription(s: Score): string
  {
    match s
    case 1 => "Paciente realiza menos de 25% do esforço necessário. Requer assistência total ou a tarefa não é realizada."
    case 2 => "Paciente realiza entre 25% e 49% do esforço necessário. Requer assistência máxima."
    case 3 => "Paciente realiza entre 50% e 74% do esforço necessário. Requer assistência moderada."
    case 4 => "Paciente realiza 75% ou mais do esforço necessário. Requer apenas assistência mínima."
    case 5 => "Paciente requer apenas supervisão, orientação, encorajamento ou preparo, sem contato físico."
    case 6 => "Paciente realiza a tarefa de forma independente, mas usa dispositivos, requer mais tempo ou há preocupações de segurança."
    case 7 => "Paciente realiza a tarefa de forma totalmente independente, sem adaptações, em tempo razoável e com segurança."
  }

  /** `MIFAnalysisHistory`: one confirmed decision. */
  datatype HistoryEntry = HistoryEntry(
    fieldText: string,
    suggestedScore: Score,
    selectedScore: Score,
    fieldName: string,
    timestamp: int)

  datatype Alternative = Alternative(score: Score, probability: real)

  /** `MIFAnalysisResult`. */
  datatype AnalysisResult = AnalysisResult(
    score: Score,
    confidence: real,
    explanation: string,
    keywords: seq<string>,
    alternativeScores: seq<Alternative>)

  /** Seven weights, indexed by score - 1, none negative. */
  predicate WellFormed(w: seq<int>) {
    |w| == 7 && forall i :: 0 <= i < 7 ==> w[i] >= 0
  }

  function Max0(x: int): int { if x < 0 then 0 else x }

  // ---------------------------------------------------------------------
  // Keyword scorer (calculateScoreByKeywords)
  // ---------------------------------------------------------------------

  /** Number of the keywords of `kws` found in the lower-cased text. */
  function Hits(lowerText: string, kws: seq<string>): (n: nat)
    ensures n <= |kws|
  {
    if |kws| == 0 then 0
    else Hits(lowerText, kws[..|kws| - 1]) + (if Contains(lowerText, Lower(kws[|kws| - 1])) then 1 else 0)
  }

  /** The weight after the negative keywords are applied one by one, each
      found one taking 10 and clamping at 0. */
  function AfterNegatives(w: int, lowerText: string, negs: seq<string>): int
  {
    if |negs| == 0 then w
    else
      var v := AfterNegatives(w, lowerText, negs[..|negs| - 1]);
      if Contains(lowerText, Lower(negs[|negs| - 1])) then Max0(v - 10) else v
  }

  /** The keyword weight of one level for an already lower-cased text. */
  function KeywordWeight(lowerText: string, level: Level): int
  {
    AfterNegatives(20 * Hits(lowerText, level.keywords), lowerText, level.negativeKeywords)
  }

  function KeywordWeights(text: string): seq<int>
  {
    var t := Lower(text);
    var levels := Levels();
    seq(7, i requires 0 <= i < 7 => KeywordWeight(t, levels[i]))
  }

  /** Clamping after every step is the same as clamping once at the end:
      the weight is max(0, w - 10 * (number of negative keywords found)). */
  lemma {:induction false} AfterNegativesClosedForm(w: int, lowerText: string, negs: seq<string>)
    requires w >= 0
    ensures AfterNegatives(w, lowerText, negs) == Max0(w - 10 * Hits(lowerText, negs))
  {
    if |negs| > 0 {
      AfterNegativesClosedForm(w, lowerText, negs[..|negs| - 1]);
    }
  }

  /** Each level weighs 20 per positive keyword found less 10 per negative
      keyword found, never below 0. */
  lemma KeywordWeightsClosedForm(text: string)
    ensures |KeywordWeights(text)| == 7
    ensures forall i :: 0 <= i < 7 ==>
      KeywordWeights(text)[i]
        == Max0(20 * Hits(Lower(text), Levels()[i].keywords) - 10 * Hits(Lower(text), Levels()[i].negativeKeywords))
    ensures WellFormed(KeywordWeights(text))
  {
    forall i | 0 <= i < 7
      ensures KeywordWeights(text)[i]
        == Max0(20 * Hits(Lower(text), Levels()[i].keywords) - 10 * Hits(Lower(text), Levels()[i].negativeKeywords))
    {
      AfterNegativesClosedForm(20 * Hits(Lower(text), Levels()[i].keywords), Lower(text), Levels()[i].negativeKeywords);
    }
  }

  /** Keywords of different levels overlap as substrings: a text saying
      "50%" (a level 3 keyword) also hits the level 1 keyword "0%", and the
      level 7 keyword "independente" also hits "dependente", a negative
      keyword of levels 6 and 7. */
  lemma KeywordOverlaps()
    ensures Contains("50%", "0%")
    ensures Contains("independente", "dependente")
  {
    assert OccursAt("50%", "0%", 1);
    assert OccursAt("independente", "dependente", 2);
  }

  /** `calculateScoreByKeywords`: the weight map is filled level by level,
      keyword by keyword. */
  method CalculateScoreByKeywords(text: string) returns (weights: seq<int>)
    ensures weights == KeywordWeights(text)
  {
    var lowerText := Lower(text);
    var levels := Levels();
    weights := [0, 0, 0, 0, 0, 0, 0];
    var l := 0;
    while l < 7
      invariant 0 <= l <= 7 && |weights| == 7
      invariant forall j :: 0 <= j < l ==> weights[j] == KeywordWeight(lowerText, levels[j])
    {
      var level := levels[l];
      var w := 0;
      var k := 0;
      while k < |level.keywords|
        invariant 0 <= k <= |level.keywords|
        invariant w == 20 * Hits(lowerText, level.keywords[..k])
      {
        assert level.keywords[..k + 1][..k] == level.keywords[..k];
        if Contains(lowerText, Lower(level.keywords[k])) {
          w := w + 20;
        }
        k := k + 1;
      }
      assert level.keywords[..k] == level.keywords;
      k := 0;
      var base := w;
      while k < |level.negativeKeywords|
        invariant 0 <= k <= |level.negativeKeywords|
        invariant w == AfterNegatives(base, lowerText, level.negativeKeywords[..k])
      {
        assert level.negativeKeywords[..k + 1][..k] == level.negativeKeywords[..k];
        if Contains(lowerText, Lower(level.negativeKeywords[k])) {
          w := Max0(w - 10);
        }
        k := k + 1;
      }
      assert level.negativeKeywords[..k] == level.negativeKeywords;
      weights := weights[l := w];
      l := l + 1;
    }
  }

  // ---------------------------------------------------------------------
  // History adjuster (analyzeHistoryPatterns)
  // ---------------------------------------------------------------------

  /** An entry is relevant when its field name equals the current one, or
      either name contains the first five characters of the other. An empty
      name has the empty prefix, which every name contains. */
  predicate Relevant(fieldName: string, e: HistoryEntry) {
    e.fieldName == fieldName
    || Contains(e.fieldName, Prefix(fieldName, 5))
    || Contains(fieldName, Prefix(e.fieldName, 5))
  }

  /** `analysisHistory.filter(...)`, as the positions of the relevant
      entries (each entry is a distinct object, so `indexOf` is its
      position). */
  function RelevantIndices(fieldName: string, history: seq<HistoryEntry>): (r: seq<nat>)
    ensures forall j :: 0 <= j < |r| ==> r[j] < |history|
  {
    if |history| == 0 then []
    else
      var prev := RelevantIndices(fieldName, history[..|history| - 1]);
      if Relevant(fieldName, history[|history| - 1]) then prev + [|history| - 1] else prev
  }

  /** The filter keeps exactly the relevant entries, in history order. */
  lemma {:induction false} RelevantIndicesExact(fieldName: string, history: seq<HistoryEntry>)
    ensures forall j :: 0 <= j < |RelevantIndices(fieldName, history)| ==>
      Relevant(fieldName, history[RelevantIndices(fieldName, history)[j]])
    ensures forall j, k :: 0 <= j < k < |RelevantIndices(fieldName, history)| ==>
      RelevantIndices(fieldName, history)[j] < RelevantIndices(fieldName, history)[k]
    ensures forall i :: 0 <= i < |history| && Relevant(fieldName, history[i]) ==>
      i in RelevantIndices(fieldName, history)
  {
    if |history| > 0 {
      var init := history[..|history| - 1];
      RelevantIndicesExact(fieldName, init);
      assert forall i :: 0 <= i < |init| ==> init[i] == history[i];
    }
  }

  /** 15 (0.75) for an entry whose position is above length - 10, else 10
      (0.5); only the last nine positions pass that test. */
  function RecencyBonus(index: nat, n: nat): int
  {
    if index > n - 10 then 15 else 10
  }

  /** One relevant entry: its selected score gains the recency bonus; an
      overridden suggestion loses 6, clamped at 0. */
  function ApplyEntry(w: seq<int>, e: HistoryEntry, index: nat, n: nat): (r: seq<int>)
    requires |w| == 7
    ensures |r| == 7
  {
    var w1 := w[e.selectedScore - 1 := w[e.selectedScore - 1] + RecencyBonus(index, n)];
    if e.suggestedScore != e.selectedScore then w1[e.suggestedScore - 1 := Max0(w1[e.suggestedScore - 1] - 6)]
    else w1
  }

  /** The entries at positions `idx`, in order. */
  function ApplyAll(w: seq<int>, history: seq<HistoryEntry>, idx: seq<nat>): (r: seq<int>)
    requires |w| == 7
    requires forall j :: 0 <= j < |idx| ==> idx[j] < |history|
    ensures |r| == 7
  {
    if |idx| == 0 then w
    else
      var prev := ApplyAll(w, history, idx[..|idx| - 1]);
      ApplyEntry(prev, history[idx[|idx| - 1]], idx[|idx| - 1], |history|)
  }

  function HistoryAdjusted(fieldName: string, w: seq<int>, history: seq<HistoryEntry>): (r: seq<int>)
    requires |w| == 7
    ensures |r| == 7
  {
    var idx := RelevantIndices(fieldName, history);
    if |idx| == 0 then w else ApplyAll(w, history, idx)
  }

  /** `analyzeHistoryPatterns`: filter the relevant entries, return the
      weights untouched when there are none, otherwise update the copied
      weights entry by entry. */
  method AnalyzeHistoryPatterns(fieldName: string, scoreWeights: seq<int>, history: seq<HistoryEntry>)
    returns (adjusted: seq<int>)
    requires |scoreWeights| == 7
    ensures adjusted == HistoryAdjusted(fieldName, scoreWeights, history)
  {
    var relevant := RelevantIndices(fieldName, history);
    if |relevant| == 0 {
      return scoreWeights;
    }
    adjusted := scoreWeights;
    var j := 0;
    while j < |relevant|
      invariant 0 <= j <= |relevant| && |adjusted| == 7
      invariant adjusted == ApplyAll(scoreWeights, history, relevant[..j])
    {
      assert relevant[..j + 1][..j] == relevant[..j];
      adjusted := RecordDecision(adjusted, history[relevant[j]], relevant[j], |history|);
      j := j + 1;
    }
    assert relevant[..j] == relevant;
  }

  /** The body of the `forEach` over the relevant entries. */
  method RecordDecision(adjusted: seq<int>, entry: HistoryEntry, index: nat, n: nat) returns (r: seq<int>)
    requires |adjusted| == 7
    ensures r == ApplyEntry(adjusted, entry, index, n)
  {
    var recencyFactor := if index > n - 10 then 15 else 10;
    r := adjusted[entry.selectedScore - 1 := adjusted[entry.selectedScore - 1] + recencyFactor];
    if entry.suggestedScore != entry.selectedScore {
      r := r[entry.suggestedScore - 1 := Max0(r[entry.suggestedScore - 1] - 6)];
    }
  }

  lemma {:induction false} ApplyAllWellFormed(w: seq<int>, history: seq<HistoryEntry>, idx: seq<nat>)
    requires WellFormed(w)
    requires forall j :: 0 <= j < |idx| ==> idx[j] < |history|
    ensures WellFormed(ApplyAll(w, history, idx))
  {
    if |idx| > 0 {
      ApplyAllWellFormed(w, history, idx[..|idx| - 1]);
    }
  }

  /** The adjustment never makes a weight negative. */
  lemma HistoryAdjustedWellFormed(fieldName: string, w: seq<int>, history: seq<HistoryEntry>)
    requires WellFormed(w)
    ensures WellFormed(HistoryAdjusted(fieldName, w, history))
  {
    var idx := RelevantIndices(fieldName, history);
    if |idx| > 0 {
      ApplyAllWellFormed(w, history, idx);
    }
  }

  /** With no relevant entry the weights come back unchanged. */
  lemma NoRelevantHistoryUnchanged(fieldName: string, w: seq<int>, history: seq<HistoryEntry>)
    requires |w| == 7
    requires forall i :: 0 <= i < |history| ==> !Relevant(fieldName, history[i])
    ensures HistoryAdjusted(fieldName, w, history) == w
  {
    RelevantIndicesExact(fieldName, history);
  }

  /** An empty field name makes every entry relevant. */
  lemma {:induction false} EmptyFieldNameMatchesAll(history: seq<HistoryEntry>)
    ensures RelevantIndices("", history) == seq(|history|, i requires 0 <= i < |history| => i)
  {
    if |history| > 0 {
      var n := |history|;
      EmptyFieldNameMatchesAll(history[..n - 1]);
      assert Prefix("", 5) == "";
      ContainsEmpty(history[n - 1].fieldName);
      assert Relevant("", history[n - 1]);
    }
  }

  /** The recency window: of a history of n entries, exactly the last nine
      positions (n - 9 .. n - 1) get the larger bonus; position n - 10 does
      not. */
  lemma RecencyWindowIsNine(index: nat, n: nat)
    requires index < n
    ensures RecencyBonus(index, n) == 15 <==> index >= n - 9
    ensures n >= 10 ==> RecencyBonus(n - 10, n) == 10
  {
  }

  /** The bonus as the comment above the test describes it: the last ten
      entries, positions n - 10 .. n - 1. */
  function IntendedRecencyBonus(index: nat, n: nat): (b: int)
    ensures b == 15 <==> index + 10 >= n
    ensures b == 10 <==> index + 10 < n
  {
    if index >= n - 10 then 15 else 10
  }

  /** The intended window holds exactly ten positions of a long history:
      position n - 10 is in it, position n - 11 is not, and it differs from
      the bonus as written only at position n - 10. */
  lemma IntendedRecencyWindowIsTen(n: nat)
    requires n >= 11
    ensures IntendedRecencyBonus(n - 10, n) == 15 && IntendedRecencyBonus(n - 11, n) == 10
    ensures forall index: nat :: index < n ==>
      (IntendedRecencyBonus(index, n) != RecencyBonus(index, n) <==> index == n - 10)
  {
  }

  // ---------------------------------------------------------------------
  // Selector (analyzeMIFScore)
  // ---------------------------------------------------------------------

  datatype Best = Best(score: Score, weight: int)

  /** The running maximum over the first k weights, starting from score 5
      and weight 0 and replacing it only on a strictly greater weight. */
  function ScanMax(w: seq<int>, k: nat): Best
    requires k <= |w| <= 7
  {
    if k == 0 then Best(5, 0)
    else
      var b := ScanMax(w, k - 1);
      if w[k - 1] > b.weight then Best(k, w[k - 1]) else b
  }

  lemma {:induction false} ScanMaxProperties(w: seq<int>, k: nat)
    requires k <= |w| <= 7
    requires forall i :: 0 <= i < |w| ==> w[i] >= 0
    ensures ScanMax(w, k).weight >= 0
    ensures forall i :: 0 <= i < k ==> w[i] <= ScanMax(w, k).weight
    ensures ScanMax(w, k).weight > 0 ==>
      ScanMax(w, k).score <= k
      && w[ScanMax(w, k).score - 1] == ScanMax(w, k).weight
      && forall i :: 0 <= i < ScanMax(w, k).score - 1 ==> w[i] < ScanMax(w, k).weight
    ensures ScanMax(w, k).weight == 0 ==> ScanMax(w, k).score == 5
  {
    if k > 0 {
      ScanMaxProperties(w, k - 1);
    }
  }

  /** The length heuristic used when every weight is 0. */
  function FallbackScore(text: string): (s: Score)
    ensures WordCount(text) < 5 <==> s == 7
    ensures WordCount(text) > 30 <==> s == 3
    ensures 5 <= WordCount(text) <= 30 <==> s == 5
  {
    var wordCount := WordCount(text);
    if wordCount < 5 then 7 else if wordCount > 30 then 3 else 5
  }

  function Sum(w: seq<int>): int
  {
    if |w| == 0 then 0 else Sum(w[..|w| - 1]) + w[|w| - 1]
  }

  lemma {:induction false} SumBounds(w: seq<int>)
    requires forall i :: 0 <= i < |w| ==> w[i] >= 0
    ensures Sum(w) >= 0
    ensures forall i :: 0 <= i < |w| ==> w[i] <= Sum(w)
  {
    if |w| > 0 {
      SumBounds(w[..|w| - 1]);
    }
  }

  /** Every level of the first k other than `chosen` with positive weight,
      in ascending score order, with probability weight / total. */
  function Candidates(w: seq<int>, k: nat, chosen: Score, total: int): (r: seq<Alternative>)
    requires k <= |w| <= 7
    ensures forall j :: 0 <= j < |r| ==> r[j].score <= k
    ensures forall j, m :: 0 <= j < m < |r| ==> r[j].score < r[m].score
  {
    if k == 0 then []
    else
      var prev := Candidates(w, k - 1, chosen, total);
      if k != chosen && w[k - 1] > 0 then
        prev + [Alternative(k, if total > 0 then (w[k - 1] as real) / (total as real) else 0.0)]
      else prev
  }

  lemma ProbabilityBounds(weight: int, total: int)
    requires 0 < weight <= total
    ensures 0.0 < (weight as real) / (total as real) <= 1.0
  {
    assert (weight as real) <= (total as real);
  }

  /** Every alternative is another level with positive weight, weighted by
      its share of the total. */
  lemma {:induction false} CandidatesSound(w: seq<int>, k: nat, chosen: Score, total: int)
    requires k <= |w| <= 7
    ensures forall a :: a in Candidates(w, k, chosen, total) ==>
      a.score != chosen && w[a.score - 1] > 0
      && (total > 0 ==> a.probability == (w[a.score - 1] as real) / (total as real))
  {
    if k > 0 {
      CandidatesSound(w, k - 1, chosen, total);
    }
  }

  /** Every other level with positive weight is an alternative. */
  lemma {:induction false} CandidatesComplete(w: seq<int>, k: nat, chosen: Score, total: int, i: nat)
    requires k <= |w| <= 7
    requires i < k && i + 1 != chosen && w[i] > 0
    ensures exists a :: a in Candidates(w, k, chosen, total) && a.score == i + 1
  {
    var prev := Candidates(w, k - 1, chosen, total);
    if i < k - 1 {
      CandidatesComplete(w, k - 1, chosen, total, i);
      var a :| a in prev && a.score == i + 1;
      assert a in Candidates(w, k, chosen, total);
    } else {
      assert Candidates(w, k, chosen, total)[|prev|].score == i + 1;
    }
  }

  /** With every weight 0 there is no candidate. */
  lemma {:induction false} CandidatesOfZero(w: seq<int>, k: nat, chosen: Score, total: int)
    requires k <= |w| <= 7
    requires forall i :: 0 <= i < |w| ==> w[i] == 0
    ensures Candidates(w, k, chosen, total) == []
  {
    if k > 0 {
      CandidatesOfZero(w, k - 1, chosen, total);
    }
  }

  /** `a` sorts before `b`: a higher probability, or the same probability
      and a lower score. */
  predicate Before(a: Alternative, b: Alternative) {
    a.probability > b.probability || (a.probability == b.probability && a.score < b.score)
  }

  predicate Ordered(s: seq<Alternative>) {
    forall i, j :: 0 <= i < j < |s| ==> Before(s[i], s[j])
  }

  /** One step of a stable sort by descending probability: `x` goes after
      every element whose probability is at least its own. */
  function Insert(s: seq<Alternative>, x: Alternative): (r: seq<Alternative>)
    ensures multiset(r) == multiset(s) + multiset{x}
  {
    if |s| == 0 then [x]
    else if s[|s| - 1].probability >= x.probability then s + [x]
    else
      assert s == s[..|s| - 1] + [s[|s| - 1]];
      Insert(s[..|s| - 1], x) + [s[|s| - 1]]
  }

  /** `alternativeScores.sort((a, b) => b.probability - a.probability)`:
      JavaScript's sort is stable, so equal probabilities keep their order. */
  function SortByProbability(s: seq<Alternative>): (r: seq<Alternative>)
    ensures multiset(r) == multiset(s)
  {
    if |s| == 0 then []
    else
      assert s == s[..|s| - 1] + [s[|s| - 1]];
      Insert(SortByProbability(s[..|s| - 1]), s[|s| - 1])
  }

  lemma {:induction false} InsertOrdered(s: seq<Alternative>, x: Alternative)
    requires Ordered(s)
    requires forall a :: a in s ==> a.score < x.score
    ensures Ordered(Insert(s, x))
  {
    if |s| > 0 {
      var last := s[|s| - 1];
      if last.probability >= x.probability {
        forall i | 0 <= i < |s| ensures Before(s[i], x) {
          if i < |s| - 1 { assert Before(s[i], last); }
        }
      } else {
        var init := s[..|s| - 1];
        assert forall a :: a in init ==> a in s;
        InsertOrdered(init, x);
        AllBeforeLast(s, x);
        AppendOrdered(Insert(init, x), last);
      }
    }
  }

  /** Every element of `s[..|s|-1]` with `x` inserted sorts before the last
      element of `s`, when `x` does. */
  lemma AllBeforeLast(s: seq<Alternative>, x: Alternative)
    requires |s| > 0 && Ordered(s)
    requires s[|s| - 1].probability < x.probability
    ensures var last := s[|s| - 1]; forall a :: a in Insert(s[..|s| - 1], x) ==> Before(a, last)
  {
    var init := s[..|s| - 1];
    var r := Insert(init, x);
    forall a | a in r ensures Before(a, s[|s| - 1]) {
      assert a in multiset(r);
      if a != x {
        assert a in multiset(init);
        var i :| 0 <= i < |init| && init[i] == a;
        assert Before(s[i], s[|s| - 1]);
      }
    }
  }

  /** An ordered sequence followed by an element everything sorts before
      is ordered. */
  lemma AppendOrdered(r: seq<Alternative>, last: Alternative)
    requires Ordered(r)
    requires forall a :: a in r ==> Before(a, last)
    ensures Ordered(r + [last])
  {
    var full := r + [last];
    forall i, j | 0 <= i < j < |full| ensures Before(full[i], full[j]) {
      if j == |full| - 1 {
        assert full[i] in r;
      }
    }
  }

  /** Sorting input given in ascending score order yields an order by
      descending probability with ties in ascending score order. */
  lemma {:induction false} SortByProbabilityOrdered(s: seq<Alternative>)
    requires forall i, j :: 0 <= i < j < |s| ==> s[i].score < s[j].score
    ensures Ordered(SortByProbability(s))
  {
    if |s| > 0 {
      var init := s[..|s| - 1];
      SortByProbabilityOrdered(init);
      var sorted := SortByProbability(init);
      forall a | a in sorted ensures a.score < s[|s| - 1].score {
        assert a in multiset(sorted);
        assert a in multiset(init);
        var i :| 0 <= i < |init| && init[i] == a;
      }
      InsertOrdered(sorted, s[|s| - 1]);
    }
  }

  function Take3(s: seq<Alternative>): (r: seq<Alternative>)
    ensures |r| <= 3
  {
    if |s| <= 3 then s else s[..3]
  }

  /** `Math.min(0.95, maxWeight > 0 ? 0.5 + maxWeight / 10 : 0.5)` with the
      scaled weight. */
  function Confidence(maxWeight: int): (c: real)
    ensures maxWeight <= 0 ==> c == 0.5
    ensures maxWeight > 0 ==> 0.5 < c <= 0.95
  {
    if maxWeight > 0 then
      (var c := 0.5 + (maxWeight as real) / 200.0; if c < 0.95 then c else 0.95)
    else 0.5
  }

  /** Every positive keyword, level 1 first, in list order. */
  function KeywordsOf(levels: seq<Level>): seq<string>
  {
    if |levels| == 0 then [] else KeywordsOf(levels[..|levels| - 1]) + levels[|levels| - 1].keywords
  }

  /** The keywords of `kws` found in the text, each kept once, in order of
      first occurrence. */
  function FoundKeywords(lowerText: string, kws: seq<string>): (r: seq<string>)
    ensures forall j :: 0 <= j < |r| ==> r[j] in kws && Contains(lowerText, Lower(r[j]))
    ensures forall j, k :: 0 <= j < k < |r| ==> r[j] != r[k]
    ensures forall k :: 0 <= k < |kws| && Contains(lowerText, Lower(kws[k])) ==> kws[k] in r
  {
    if |kws| == 0 then []
    else
      var prev := FoundKeywords(lowerText, kws[..|kws| - 1]);
      var kw := kws[|kws| - 1];
      if Contains(lowerText, Lower(kw)) && kw !in prev then prev + [kw] else prev
  }

  /** One more keyword: appended when found in the text and not yet listed. */
  lemma FoundKeywordsSnoc(lowerText: string, kws: seq<string>, kw: string)
    ensures var prev := FoundKeywords(lowerText, kws);
      FoundKeywords(lowerText, kws + [kw])
      == if Contains(lowerText, Lower(kw)) && kw !in prev then prev + [kw] else prev
  {
    assert (kws + [kw])[..|kws|] == kws;
  }

  function Digit(s: Score): string
  {
    [('0' as int + s) as char]
  }

  /** The explanation template: field label, chosen score and its label,
      up to three matched keywords, the level description and the top
      alternative. */
  function Explanation(fieldLabel: string, score: Score, keywords: seq<string>, alternatives: seq<Alternative>): (r: string)
    ensures StartsWith(r, Header(fieldLabel, score))
    ensures forall k :: 0 <= k < |keywords| && k < 3 ==> Contains(r, keywords[k])
    ensures Contains(r, LevelDescription(score))
    ensures |alternatives| > 0 ==> Contains(r, "MIF=" + Digit(alternatives[0].score))
  {
    var header := Header(fieldLabel, score);
    var shown := if |keywords| <= 3 then keywords else keywords[..3];
    var evidence := if |keywords| > 0 then
        "Esta análise é baseada em termos como \"" + Join(shown, "\", \"") + "\" encontrados no texto. "
      else "";
    var description := LevelDescription(score);
    var suggestion := "MIF=" + (if |alternatives| > 0 then Digit(alternatives[0].score) else "");
    var alternative := if |alternatives| > 0 then
        " Considere também " + suggestion + " como uma possibilidade alternativa."
      else "";
    StartsWithAppend(header, evidence + description + alternative);
    ExplanationParts(header, evidence, description, alternative);
    ContainsSelf(suggestion);
    ContainsInfix(" Considere também ", suggestion, " como uma possibilidade alternativa.", suggestion);
    if |keywords| > 0 then
      forall k | 0 <= k < |keywords| && k < 3
        ensures Contains(evidence, keywords[k])
      {
        assert shown[k] == keywords[k];
        ContainsInfix("Esta análise é baseada em termos como \"", Join(shown, "\", \""),
          "\" encontrados no texto. ", keywords[k]);
      }
      header + (evidence + description + alternative)
    else
      header + (evidence + description + alternative)
  }

  /** Whatever the evidence, description or alternative sentence holds,
      the explanation holds. */
  lemma ExplanationParts(header: string, evidence: string, description: string, alternative: string)
    ensures forall t :: Contains(evidence, t) ==> Contains(header + (evidence + description + alternative), t)
    ensures Contains(header + (evidence + description + alternative), description)
    ensures forall t :: Contains(alternative, t) ==> Contains(header + (evidence + description + alternative), t)
  {
    var all := header + (evidence + description + alternative);
    assert all == header + evidence + (description + alternative);
    assert all == (header + evidence) + description + alternative;
    assert all == (header + evidence + description) + alternative + [];
    forall t | Contains(evidence, t) ensures Contains(all, t) {
      ContainsInfix(header, evidence, description + alternative, t);
    }
    ContainsSelf(description);
    ContainsInfix(header + evidence, description, alternative, description);
    forall t | Contains(alternative, t) ensures Contains(all, t) {
      ContainsInfix(header + evidence + description, alternative, [], t);
    }
  }

  /** The opening sentence: field label, chosen score and its label. */
  function Header(fieldLabel: string, score: Score): string
  {
    "Para o item \"" + fieldLabel + "\", estimo que seja MIF=" + Digit(score) + " (" + LevelLabel(score) + "). "
  }

  function BlankResult(): AnalysisResult
  {
    AnalysisResult(5, 0.0, "Texto vazio. Não foi possível realizar análise.", [], [])
  }

  /** The weights after keywords and history. */
  function FinalWeights(fieldText: string, fieldName: string, history: seq<HistoryEntry>): seq<int>
  {
    HistoryAdjusted(fieldName, KeywordWeights(fieldText), history)
  }

  function ChosenScore(fieldText: string, w: seq<int>): Score
    requires |w| == 7
  {
    var best := ScanMax(w, 7);
    if best.weight == 0 then FallbackScore(fieldText) else best.score
  }

  /** What `analyzeMIFScore` returns for a text, field and history. */
  function Analysis(fieldText: string, fieldName: string, fieldLabel: string, history: seq<HistoryEntry>): AnalysisResult
  {
    if IsBlank(fieldText) then BlankResult()
    else
      var w := FinalWeights(fieldText, fieldName, history);
      var score := ChosenScore(fieldText, w);
      var alternatives := TopAlternatives(w, score);
      var keywords := FoundKeywords(Lower(fieldText), KeywordsOf(Levels()));
      AnalysisResult(score, Confidence(ScanMax(w, 7).weight),
                     Explanation(fieldLabel, score, keywords, alternatives), keywords, alternatives)
  }

  /** The scan for the highest weight, levels in ascending order. */
  method SelectBest(scoreWeights: seq<int>) returns (best: Best)
    requires |scoreWeights| == 7
    ensures best == ScanMax(scoreWeights, 7)
  {
    var maxScore: Score := 5;
    var maxWeight := 0;
    var i := 0;
    while i < 7
      invariant 0 <= i <= 7
      invariant Best(maxScore, maxWeight) == ScanMax(scoreWeights, i)
    {
      if scoreWeights[i] > maxWeight {
        maxWeight := scoreWeights[i];
        maxScore := i + 1;
      }
      i := i + 1;
    }
    best := Best(maxScore, maxWeight);
  }

  /** The loop that lists the other levels with positive weight. */
  method CollectAlternatives(scoreWeights: seq<int>, maxScore: Score) returns (alternativeScores: seq<Alternative>)
    requires |scoreWeights| == 7
    ensures alternativeScores == Candidates(scoreWeights, 7, maxScore, Sum(scoreWeights))
  {
    alternativeScores := [];
    var totalWeight := Sum(scoreWeights);
    var i := 0;
    while i < 7
      invariant 0 <= i <= 7
      invariant alternativeScores == Candidates(scoreWeights, i, maxScore, totalWeight)
    {
      var weight := scoreWeights[i];
      if i + 1 != maxScore && weight > 0 {
        alternativeScores := alternativeScores
          + [Alternative(i + 1, if totalWeight > 0 then (weight as real) / (totalWeight as real) else 0.0)];
      }
      i := i + 1;
    }
  }

  /** The loops that gather the matched keywords, level by level. */
  method CollectKeywords(lowerText: string, levels: seq<Level>) returns (foundKeywords: seq<string>)
    ensures foundKeywords == FoundKeywords(lowerText, KeywordsOf(levels))
  {
    foundKeywords := [];
    var l := 0;
    while l < |levels|
      invariant 0 <= l <= |levels|
      invariant foundKeywords == FoundKeywords(lowerText, KeywordsOf(levels[..l]))
    {
      assert levels[..l + 1][..l] == levels[..l];
      foundKeywords := CollectLevelKeywords(lowerText, KeywordsOf(levels[..l]), levels[l].keywords, foundKeywords);
      l := l + 1;
    }
    assert levels[..l] == levels;
  }

  /** The inner loop over one level's keywords: an unseen keyword found in
      the text is appended. */
  method CollectLevelKeywords(lowerText: string, ghost earlier: seq<string>, kws: seq<string>, found: seq<string>)
    returns (foundKeywords: seq<string>)
    requires found == FoundKeywords(lowerText, earlier)
    ensures foundKeywords == FoundKeywords(lowerText, earlier + kws)
  {
    foundKeywords := found;
    assert earlier + kws[..0] == earlier;
    var k := 0;
    while k < |kws|
      invariant 0 <= k <= |kws|
      invariant foundKeywords == FoundKeywords(lowerText, earlier + kws[..k])
    {
      var keyword := kws[k];
      assert earlier + kws[..k + 1] == (earlier + kws[..k]) + [keyword];
      FoundKeywordsSnoc(lowerText, earlier + kws[..k], keyword);
      if Contains(lowerText, Lower(keyword)) && keyword !in foundKeywords {
        foundKeywords := foundKeywords + [keyword];
      }
      k := k + 1;
    }
    assert kws[..k] == kws;
  }

  /** `analyzeMIFScore` on a given history snapshot (the lazy load of the
      history is the store's `Analyze`). */
  method AnalyzeMifScore(fieldText: string, fieldName: string, fieldLabel: string, history: seq<HistoryEntry>)
    returns (result: AnalysisResult)
    ensures result == Analysis(fieldText, fieldName, fieldLabel, history)
  {
    if IsBlank(fieldText) {
      return BlankResult();
    }
    var scoreWeights := CalculateScoreByKeywords(fieldText);
    scoreWeights := AnalyzeHistoryPatterns(fieldName, scoreWeights, history);

    var best := SelectBest(scoreWeights);
    var maxScore := best.score;
    if best.weight == 0 {
      maxScore := FallbackScore(fieldText);
    }
    var alternativeScores := CollectAlternatives(scoreWeights, maxScore);
    alternativeScores := SortByProbability(alternativeScores);
    var topAlternatives := Take3(alternativeScores);
    var foundKeywords := CollectKeywords(Lower(fieldText), Levels());
    var explanation := Explanation(fieldLabel, maxScore, foundKeywords, topAlternatives);
    var confidence := Confidence(best.weight);
    result := AnalysisResult(maxScore, confidence, explanation, foundKeywords, topAlternatives);
  }

  // ---------------------------------------------------------------------
  // What analyzeMIFScore promises
  // ---------------------------------------------------------------------

  lemma FinalWeightsWellFormed(fieldText: string, fieldName: string, history: seq<HistoryEntry>)
    ensures WellFormed(FinalWeights(fieldText, fieldName, history))
  {
    KeywordWeightsClosedForm(fieldText);
    HistoryAdjustedWellFormed(fieldName, KeywordWeights(fieldText), history);
  }

  /** A blank text gets score 5, confidence 0 and nothing else. */
  lemma BlankTextResult(fieldText: string, fieldName: string, fieldLabel: string, history: seq<HistoryEntry>)
    requires IsBlank(fieldText)
    ensures Analysis(fieldText, fieldName, fieldLabel, history).score == 5
    ensures Analysis(fieldText, fieldName, fieldLabel, history).confidence == 0.0
    ensures Analysis(fieldText, fieldName, fieldLabel, history).keywords == []
    ensures Analysis(fieldText, fieldName, fieldLabel, history).alternativeScores == []
  {
  }

  lemma TakeOrdered(s: seq<Alternative>)
    requires Ordered(s)
    ensures Ordered(Take3(s))
    ensures forall a :: a in Take3(s) ==> a in s
  {
  }

  /** For a non-blank text the confidence lies in [0.5, 0.95]. */
  lemma ConfidenceBounds(fieldText: string, fieldName: string, fieldLabel: string, history: seq<HistoryEntry>)
    requires !IsBlank(fieldText)
    ensures 0.5 <= Analysis(fieldText, fieldName, fieldLabel, history).confidence <= 0.95
  {
  }

  /** The alternatives for any weights and chosen score. */
  function TopAlternatives(w: seq<int>, score: Score): seq<Alternative>
    requires |w| == 7
  {
    Take3(SortByProbability(Candidates(w, 7, score, Sum(w))))
  }

  lemma {:induction false} TopAlternativesProperties(w: seq<int>, score: Score)
    requires WellFormed(w)
    ensures var alts := TopAlternatives(w, score);
      && |alts| <= 3
      && Ordered(alts)
      && (forall a :: a in alts ==>
            a.score != score && w[a.score - 1] > 0 && Sum(w) > 0
            && a.probability == (w[a.score - 1] as real) / (Sum(w) as real)
            && 0.0 < a.probability <= 1.0)
  {
    var cands := Candidates(w, 7, score, Sum(w));
    var sorted := SortByProbability(cands);
    SortByProbabilityOrdered(cands);
    TakeOrdered(sorted);
    SumBounds(w);
    CandidatesSound(w, 7, score, Sum(w));
    forall a | a in Take3(sorted)
      ensures a.score != score && w[a.score - 1] > 0 && Sum(w) > 0
        && a.probability == (w[a.score - 1] as real) / (Sum(w) as real)
        && 0.0 < a.probability <= 1.0
    {
      assert a in multiset(sorted);
      assert a in cands;
      ProbabilityBounds(w[a.score - 1], Sum(w));
    }
  }

  /** At most three alternatives, each another level with positive weight
      and probability weight / total in (0, 1], ordered by descending
      probability, ties by ascending score. */
  lemma AlternativesProperties(fieldText: string, fieldName: string, fieldLabel: string, history: seq<HistoryEntry>)
    requires !IsBlank(fieldText)
    ensures var r := Analysis(fieldText, fieldName, fieldLabel, history);
      var w := FinalWeights(fieldText, fieldName, history);
      && |r.alternativeScores| <= 3
      && Ordered(r.alternativeScores)
      && (forall a :: a in r.alternativeScores ==>
            a.score != r.score && w[a.score - 1] > 0 && Sum(w) > 0
            && a.probability == (w[a.score - 1] as real) / (Sum(w) as real)
            && 0.0 < a.probability <= 1.0)
  {
    var w := FinalWeights(fieldText, fieldName, history);
    FinalWeightsWellFormed(fieldText, fieldName, history);
    TopAlternativesProperties(w, ChosenScore(fieldText, w));
  }

  /** The keywords are distinct positive keywords of the table found in
      the text; every positive keyword found is listed. */
  lemma KeywordsProperties(fieldText: string, fieldName: string, fieldLabel: string, history: seq<HistoryEntry>)
    requires !IsBlank(fieldText)
    ensures var r := Analysis(fieldText, fieldName, fieldLabel, history);
      && (forall j, k :: 0 <= j < k < |r.keywords| ==> r.keywords[j] != r.keywords[k])
      && (forall kw :: kw in r.keywords <==> kw in KeywordsOf(Levels()) && Contains(Lower(fieldText), Lower(kw)))
  {
    var found := FoundKeywords(Lower(fieldText), KeywordsOf(Levels()));
    assert Analysis(fieldText, fieldName, fieldLabel, history).keywords == found;
  }

  /** The explanation opens with the field label, the chosen score and its
      label. */
  lemma ExplanationNamesScore(fieldText: string, fieldName: string, fieldLabel: string, history: seq<HistoryEntry>)
    requires !IsBlank(fieldText)
    ensures var r := Analysis(fieldText, fieldName, fieldLabel, history);
      StartsWith(r.explanation, Header(fieldLabel, r.score))
  {
  }

  /** With some positive weight, the chosen score is the lowest among
      those of highest weight. */
  lemma ChosenScoreOfWeights(fieldText: string, w: seq<int>)
    requires WellFormed(w)
    requires exists i :: 0 <= i < 7 && w[i] > 0
    ensures var s := ChosenScore(fieldText, w);
      && (forall i :: 0 <= i < 7 ==> w[i] <= w[s - 1])
      && (forall i :: 0 <= i < s - 1 ==> w[i] < w[s - 1])
      && ScanMax(w, 7).weight == w[s - 1] > 0
  {
    ScanMaxProperties(w, 7);
    var i :| 0 <= i < 7 && w[i] > 0;
    assert ScanMax(w, 7).weight >= w[i];
  }

  /** When some level has positive weight, the suggestion is the lowest
      score among those of highest weight, and the confidence is
      min(0.95, 0.5 + weight / 10) in unscaled terms, above 0.5. */
  lemma ChosenScoreIsMaximal(fieldText: string, fieldName: string, fieldLabel: string, history: seq<HistoryEntry>)
    requires !IsBlank(fieldText)
    requires exists i :: 0 <= i < 7 && FinalWeights(fieldText, fieldName, history)[i] > 0
    ensures var r := Analysis(fieldText, fieldName, fieldLabel, history);
      var w := FinalWeights(fieldText, fieldName, history);
      && (forall i :: 0 <= i < 7 ==> w[i] <= w[r.score - 1])
      && (forall i :: 0 <= i < r.score - 1 ==> w[i] < w[r.score - 1])
      && r.confidence == Confidence(w[r.score - 1])
      && r.confidence > 0.5
  {
    var w := FinalWeights(fieldText, fieldName, history);
    FinalWeightsWellFormed(fieldText, fieldName, history);
    ChosenScoreOfWeights(fieldText, w);
  }

  /** When no level has weight, the suggestion falls back to the word
      count, with confidence 0.5 and no alternatives. */
  lemma FallbackWithoutEvidence(fieldText: string, fieldName: string, fieldLabel: string, history: seq<HistoryEntry>)
    requires !IsBlank(fieldText)
    requires forall i :: 0 <= i < 7 ==> FinalWeights(fieldText, fieldName, history)[i] == 0
    ensures var r := Analysis(fieldText, fieldName, fieldLabel, history);
      && r.score == FallbackScore(fieldText)
      && r.confidence == 0.5
      && r.alternativeScores == []
  {
    var w := FinalWeights(fieldText, fieldName, history);
    FinalWeightsWellFormed(fieldText, fieldName, history);
    ScanMaxProperties(w, 7);
    CandidatesOfZero(w, 7, ChosenScore(fieldText, w), Sum(w));
  }

  // ---------------------------------------------------------------------
  // The decision log (loadAnalysisHistory, saveAnalysisHistory,
  // addToAnalysisHistory) and the history-aware entry point
  // ---------------------------------------------------------------------

  /** The most entries the log keeps. */
  const MaxHistory := 100

  /** The last `MaxHistory` entries, oldest first. */
  function Bounded(entries: seq<HistoryEntry>): (r: seq<HistoryEntry>)
    ensures |r| == if |entries| > MaxHistory then MaxHistory else |entries|
    ensures entries == entries[..|entries| - |r|] + r
  {
    if |entries| > MaxHistory then entries[|entries| - MaxHistory..] else entries
  }

  /** What the storage key holds: nothing, text that does not parse, or a
      saved list. */
  datatype StoredLog = Missing | Unreadable | Saved(entries: seq<HistoryEntry>)

  /** `analysisHistory` and its persisted copy under
      "mif_analysis_history". */
  class AnalysisHistoryStore {
    var entries: seq<HistoryEntry>
    var stored: StoredLog

    /** The module starts with an empty in-memory log. */
    constructor(stored: StoredLog)
      ensures this.entries == [] && this.stored == stored
    {
      this.entries := [];
      this.stored := stored;
    }

    /** `loadAnalysisHistory`: a missing key leaves the log unchanged, an
        unreadable one empties it, a saved list replaces it. */
    method Load()
      modifies this
      ensures stored == old(stored)
      ensures old(stored).Missing? ==> entries == old(entries)
      ensures old(stored).Unreadable? ==> entries == []
      ensures old(stored).Saved? ==> entries == old(stored).entries
    {
      match stored
      case Missing =>
      case Unreadable => entries := [];
      case Saved(saved) => entries := saved;
    }

    /** `saveAnalysisHistory`: the in-memory log is cut to the last 100
        entries and then persisted. */
    method Save()
      modifies this
      ensures entries == Bounded(old(entries))
      ensures stored == Saved(entries)
    {
      if |entries| > MaxHistory {
        entries := entries[|entries| - MaxHistory..];
      }
      stored := Saved(entries);
    }

    /** `addToAnalysisHistory`. */
    method Add(entry: HistoryEntry)
      modifies this
      ensures entries == Bounded(old(entries) + [entry])
      ensures stored == Saved(entries)
      ensures |entries| <= MaxHistory
      ensures entries[|entries| - 1] == entry
    {
      entries := entries + [entry];
      Save();
    }

    /** `analyzeMIFScore` with its history: a non-blank text reloads the
        persisted log first when the in-memory one is empty. */
    method Analyze(fieldText: string, fieldName: string, fieldLabel: string) returns (result: AnalysisResult)
      modifies this
      ensures stored == old(stored)
      ensures entries == (if !IsBlank(fieldText) && old(entries) == [] then LoadedLog(old(entries), old(stored))
                          else old(entries))
      ensures result == Analysis(fieldText, fieldName, fieldLabel, entries)
    {
      if IsBlank(fieldText) {
        result := AnalyzeMifScore(fieldText, fieldName, fieldLabel, entries);
        return;
      }
      if |entries| == 0 {
        Load();
      }
      result := AnalyzeMifScore(fieldText, fieldName, fieldLabel, entries);
    }
  }

  /** The in-memory log after `loadAnalysisHistory`. */
  function LoadedLog(entries: seq<HistoryEntry>, stored: StoredLog): seq<HistoryEntry>
  {
    match stored
    case Missing => entries
    case Unreadable => []
    case Saved(saved) => saved
  }

  /** Adding entries one at a time keeps exactly the last 100 of all of
      them, oldest first. */
  function AddAll(log: seq<HistoryEntry>, added: seq<HistoryEntry>): seq<HistoryEntry>
  {
    if |added| == 0 then log else Bounded(AddAll(log, added[..|added| - 1]) + [added[|added| - 1]])
  }

  lemma {:induction false} AddAllKeepsMostRecent(log: seq<HistoryEntry>, added: seq<HistoryEntry>)
    requires |log| <= MaxHistory
    ensures AddAll(log, added) == Bounded(log + added)
  {
    if |added| > 0 {
      var init := added[..|added| - 1];
      var last := added[|added| - 1];
      AddAllKeepsMostRecent(log, init);
      assert log + added == (log + init) + [last];
      BoundedAppend(log + init, last);
    }
  }

  /** Cutting before and after appending one entry agree. */
  lemma BoundedAppend(s: seq<HistoryEntry>, e: HistoryEntry)
    ensures Bounded(Bounded(s) + [e]) == Bounded(s + [e])
  {
    var b := Bounded(s);
    var full := s + [e];
    if |s| > MaxHistory {
      assert (b + [e])[1..] == full[|full| - MaxHistory..];
    }
  }
}
