/** The analytics dashboard of components/mif-analytics-dashboard.tsx:
    aggregates over the persisted decision log (accuracy, per-score and
    per-field counts, recent entries, confusion matrix and per-level
    precision), and the load and clear actions. */
module MifAnalytics {
  import opened Text
  import opened Js
  import opened MifAiService

  /** Entries whose suggestion the clinician kept. */
  function CorrectCount(h: seq<HistoryEntry>): (c: nat)
    ensures c <= |h|
  {
    if |h| == 0 then 0
    else CorrectCount(h[..|h| - 1]) + (if h[|h| - 1].suggestedScore == h[|h| - 1].selectedScore then 1 else 0)
  }

  /** The accuracy rate: the percentage of kept suggestions, rounded. */
  function AccuracyRate(h: seq<HistoryEntry>): (r: nat)
    requires |h| > 0
    ensures r <= 100
    ensures CorrectCount(h) == |h| ==> r == 100
    ensures CorrectCount(h) == 0 ==> r == 0
  {
    RoundRatioBounds(100 * CorrectCount(h), |h|, 100);
    RoundRatioWhole(100, |h|);
    RoundRatioWhole(0, |h|);
    RoundRatio(100 * CorrectCount(h), |h|)
  }

  /** Three of four suggestions kept give 75. */
  lemma AccuracyExample(t: int)
    ensures AccuracyRate([HistoryEntry("", 1, 1, "", t), HistoryEntry("", 2, 3, "", t),
                          HistoryEntry("", 4, 4, "", t), HistoryEntry("", 5, 5, "", t)]) == 75
  {
    var h := [HistoryEntry("", 1, 1, "", t), HistoryEntry("", 2, 3, "", t),
              HistoryEntry("", 4, 4, "", t), HistoryEntry("", 5, 5, "", t)];
    assert h[..1] == [h[0]] && h[..1][..0] == [];
    assert h[..2][..1] == h[..1];
    assert h[..3][..2] == h[..2];
    assert h[..4][..3] == h[..3] && h[..4] == h;
    assert CorrectCount(h[..1]) == 1;
    assert CorrectCount(h[..2]) == 1;
    assert CorrectCount(h[..3]) == 2;
    assert CorrectCount(h) == 3;
  }

  /** Occurrences of `x` in `xs`. */
  ghost function Count<K>(xs: seq<K>, x: K): (n: nat)
    ensures n <= |xs|
  {
    if |xs| == 0 then 0 else Count(xs[..|xs| - 1], x) + (if xs[|xs| - 1] == x then 1 else 0)
  }

  /** The sum of the counts of the keys of `keys`. */
  ghost function SumCounts<K>(xs: seq<K>, keys: seq<K>): nat
  {
    if |keys| == 0 then 0 else SumCounts(xs, keys[..|keys| - 1]) + Count(xs, keys[|keys| - 1])
  }

  ghost predicate Distinct<K>(keys: seq<K>) {
    forall i, j :: 0 <= i < j < |keys| ==> keys[i] != keys[j]
  }

  lemma {:induction false} SumCountsAppend<K>(xs: seq<K>, x: K, keys: seq<K>)
    requires Distinct(keys)
    ensures SumCounts(xs + [x], keys) == SumCounts(xs, keys) + (if x in keys then 1 else 0)
  {
    if |keys| > 0 {
      var init := keys[..|keys| - 1];
      SumCountsAppend(xs, x, init);
      assert (xs + [x])[..|xs|] == xs;
      if x == keys[|keys| - 1] {
        assert x !in init;
      }
    }
  }

  /** Counting over distinct keys that cover every element adds up to the
      number of elements. */
  lemma {:induction false} CountsPartition<K>(xs: seq<K>, keys: seq<K>)
    requires Distinct(keys)
    requires forall i :: 0 <= i < |xs| ==> xs[i] in keys
    ensures SumCounts(xs, keys) == |xs|
  {
    if |xs| == 0 {
      SumCountsOfEmpty(keys);
    } else {
      var init := xs[..|xs| - 1];
      CountsPartition(init, keys);
      assert xs == init + [xs[|xs| - 1]];
      SumCountsAppend(init, xs[|xs| - 1], keys);
    }
  }

  lemma {:induction false} SumCountsOfEmpty<K>(keys: seq<K>)
    ensures SumCounts([], keys) == 0
  {
    if |keys| > 0 {
      SumCountsOfEmpty(keys[..|keys| - 1]);
    }
  }

  function SelectedScores(h: seq<HistoryEntry>): (r: seq<int>)
    ensures |r| == |h| && forall i :: 0 <= i < |h| ==> r[i] == h[i].selectedScore
  {
    seq(|h|, i requires 0 <= i < |h| => h[i].selectedScore as int)
  }

  /** The score distribution: one count per level 1..7, of the entries
      with that selected score. */
  method ScoreDistribution(h: seq<HistoryEntry>) returns (distribution: seq<nat>)
    ensures |distribution| == 7
    ensures forall s :: 1 <= s <= 7 ==> distribution[s - 1] == Count(SelectedScores(h), s)
  {
    distribution := [0, 0, 0, 0, 0, 0, 0];
    var i := 0;
    while i < |h|
      invariant 0 <= i <= |h| && |distribution| == 7
      invariant forall s :: 1 <= s <= 7 ==> distribution[s - 1] == Count(SelectedScores(h[..i]), s)
    {
      assert SelectedScores(h[..i + 1]) == SelectedScores(h[..i]) + [h[i].selectedScore as int];
      assert SelectedScores(h[..i + 1])[..i] == SelectedScores(h[..i]);
      var s := h[i].selectedScore;
      distribution := distribution[s - 1 := distribution[s - 1] + 1];
      i := i + 1;
    }
    assert h[..i] == h;
  }

  const ScoreKeys: seq<int> := [1, 2, 3, 4, 5, 6, 7]

  /** The per-score counts add up to the number of entries. */
  lemma DistributionSumsToTotal(h: seq<HistoryEntry>)
    ensures SumCounts(SelectedScores(h), ScoreKeys) == |h|
  {
    var xs := SelectedScores(h);
    forall i | 0 <= i < |xs| ensures xs[i] in ScoreKeys {
      assert xs[i] == ScoreKeys[xs[i] - 1];
    }
    CountsPartition(xs, ScoreKeys);
  }

  /** `fieldName.replace(/^mif_/, "").split("_")[0]`. */
  function FieldKey(fieldName: string): (k: string)
    ensures '_' !in k
    ensures !StartsWith(fieldName, "mif_") ==> StartsWith(fieldName, k)
    ensures StartsWith(fieldName, "mif_") ==> StartsWith(fieldName[4..], k)
  {
    var base := if StartsWith(fieldName, "mif_") then fieldName[4..] else fieldName;
    UpToUnderscore(base)
  }

  /** The text before the first "_". */
  function UpToUnderscore(s: string): (r: string)
    ensures '_' !in r
    ensures StartsWith(s, r)
    ensures |r| < |s| ==> s[|r|] == '_'
  {
    if |s| == 0 || s[0] == '_' then []
    else [s[0]] + UpToUnderscore(s[1..])
  }

  function FieldKeys(h: seq<HistoryEntry>): (r: seq<string>)
    ensures |r| == |h| && forall i :: 0 <= i < |h| ==> r[i] == FieldKey(h[i].fieldName)
  {
    seq(|h|, i requires 0 <= i < |h| => FieldKey(h[i].fieldName))
  }

  lemma CountAppend<K>(xs: seq<K>, x: K, k: K)
    ensures Count(xs + [x], k) == Count(xs, k) + (if x == k then 1 else 0)
  {
    assert (xs + [x])[..|xs|] == xs;
  }

  lemma FieldKeysStep(h: seq<HistoryEntry>, i: nat)
    requires i < |h|
    ensures FieldKeys(h[..i + 1]) == FieldKeys(h[..i]) + [FieldKey(h[i].fieldName)]
  {
  }

  /** The per-field counts, keyed by base field name. */
  method FieldDistribution(h: seq<HistoryEntry>) returns (fieldDist: map<string, nat>)
    ensures forall k :: k in fieldDist <==> k in FieldKeys(h)
    ensures forall k :: k in fieldDist ==> fieldDist[k] == Count(FieldKeys(h), k)
  {
    fieldDist := map[];
    var i := 0;
    while i < |h|
      invariant 0 <= i <= |h|
      invariant forall k :: k in fieldDist <==> k in FieldKeys(h[..i])
      invariant forall k :: k in fieldDist ==> fieldDist[k] == Count(FieldKeys(h[..i]), k)
    {
      ghost var keys := FieldKeys(h[..i]);
      var baseFieldName := FieldKey(h[i].fieldName);
      FieldKeysStep(h, i);
      forall k ensures Count(keys + [baseFieldName], k) == Count(keys, k) + (if baseFieldName == k then 1 else 0) {
        CountAppend(keys, baseFieldName, k);
      }
      if baseFieldName !in keys {
        CountAbsent(keys, baseFieldName);
      }
      var previous := if baseFieldName in fieldDist then fieldDist[baseFieldName] else 0;
      fieldDist := fieldDist[baseFieldName := previous + 1];
      i := i + 1;
    }
    assert h[..i] == h;
  }

  lemma {:induction false} CountAbsent<K>(xs: seq<K>, x: K)
    requires x !in xs
    ensures Count(xs, x) == 0
  {
    if |xs| > 0 {
      CountAbsent(xs[..|xs| - 1], x);
    }
  }

  /** The distinct base field names, in order of first appearance. */
  function DistinctKeys(xs: seq<string>): (r: seq<string>)
    ensures Distinct(r)
    ensures forall k :: k in r <==> k in xs
  {
    if |xs| == 0 then []
    else
      var prev := DistinctKeys(xs[..|xs| - 1]);
      assert forall k :: k in xs <==> k in xs[..|xs| - 1] || k == xs[|xs| - 1];
      if xs[|xs| - 1] in prev then prev else prev + [xs[|xs| - 1]]
  }

  /** The per-field counts add up to the number of entries. */
  lemma FieldDistributionSumsToTotal(h: seq<HistoryEntry>)
    ensures SumCounts(FieldKeys(h), DistinctKeys(FieldKeys(h))) == |h|
  {
    CountsPartition(FieldKeys(h), DistinctKeys(FieldKeys(h)));
  }

  /** `slice(-10).reverse()`: the last ten entries, newest first. */
  function RecentHistory(h: seq<HistoryEntry>): (r: seq<HistoryEntry>)
    ensures |r| == if |h| < 10 then |h| else 10
    ensures forall i :: 0 <= i < |r| ==> r[i] == h[|h| - 1 - i]
  {
    var last := if |h| <= 10 then h else h[|h| - 10..];
    seq(|last|, i requires 0 <= i < |last| => last[|last| - 1 - i])
  }

  /** The confusion matrix cell: entries suggested `s` and selected `t`. */
  function Confusion(h: seq<HistoryEntry>, s: int, t: int): (n: nat)
    ensures n <= |h|
  {
    if |h| == 0 then 0
    else
      Confusion(h[..|h| - 1], s, t)
      + (if h[|h| - 1].suggestedScore == s && h[|h| - 1].selectedScore == t then 1 else 0)
  }

  function Diagonal(h: seq<HistoryEntry>, k: nat): nat
    requires k <= 7
  {
    if k == 0 then 0 else Diagonal(h, k - 1) + Confusion(h, k, k)
  }

  lemma {:induction false} DiagonalStep(h: seq<HistoryEntry>, k: nat)
    requires k <= 7
    requires |h| > 0
    ensures Diagonal(h, k) == Diagonal(h[..|h| - 1], k)
      + (if h[|h| - 1].suggestedScore == h[|h| - 1].selectedScore && h[|h| - 1].selectedScore <= k then 1 else 0)
  {
    if k > 0 {
      DiagonalStep(h, k - 1);
    }
  }

  /** The diagonal of the confusion matrix adds up to the kept
      suggestions. */
  lemma {:induction false} DiagonalIsCorrectCount(h: seq<HistoryEntry>)
    ensures Diagonal(h, 7) == CorrectCount(h)
  {
    if |h| > 0 {
      DiagonalIsCorrectCount(h[..|h| - 1]);
      DiagonalStep(h, 7);
    } else {
      DiagonalOfEmpty(h, 7);
    }
  }

  lemma {:induction false} DiagonalOfEmpty(h: seq<HistoryEntry>, k: nat)
    requires k <= 7 && |h| == 0
    ensures Diagonal(h, k) == 0
  {
    if k > 0 {
      DiagonalOfEmpty(h, k - 1);
    }
  }

  /** Off-diagonal cells are directional: a (2, 3) decision is not a
      (3, 2) one. */
  lemma ConfusionIsDirectional(t: int)
    ensures Confusion([HistoryEntry("", 2, 3, "", t)], 2, 3) == 1
    ensures Confusion([HistoryEntry("", 2, 3, "", t)], 3, 2) == 0
  {
    var h := [HistoryEntry("", 2, 3, "", t)];
    assert h[..0] == [];
  }

  /** Per-level precision: of the entries selected as `v`, how many were
      suggested as `v`. */
  datatype Precision = Precision(correct: nat, total: nat, percent: nat)

  ghost function LevelPrecision(h: seq<HistoryEntry>, v: int): (p: Precision)
    ensures p.total == Count(SelectedScores(h), v)
    ensures p.correct == Confusion(h, v, v) <= p.total
    ensures p.percent <= 100
    ensures p.total == 0 ==> p.percent == 0
    ensures p.total > 0 ==> p.percent == RoundRatio(100 * p.correct, p.total)
  {
    ConfusionWithinCount(h, v);
    var total := Count(SelectedScores(h), v);
    var correct := Confusion(h, v, v);
    if total > 0 then
      RoundRatioBounds(100 * correct, total, 100);
      Precision(correct, total, RoundRatio(100 * correct, total))
    else Precision(correct, total, 0)
  }

  lemma {:induction false} ConfusionWithinCount(h: seq<HistoryEntry>, v: int)
    ensures Confusion(h, v, v) <= Count(SelectedScores(h), v)
  {
    if |h| > 0 {
      ConfusionWithinCount(h[..|h| - 1], v);
      assert SelectedScores(h)[..|h| - 1] == SelectedScores(h[..|h| - 1]);
    }
  }

  /** The most common score: ties go to the lowest level (the entries of
      a numeric-keyed record come in ascending key order and the sort is
      stable). */
  function MostCommon(distribution: seq<nat>, k: nat): (s: nat)
    requires 1 <= k <= |distribution|
    ensures 1 <= s <= k
  {
    if k == 1 then 1
    else
      var best := MostCommon(distribution, k - 1);
      if distribution[k - 1] > distribution[best - 1] then k else best
  }

  lemma {:induction false} MostCommonIsFirstMaximum(distribution: seq<nat>, k: nat)
    requires 1 <= k <= |distribution|
    ensures forall i :: 0 <= i < k ==> distribution[i] <= distribution[MostCommon(distribution, k) - 1]
    ensures forall i :: 0 <= i < MostCommon(distribution, k) - 1 ==>
      distribution[i] < distribution[MostCommon(distribution, k) - 1]
  {
    if k > 1 {
      MostCommonIsFirstMaximum(distribution, k - 1);
    }
  }

  /** `formatFieldName`: drop a leading "mif_", put a space before every
      capital, turn "_" into a space and capitalise the first character. */
  function FormatFieldName(fieldName: string): (r: string)
    ensures '_' !in r
    ensures |r| == |StripMif(fieldName)| + Capitals(StripMif(fieldName))
  {
    Capitalize(SpaceWords(StripMif(fieldName)))
  }

  function StripMif(s: string): (r: string)
    ensures StartsWith(s, "mif_") ==> r == s[4..]
    ensures !StartsWith(s, "mif_") ==> r == s
  {
    if StartsWith(s, "mif_") then s[4..] else s
  }

  predicate IsCapital(c: char) { 'A' <= c <= 'Z' }

  predicate IsWordChar(c: char) {
    'a' <= c <= 'z' || 'A' <= c <= 'Z' || '0' <= c <= '9' || c == '_'
  }

  function Capitals(s: string): nat
  {
    if |s| == 0 then 0 else Capitals(s[..|s| - 1]) + (if IsCapital(s[|s| - 1]) then 1 else 0)
  }

  /** The two middle replacements: " " before each capital, " " for "_". */
  function SpaceWords(s: string): (r: string)
    ensures '_' !in r
    ensures |r| == |s| + Capitals(s)
  {
    if |s| == 0 then []
    else
      var c := s[|s| - 1];
      SpaceWords(s[..|s| - 1]) + (if IsCapital(c) then [' ', c] else if c == '_' then [' '] else [c])
  }

  /** `replace(/^\w/, c => c.toUpperCase())`. */
  function Capitalize(s: string): (r: string)
    ensures |r| == |s|
    ensures |s| > 0 ==> r[1..] == s[1..]
    ensures |s| > 0 && 'a' <= s[0] <= 'z' ==> r[0] as int == s[0] as int - 32
    ensures !(|s| > 0 && 'a' <= s[0] <= 'z') ==> r == s
  {
    if |s| > 0 && IsWordChar(s[0]) && 'a' <= s[0] <= 'z' then
      [(s[0] as int - 32) as char] + s[1..]
    else s
  }

  /** "mif_vestirParteSuperior" is shown as "Vestir Parte Superior". */
  lemma FormatFieldNameExample()
    ensures FormatFieldName("mif_vestirParteSuperior") == "Vestir Parte Superior"
  {
    StripMifExample();
    SpaceWordsExample();
    var spaced := "vestir Parte Superior";
    assert Capitalize(spaced) == [(spaced[0] as int - 32) as char] + spaced[1..];
  }

  lemma StripMifExample()
    ensures StripMif("mif_vestirParteSuperior") == "vestirParteSuperior"
  {
    var s := "mif_vestirParteSuperior";
    assert s[..4] == "mif_";
  }

  lemma SpaceWordsExample()
    ensures SpaceWords("vestirParteSuperior") == "vestir Parte Superior"
  {
    ExampleWords();
    SpaceWordsVestir();
    SpaceWordsParte();
    SpaceWordsSuperior();
    SpaceWordsAppend("vestir" + "Parte", "Superior");
    SpaceWordsAppend("vestir", "Parte");
  }

  /** The example field name and its display form, cut into words. */
  lemma ExampleWords()
    ensures "vestirParteSuperior" == ("vestir" + "Parte") + "Superior"
    ensures "vestir" + " Parte" + " Superior" == "vestir Parte Superior"
  {
  }

  lemma SpaceWordsVestir()
    ensures SpaceWords("vestir") == "vestir"
  {
    SpaceWordsPlain("vestir");
  }

  lemma SpaceWordsParte()
    ensures SpaceWords("Parte") == " Parte"
  {
    assert "Parte" == ['P', 'a', 'r', 't', 'e'];
    assert "Parte" == ['P'] + "arte";
    SpaceWordsCapitalized('P', "arte");
  }

  lemma SpaceWordsSuperior()
    ensures SpaceWords("Superior") == " Superior"
  {
    assert "Superior" == ['S'] + "uperior";
    SpaceWordsCapitalized('S', "uperior");
  }

  /** A capital followed by text without capitals or "_" gains one
      leading space. */
  lemma SpaceWordsCapitalized(c: char, tail: string)
    requires IsCapital(c)
    requires forall i :: 0 <= i < |tail| ==> !IsCapital(tail[i]) && tail[i] != '_'
    ensures SpaceWords([c] + tail) == [' ', c] + tail
  {
    assert [c][..0] == [];
    assert SpaceWords([c]) == [' ', c];
    SpaceWordsPlain(tail);
    SpaceWordsAppend([c], tail);
  }

  /** Text without capitals or "_" is left as it is. */
  lemma {:induction false} SpaceWordsPlain(s: string)
    requires forall i :: 0 <= i < |s| ==> !IsCapital(s[i]) && s[i] != '_'
    ensures SpaceWords(s) == s
  {
    if |s| > 0 {
      SpaceWordsPlain(s[..|s| - 1]);
      assert s == s[..|s| - 1] + [s[|s| - 1]];
    }
  }

  lemma {:induction false} SpaceWordsAppend(a: string, b: string)
    ensures SpaceWords(a + b) == SpaceWords(a) + SpaceWords(b)
  {
    if |b| > 0 {
      var b' := b[..|b| - 1];
      assert (a + b)[..|a + b| - 1] == a + b';
      SpaceWordsAppend(a, b');
    } else {
      assert a + b == a;
    }
  }

  /** What one character becomes: a capital gains a space before it, "_"
      becomes a space, and any other character is kept. */
  lemma SpaceWordsOneChar(c: char)
    ensures IsCapital(c) ==> SpaceWords([c]) == [' ', c]
    ensures c == '_' ==> SpaceWords([c]) == [' ']
    ensures !IsCapital(c) && c != '_' ==> SpaceWords([c]) == [c]
  {
    assert [c][..0] == [];
  }

  /** With SpaceWordsAppend, this determines the replacement character by
      character from the front. */
  lemma SpaceWordsCons(c: char, s: string)
    ensures SpaceWords([c] + s)
      == (if IsCapital(c) then [' ', c] else if c == '_' then [' '] else [c]) + SpaceWords(s)
  {
    SpaceWordsOneChar(c);
    SpaceWordsAppend([c], s);
  }

  /** The displayed name of "mif_" followed by a lower-case letter and a
      rest: the letter raised to upper case, then the rest with its
      capitals spaced and its underscores turned into spaces. */
  lemma FormatFieldNameWords(c: char, rest: string)
    requires 'a' <= c <= 'z'
    ensures FormatFieldName("mif_" + [c] + rest) == [(c as int - 32) as char] + SpaceWords(rest)
  {
    var name := "mif_" + [c] + rest;
    assert name[..4] == "mif_" && name[4..] == [c] + rest;
    assert StripMif(name) == [c] + rest;
    SpaceWordsCons(c, rest);
    var spaced := [c] + SpaceWords(rest);
    assert SpaceWords(StripMif(name)) == spaced;
    assert spaced[0] == c && spaced[1..] == SpaceWords(rest);
  }

  /** The dashboard's state. Its storage key is the engine's persisted
      log. */
  class Dashboard {
    const store: AnalysisHistoryStore
    var history: seq<HistoryEntry>
    var accuracyRate: nat
    /** Empty until a log has been loaded, then one count per level. */
    var scoreDistribution: seq<nat>
    var fieldDistribution: map<string, nat>
    var recentHistory: seq<HistoryEntry>

    constructor(store: AnalysisHistoryStore)
      ensures this.store == store
      ensures history == [] && accuracyRate == 0 && scoreDistribution == []
      ensures fieldDistribution == map[] && recentHistory == []
    {
      this.store := store;
      history := [];
      accuracyRate := 0;
      scoreDistribution := [];
      fieldDistribution := map[];
      recentHistory := [];
    }

    /** `loadDashboardData`. With nothing stored only the list is emptied;
        unreadable data changes nothing; a saved log replaces every
        aggregate, except that the accuracy keeps its old value for an
        empty log. */
    method LoadDashboardData()
      modifies this
      ensures store.stored.Missing? ==>
        history == [] && accuracyRate == old(accuracyRate) && scoreDistribution == old(scoreDistribution)
        && fieldDistribution == old(fieldDistribution) && recentHistory == old(recentHistory)
      ensures store.stored.Unreadable? ==> unchanged(this)
      ensures store.stored.Saved? ==>
        var h := store.stored.entries;
        && history == h
        && accuracyRate == (if |h| > 0 then AccuracyRate(h) else old(accuracyRate))
        && |scoreDistribution| == 7
        && (forall s :: 1 <= s <= 7 ==> scoreDistribution[s - 1] == Count(SelectedScores(h), s))
        && (forall k :: k in fieldDistribution <==> k in FieldKeys(h))
        && (forall k :: k in fieldDistribution ==> fieldDistribution[k] == Count(FieldKeys(h), k))
        && recentHistory == RecentHistory(h)
    {
      match store.stored
      case Missing =>
        history := [];
      case Unreadable =>
      case Saved(parsedHistory) =>
        history := parsedHistory;
        if |parsedHistory| > 0 {
          accuracyRate := AccuracyRate(parsedHistory);
        }
        scoreDistribution := ScoreDistribution(parsedHistory);
        fieldDistribution := FieldDistribution(parsedHistory);
        recentHistory := RecentHistory(parsedHistory);
    }

    /** The mount effect: the engine reloads its log, then the dashboard
        reads the stored copy. */
    method Mount()
      modifies this, store
      ensures store.stored == old(store.stored)
      ensures store.entries == LoadedLog(old(store.entries), old(store.stored))
      ensures store.stored.Missing? ==>
        history == [] && accuracyRate == old(accuracyRate) && scoreDistribution == old(scoreDistribution)
        && fieldDistribution == old(fieldDistribution) && recentHistory == old(recentHistory)
      ensures store.stored.Unreadable? ==>
        history == old(history) && accuracyRate == old(accuracyRate) && scoreDistribution == old(scoreDistribution)
        && fieldDistribution == old(fieldDistribution) && recentHistory == old(recentHistory)
      ensures store.stored.Saved? ==>
        var h := store.stored.entries;
        && history == h
        && accuracyRate == (if |h| > 0 then AccuracyRate(h) else old(accuracyRate))
        && |scoreDistribution| == 7
        && (forall s :: 1 <= s <= 7 ==> scoreDistribution[s - 1] == Count(SelectedScores(h), s))
        && (forall k :: k in fieldDistribution <==> k in FieldKeys(h))
        && (forall k :: k in fieldDistribution ==> fieldDistribution[k] == Count(FieldKeys(h), k))
        && recentHistory == RecentHistory(h)
    {
      store.Load();
      LoadDashboardData();
    }

    /** `clearHistory` after the user confirms: the stored log and every
        aggregate are cleared. The engine's in-memory log is not touched,
        so the next decision saved writes the old entries back. */
    method ClearHistory(confirmed: bool)
      modifies this, store
      ensures !confirmed ==> unchanged(this) && unchanged(store)
      ensures confirmed ==>
        && store.stored == Missing && store.entries == old(store.entries)
        && history == [] && accuracyRate == 0 && scoreDistribution == []
        && fieldDistribution == map[] && recentHistory == []
    {
      if confirmed {
        store.stored := Missing;
        history := [];
        accuracyRate := 0;
        scoreDistribution := [];
        fieldDistribution := map[];
        recentHistory := [];
      }
    }

    /** `clearHistory` as its confirmation text promises ("cannot be
        undone"): the engine's in-memory log is emptied along with the
        stored one. */
    method CorrectedClearHistory(confirmed: bool)
      modifies this, store
      ensures !confirmed ==> unchanged(this) && unchanged(store)
      ensures confirmed ==>
        && store.stored == Missing && store.entries == []
        && history == [] && accuracyRate == 0 && scoreDistribution == []
        && fieldDistribution == map[] && recentHistory == []
    {
      if confirmed {
        store.entries := [];
        store.stored := Missing;
        history := [];
        accuracyRate := 0;
        scoreDistribution := [];
        fieldDistribution := map[];
        recentHistory := [];
      }
    }

    /** As written: after a confirmed clear, the next confirmed decision
        persists the engine's whole in-memory log again, the cleared
        entries first. */
    method ClearThenRecordAsWritten(e: HistoryEntry)
      modifies this, store
      ensures store.stored == Saved(Bounded(old(store.entries) + [e])) && store.entries == Bounded(old(store.entries) + [e])
      ensures 0 < |old(store.entries)| < MaxHistory ==> store.entries[..|old(store.entries)|] == old(store.entries)
    {
      ghost var before := store.entries;
      ClearHistory(true);
      store.Add(e);
      if 0 < |before| < MaxHistory {
        ClearedEntriesReturn(before, e);
      }
    }

    /** With the corrected clear, the next confirmed decision persists that
        decision alone. */
    method ClearThenRecord(e: HistoryEntry)
      modifies this, store
      ensures store.stored == Saved([e]) && store.entries == [e]
    {
      CorrectedClearHistory(true);
      store.Add(e);
      assert store.entries == Bounded([] + [e]);
    }
  }

  /** After a clear, the next confirmed decision persists the entries the
      clear was meant to remove. */
  lemma ClearedEntriesReturn(entries: seq<HistoryEntry>, e: HistoryEntry)
    requires 0 < |entries| < MaxHistory
    ensures Bounded(entries + [e])[..|entries|] == entries
  {
    assert (entries + [e])[..|entries|] == entries;
  }
}
