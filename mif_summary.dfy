/** The MIF summary of components/mif-summary.tsx: the nine scored areas,
    their average, the per-score descriptions and colours and the average
    bands. The same nine areas and average are used by the PDF document. */
module MifSummary {
  import opened Text
  import opened Js

  /** The ids of the nine scored areas, in display order. */
  function MifFields(): (r: seq<string>)
    ensures |r| == 9
  {
    ["mif_mobilidadeLocomocao", "mif_autocuidado", "mif_comunicacaoInteracao", "mif_vidaDomestica",
     "mif_educacaoTrabalhoLazer", "mif_forcaTonosCoord", "mif_controlePostural", "mif_funcoesSensoriais",
     "mif_funcoesCognitivas"]
  }

  /** Every area key carries the "mif_" prefix. */
  lemma MifFieldsPrefixed(i: int)
    requires 0 <= i < |MifFields()|
    ensures StartsWith(MifFields()[i], "mif_")
  {
    assert MifFields()[i][..4] == "mif_";
  }

  /** The areas among `fields` whose value is truthy (`watch(id) || null`
      then `!== null`), in order. */
  function FilledFields(values: Record, fields: seq<string>): (r: seq<string>)
    ensures |r| <= |fields|
    ensures forall i :: 0 <= i < |r| ==> r[i] in fields && Truthy(Get(values, r[i]))
    ensures forall i :: 0 <= i < |fields| && Truthy(Get(values, fields[i])) ==> fields[i] in r
  {
    if |fields| == 0 then []
    else
      var n := |fields| - 1;
      var prev := FilledFields(values, fields[..n]);
      assert forall i :: 0 <= i < n ==> fields[..n][i] == fields[i];
      if Truthy(Get(values, fields[n])) then prev + [fields[n]] else prev
  }

  /** A JavaScript number as the summary sees it: NaN, or a multiple of
      one tenth. */
  datatype Number = NaN | Tenths(t: int)

  /** The sum of `parseInt` over the filled areas; NaN as soon as one
      value does not parse. */
  function Total(values: Record, fields: seq<string>): (r: Option<int>)
  {
    if |fields| == 0 then Some(0)
    else
      var prev := Total(values, fields[..|fields| - 1]);
      var v := ParseInt(Get(values, fields[|fields| - 1]));
      if prev.Some? && v.Some? then Some(prev.value + v.value) else None
  }

  /** `Math.round(total / n * 10)`: the nearest integer to 10 * total / n,
      halves rounded up. */
  function RoundTenths(total: int, n: nat): (t: int)
    requires n > 0
    ensures t * (2 * n) <= 20 * total + n < (t + 1) * (2 * n)
  {
    var t := (20 * total + n) / (2 * n);
    assert 20 * total + n == t * (2 * n) + (20 * total + n) % (2 * n);
    t
  }

  /** The average: null (None) when no area is filled, otherwise the
      rounded mean in tenths, or NaN. */
  function Average(values: Record): (r: Option<Number>)
  {
    var filled := FilledFields(values, MifFields());
    if |filled| == 0 then None
    else
      match Total(values, filled)
      case None => Some(NaN)
      case Some(total) => Some(Tenths(RoundTenths(total, |filled|)))
  }

  /** Every filled value parses to a score in 1..7. */
  ghost predicate ScoresInScale(values: Record, fields: seq<string>)
  {
    forall i :: 0 <= i < |fields| ==>
      ParseInt(Get(values, fields[i])).Some? && 1 <= ParseInt(Get(values, fields[i])).value <= 7
  }

  lemma {:induction false} TotalInScale(values: Record, fields: seq<string>)
    requires ScoresInScale(values, fields)
    ensures Total(values, fields).Some?
    ensures |fields| <= Total(values, fields).value <= 7 * |fields|
  {
    if |fields| > 0 {
      var n := |fields| - 1;
      assert forall i :: 0 <= i < n ==> fields[..n][i] == fields[i];
      TotalInScale(values, fields[..n]);
    }
  }

  lemma MulLe(a: int, b: int, c: nat)
    requires a <= b
    ensures a * c <= b * c
  {
    assert b * c - a * c == (b - a) * c;
  }

  lemma RoundTenthsInScale(total: int, n: nat)
    requires n > 0 && n <= total <= 7 * n
    ensures 10 <= RoundTenths(total, n) <= 70
  {
    var t := RoundTenths(total, n);
    if t < 10 {
      MulLe(t + 1, 10, 2 * n);
    }
    if t > 70 {
      MulLe(71, t, 2 * n);
    }
  }

  /** With every filled score in 1..7 the average is a number in
      [1.0, 7.0]. */
  lemma AverageInScale(values: Record)
    requires ScoresInScale(values, FilledFields(values, MifFields()))
    requires Average(values).Some?
    ensures Average(values).value.Tenths? && 10 <= Average(values).value.t <= 70
  {
    var filled := FilledFields(values, MifFields());
    TotalInScale(values, filled);
    RoundTenthsInScale(Total(values, filled).value, |filled|);
  }

  lemma {:induction false} TotalOfEqualScores(values: Record, fields: seq<string>, k: int)
    requires forall i :: 0 <= i < |fields| ==> ParseInt(Get(values, fields[i])) == Some(k)
    ensures Total(values, fields) == Some(k * |fields|)
  {
    if |fields| > 0 {
      var n := |fields| - 1;
      assert forall i :: 0 <= i < n ==> fields[..n][i] == fields[i];
      TotalOfEqualScores(values, fields[..n], k);
      assert k * |fields| == k * n + k;
    }
  }

  /** When every filled area has the same score k the average is k. */
  lemma AverageOfEqualScores(values: Record, k: int)
    requires forall i :: 0 <= i < 9 ==> Truthy(Get(values, MifFields()[i])) ==>
      ParseInt(Get(values, MifFields()[i])) == Some(k)
    requires Average(values).Some?
    ensures Average(values) == Some(Tenths(10 * k))
  {
    var filled := FilledFields(values, MifFields());
    forall i | 0 <= i < |filled| ensures ParseInt(Get(values, filled[i])) == Some(k) {
      var j :| 0 <= j < 9 && MifFields()[j] == filled[i];
    }
    TotalOfEqualScores(values, filled, k);
    RoundTenthsExact(k, |filled|);
  }

  /** The mean of n equal scores k is exactly k. */
  lemma RoundTenthsExact(k: int, n: nat)
    requires n > 0
    ensures RoundTenths(k * n, n) == 10 * k
  {
    var t := RoundTenths(k * n, n);
    assert 20 * (k * n) == (10 * k) * (2 * n);
    if t < 10 * k {
      MulLe(t + 1, 10 * k, 2 * n);
    }
    if t > 10 * k {
      MulLe(10 * k + 1, t, 2 * n);
    }
  }

  /** Nothing is rendered without a filled area: the summary shows iff the
      average is not null. */
  lemma SummaryShownIffFilled(values: Record)
    ensures Average(values).Some? <==> exists i :: 0 <= i < 9 && Truthy(Get(values, MifFields()[i]))
  {
    var filled := FilledFields(values, MifFields());
    if exists i :: 0 <= i < 9 && Truthy(Get(values, MifFields()[i])) {
      var i :| 0 <= i < 9 && Truthy(Get(values, MifFields()[i]));
      assert MifFields()[i] in filled;
    }
    if |filled| > 0 {
      assert filled[0] in MifFields();
    }
  }

  /** The summary's `getMIFDescription`: a label for 1..7, "Não avaliado"
      for anything else, NaN included. */
  function SummaryDescription(score: Option<int>): (r: string)
    ensures (score.None? || score.value < 1 || score.value > 7) <==> r == "Não avaliado"
  {
    if score.None? then "Não avaliado"
    else
      match score.value
      case 1 => "Dependência Total (Assistência Total)"
      case 2 => "Dependência Máxima (Assistência Máxima)"
      case 3 => "Dependência Moderada (Assistência Moderada)"
      case 4 => "Dependência Mínima (Assistência Mínima)"
      case 5 => "Supervisão/Preparo"
      case 6 => "Independência Modificada"
      case 7 => "Independência Completa"
      case _ => "Não avaliado"
  }

  datatype Color = Muted | Red | Amber | Blue | Green

  /** `getMIFColor` on a score or an average: falsy (0 or NaN) is muted,
      up to 2 red, up to 4 amber, up to 6 blue, then green. */
  function ScoreColor(n: Number): (c: Color)
    ensures c == Muted <==> n.NaN? || n.t == 0
    ensures c == Red <==> n.Tenths? && n.t != 0 && n.t <= 20
    ensures c == Amber <==> n.Tenths? && 20 < n.t <= 40
    ensures c == Blue <==> n.Tenths? && 40 < n.t <= 60
    ensures c == Green <==> n.Tenths? && 60 < n.t
  {
    match n
    case NaN => Muted
    case Tenths(t) =>
      if t == 0 then Muted
      else if t <= 20 then Red
      else if t <= 40 then Amber
      else if t <= 60 then Blue
      else Green
  }

  /** A parsed score as a number. */
  function OfScore(score: Option<int>): Number
  {
    if score.Some? then Tenths(10 * score.value) else NaN
  }

  /** Scores 1..7 fall in the bands 1-2, 3-4, 5-6 and 7. */
  lemma ScoreColorBands(k: int)
    requires 1 <= k <= 7
    ensures ScoreColor(OfScore(Some(k))) == (if k <= 2 then Red else if k <= 4 then Amber else if k <= 6 then Blue else Green)
  {
  }

  datatype Band = Severe | Moderate | Mild | Independent

  /** The average's text band: below 3 severe, below 5 moderate, below 7
      mild, otherwise independence. A NaN average fails every comparison
      and lands in the last band. */
  function AverageBand(n: Number): (b: Band)
    ensures n.Tenths? ==> (b == Severe <==> n.t < 30)
    ensures n.Tenths? ==> (b == Moderate <==> 30 <= n.t < 50)
    ensures n.Tenths? ==> (b == Mild <==> 50 <= n.t < 70)
    ensures n.Tenths? ==> (b == Independent <==> n.t >= 70)
    ensures n.NaN? ==> b == Independent
  {
    match n
    case NaN => Independent
    case Tenths(t) =>
      if t < 30 then Severe
      else if t < 50 then Moderate
      else if t < 70 then Mild
      else Independent
  }

  /** The bands are ordered: a higher average never lands in a worse
      band. */
  lemma AverageBandMonotone(a: int, b: int)
    requires a <= b
    ensures BandRank(AverageBand(Tenths(a))) <= BandRank(AverageBand(Tenths(b)))
  {
  }

  function BandRank(b: Band): nat
  {
    match b
    case Severe => 0
    case Moderate => 1
    case Mild => 2
    case Independent => 3
  }
}
