/** The logic of components/pdf-document.tsx: which sections the document
    includes, the score descriptions, whether MIF scores exist and the MIF
    average of the summary section. */
module PdfDocument {
  import opened Text
  import opened Js
  import opened MifSummary
  import opened ReportBuilder

  /** `shouldIncludeSection`: an empty configuration includes everything,
      otherwise a section is included iff its entry is `true`. */
  function ShouldInclude(includeSections: map<string, bool>, sectionId: string): (r: bool)
    ensures |includeSections| == 0 ==> r
    ensures |includeSections| > 0 ==> (r <==> sectionId in includeSections && includeSections[sectionId])
  {
    if |includeSections| == 0 then true
    else sectionId in includeSections && includeSections[sectionId]
  }

  /** The nine document ids the report builder does not use, in three
      groups: the functioning areas, ... */
  lemma UnsharedAreaIdsUnknown()
    ensures FromId("atividadeParticipacao").None?
    ensures FromId("fatoresAmbientais").None?
    ensures FromId("funcoesEstruturas").None?
  {
  }

  /** ... the summary, personal factors and interdisciplinary evaluation,
      ... */
  lemma UnsharedSummaryIdsUnknown()
    ensures FromId("resumoMif").None?
    ensures FromId("fatoresPessoais").None?
    ensures FromId("avaliacaoInterdisciplinar").None?
  {
  }

  /** ... and the plan: goals, therapeutic planning and discharge. */
  lemma UnsharedPlanIdsUnknown()
    ensures FromId("objetivosPts").None?
    ensures FromId("planejamentoTerapeutico").None?
    ensures FromId("criteriosAlta").None?
  {
  }

  /** A key no report section has is absent from the report's record. */
  lemma NotInRecord(sel: Selection, id: string)
    requires sel.Keys == AllSections()
    requires FromId(id).None?
    ensures id !in SelectionRecord(sel)
  {
  }

  /** As written, a custom report passes its own section ids, so the nine
      document sections whose ids differ, the MIF summary among them, are
      never included, whatever is selected. */
  lemma ReportDropsUnsharedSections(sel: Selection)
    requires sel.Keys == AllSections()
    ensures !ShouldInclude(SelectionRecord(sel), "atividadeParticipacao")
    ensures !ShouldInclude(SelectionRecord(sel), "fatoresAmbientais")
    ensures !ShouldInclude(SelectionRecord(sel), "funcoesEstruturas")
    ensures !ShouldInclude(SelectionRecord(sel), "resumoMif")
    ensures !ShouldInclude(SelectionRecord(sel), "fatoresPessoais")
    ensures !ShouldInclude(SelectionRecord(sel), "avaliacaoInterdisciplinar")
    ensures !ShouldInclude(SelectionRecord(sel), "objetivosPts")
    ensures !ShouldInclude(SelectionRecord(sel), "planejamentoTerapeutico")
    ensures !ShouldInclude(SelectionRecord(sel), "criteriosAlta")
  {
    assert Id(Identificacao) in SelectionRecord(sel);
    UnsharedAreaIdsUnknown();
    UnsharedSummaryIdsUnknown();
    UnsharedPlanIdsUnknown();
    NotInRecord(sel, "atividadeParticipacao");
    NotInRecord(sel, "fatoresAmbientais");
    NotInRecord(sel, "funcoesEstruturas");
    NotInRecord(sel, "resumoMif");
    NotInRecord(sel, "fatoresPessoais");
    NotInRecord(sel, "avaliacaoInterdisciplinar");
    NotInRecord(sel, "objetivosPts");
    NotInRecord(sel, "planejamentoTerapeutico");
    NotInRecord(sel, "criteriosAlta");
  }

  /** The three shared ids follow the selection. */
  lemma ReportKeepsSharedSections(sel: Selection)
    requires sel.Keys == AllSections()
    ensures ShouldInclude(SelectionRecord(sel), "identificacao") <==> sel[Identificacao]
    ensures ShouldInclude(SelectionRecord(sel), "percepcao") <==> sel[Percepcao]
    ensures ShouldInclude(SelectionRecord(sel), "encaminhamentos") <==> sel[Encaminhamentos]
  {
    assert Id(Identificacao) in SelectionRecord(sel);
    assert Id(Percepcao) == "percepcao";
    assert Id(Encaminhamentos) == "encaminhamentos";
  }

  /** Selecting every section of a custom report still leaves out the
      activity section. */
  lemma SelectAllDropsActivity()
    ensures !ShouldInclude(SelectionRecord(SelectAll()), "atividadeParticipacao")
  {
    UnsharedAreaIdsUnknown();
    NotInRecord(SelectAll(), "atividadeParticipacao");
  }

  /** The document id each report section is evidently meant to control. */
  function PdfId(s: ReportSection): string
  {
    match s
    case Identificacao => "identificacao"
    case Percepcao => "percepcao"
    case Atividade => "atividadeParticipacao"
    case Ambientais => "fatoresAmbientais"
    case Funcoes => "funcoesEstruturas"
    case Pessoais => "fatoresPessoais"
    case Avaliacao => "avaliacaoInterdisciplinar"
    case Objetivos => "objetivosPts"
    case Planejamento => "planejamentoTerapeutico"
    case Encaminhamentos => "encaminhamentos"
    case Criterios => "criteriosAlta"
    case Mif => "resumoMif"
  }

  /** The report section a document id belongs to. */
  function FromPdfId(id: string): (r: Option<ReportSection>)
  {
    if id == "identificacao" then Some(Identificacao)
    else if id == "percepcao" then Some(Percepcao)
    else if id == "atividadeParticipacao" then Some(Atividade)
    else if id == "fatoresAmbientais" then Some(Ambientais)
    else if id == "funcoesEstruturas" then Some(Funcoes)
    else if id == "fatoresPessoais" then Some(Pessoais)
    else if id == "avaliacaoInterdisciplinar" then Some(Avaliacao)
    else if id == "objetivosPts" then Some(Objetivos)
    else if id == "planejamentoTerapeutico" then Some(Planejamento)
    else if id == "encaminhamentos" then Some(Encaminhamentos)
    else if id == "criteriosAlta" then Some(Criterios)
    else if id == "resumoMif" then Some(Mif)
    else None
  }

  lemma PdfIdRoundTrip(s: ReportSection)
    ensures FromPdfId(PdfId(s)) == Some(s)
  {
  }

  /** The corrected record: each selection under the document's id. */
  function CorrectedRecord(sel: Selection): (r: map<string, bool>)
    requires sel.Keys == AllSections()
    ensures forall s :: PdfId(s) in r && r[PdfId(s)] == sel[s]
    ensures |r| > 0
  {
    forall s, t | PdfId(s) == PdfId(t) ensures s == t {
      PdfIdRoundTrip(s);
      PdfIdRoundTrip(t);
    }
    var r := map s | s in AllSections() :: PdfId(s) := sel[s];
    assert PdfId(Mif) in r;
    r
  }

  /** With the corrected record, every document section is included
      exactly when its report section is selected. */
  lemma CorrectedRecordIncludesSelected(sel: Selection, s: ReportSection)
    requires sel.Keys == AllSections()
    ensures ShouldInclude(CorrectedRecord(sel), PdfId(s)) <==> sel[s]
  {
  }

  /** `getMIFDescription` of the document: seven labels, and "" for a
      falsy (0 or NaN) or out-of-range score. */
  function PdfDescription(score: Option<int>): (r: string)
    ensures r == "" <==> score.None? || score.value < 1 || score.value > 7
  {
    if score.None? || score.value == 0 then ""
    else
      match score.value
      case 1 => "Dependência Total"
      case 2 => "Dependência Máxima"
      case 3 => "Dependência Moderada"
      case 4 => "Dependência Mínima"
      case 5 => "Supervisão/Preparo"
      case 6 => "Independência Modificada"
      case 7 => "Independência Completa"
      case _ => ""
  }

  /** `hasMIFScores`: some key starts with "mif_" and holds a truthy
      value. */
  predicate HasMifScores(data: Record)
  {
    exists k :: k in data && StartsWith(k, "mif_") && Truthy(data[k])
  }

  /** `calculateMIFAverage`: null without MIF scores, otherwise the
      summary's average of the nine areas (`data[field] || 0` only
      matters for fields that are filtered out). */
  function PdfAverage(data: Record): (r: Option<Number>)
    ensures r.Some? ==> HasMifScores(data)
    ensures HasMifScores(data) ==> r == Average(data)
  {
    if HasMifScores(data) then Average(data) else None
  }

  /** The summary section needs a MIF score, a truthy average and the
      section included. */
  predicate ShowsMifSummary(data: Record, includeSections: map<string, bool>)
  {
    HasMifScores(data) && PdfAverage(data).Some? && PdfAverage(data).value.Tenths?
      && PdfAverage(data).value.t != 0 && ShouldInclude(includeSections, "resumoMif")
  }

  /** A truthy `mif_` key outside the nine areas alone shows no summary:
      the average needs one of the nine, and any of the nine is a MIF
      score. */
  lemma SummaryNeedsAScoredArea(data: Record, includeSections: map<string, bool>)
    ensures ShowsMifSummary(data, includeSections) ==>
      exists i :: 0 <= i < 9 && Truthy(Get(data, MifFields()[i]))
    ensures (exists i :: 0 <= i < 9 && Truthy(Get(data, MifFields()[i]))) ==> HasMifScores(data)
  {
    SummaryShownIffFilled(data);
    if exists i :: 0 <= i < 9 && Truthy(Get(data, MifFields()[i])) {
      var i :| 0 <= i < 9 && Truthy(Get(data, MifFields()[i]));
      var k := MifFields()[i];
      MifFieldsPrefixed(i);
      assert k in data && StartsWith(k, "mif_") && Truthy(data[k]);
    }
  }

  /** A custom report never shows the MIF summary, however the sections
      are selected. */
  lemma ReportNeverShowsMifSummary(data: Record, sel: Selection)
    requires sel.Keys == AllSections()
    ensures !ShowsMifSummary(data, SelectionRecord(sel))
  {
    UnsharedSummaryIdsUnknown();
    NotInRecord(sel, "resumoMif");
  }

  /** With the corrected record the MIF summary follows its selection: it
      is shown exactly when the summary section is selected and the data
      would show it in a full document. */
  lemma CorrectedReportShowsMifSummary(data: Record, sel: Selection)
    requires sel.Keys == AllSections()
    ensures ShowsMifSummary(data, CorrectedRecord(sel)) <==> sel[Mif] && ShowsMifSummary(data, map[])
  {
    CorrectedRecordIncludesSelected(sel, Mif);
    assert PdfId(Mif) == "resumoMif";
    assert ShouldInclude(CorrectedRecord(sel), "resumoMif") == sel[Mif];
    assert ShouldInclude(map[], "resumoMif");
  }
}
