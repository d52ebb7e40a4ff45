/** Report configuration of components/report-builder.tsx: which of the
    twelve report sections are selected, the per-specialty presets, the
    anonymised export data and the export file names. */
module ReportBuilder {
  import opened Text
  import opened Js
  import opened Specialty

  /** The twelve report sections. */
  datatype ReportSection =
    | Identificacao | Percepcao | Atividade | Ambientais | Funcoes | Pessoais
    | Avaliacao | Objetivos | Planejamento | Encaminhamentos | Criterios | Mif

  /** The section's id in the selection record. */
  function Id(s: ReportSection): string
  {
    match s
    case Identificacao => "identificacao"
    case Percepcao => "percepcao"
    case Atividade => "atividade"
    case Ambientais => "ambientais"
    case Funcoes => "funcoes"
    case Pessoais => "pessoais"
    case Avaliacao => "avaliacao"
    case Objetivos => "objetivos"
    case Planejamento => "planejamento"
    case Encaminhamentos => "encaminhamentos"
    case Criterios => "criterios"
    case Mif => "mif"
  }

  /** `FORM_SECTIONS` in display order. */
  function ReportSections(): (r: seq<ReportSection>)
    ensures |r| == 12
  {
    [Identificacao, Percepcao, Atividade, Ambientais, Funcoes, Pessoais,
     Avaliacao, Objetivos, Planejamento, Encaminhamentos, Criterios, Mif]
  }

  /** The section a record key names, if any. */
  function FromId(id: string): Option<ReportSection>
  {
    if id == "identificacao" then Some(Identificacao)
    else if id == "percepcao" then Some(Percepcao)
    else if id == "atividade" then Some(Atividade)
    else if id == "ambientais" then Some(Ambientais)
    else if id == "funcoes" then Some(Funcoes)
    else if id == "pessoais" then Some(Pessoais)
    else if id == "avaliacao" then Some(Avaliacao)
    else if id == "objetivos" then Some(Objetivos)
    else if id == "planejamento" then Some(Planejamento)
    else if id == "encaminhamentos" then Some(Encaminhamentos)
    else if id == "criterios" then Some(Criterios)
    else if id == "mif" then Some(Mif)
    else None
  }

  /** Reading back a section's id gives the section: the ids are
      distinct. */
  lemma IdRoundTrip(s: ReportSection)
    ensures FromId(Id(s)) == Some(s)
  {
  }

  lemma IdInjective()
    ensures forall s, t :: Id(s) == Id(t) ==> s == t
  {
    forall s, t | Id(s) == Id(t) ensures s == t {
      IdRoundTrip(s);
      IdRoundTrip(t);
    }
  }

  /** The `selectedSections` record the PDF receives: one boolean per
      section id. */
  function SelectionRecord(sel: Selection): (r: map<string, bool>)
    requires sel.Keys == AllSections()
    ensures forall s :: Id(s) in r && r[Id(s)] == sel[s]
    ensures forall id :: id in r ==> FromId(id).Some?
  {
    IdInjective();
    forall s ensures FromId(Id(s)).Some? {
      IdRoundTrip(s);
    }
    map s | s in AllSections() :: Id(s) := sel[s]
  }

  /** Every section is listed. */
  lemma EverySectionListed()
    ensures forall s :: s in ReportSections()
  {
    var r := ReportSections();
    forall s ensures s in r {
      match s
      case Identificacao => assert r[0] == s;
      case Percepcao => assert r[1] == s;
      case Atividade => assert r[2] == s;
      case Ambientais => assert r[3] == s;
      case Funcoes => assert r[4] == s;
      case Pessoais => assert r[5] == s;
      case Avaliacao => assert r[6] == s;
      case Objetivos => assert r[7] == s;
      case Planejamento => assert r[8] == s;
      case Encaminhamentos => assert r[9] == s;
      case Criterios => assert r[10] == s;
      case Mif => assert r[11] == s;
    }
  }

  /** `section.default`. */
  predicate Default(s: ReportSection)
  {
    s != Encaminhamentos && s != Criterios
  }

  /** A selection: one flag per section. */
  type Selection = map<ReportSection, bool>

  /** Every section selected. */
  function AllSections(): (r: set<ReportSection>)
    ensures forall s :: s in r
  {
    EverySectionListed();
    set s | s in ReportSections()
  }

  /** The initial selection: each section's default. */
  function InitialSelection(): (m: Selection)
    ensures m.Keys == AllSections()
    ensures forall s :: m[s] <==> s != Encaminhamentos && s != Criterios
  {
    map s | s in AllSections() :: Default(s)
  }

  /** `selectAllSections`. */
  function SelectAll(): (m: Selection)
    ensures m.Keys == AllSections()
    ensures forall s :: m[s]
  {
    map s | s in AllSections() :: true
  }

  /** `deselectAllSections`. */
  function DeselectAll(): (m: Selection)
    ensures m.Keys == AllSections()
    ensures forall s :: !m[s]
  {
    map s | s in AllSections() :: false
  }

  /** `SPECIALTY_SECTIONS`. Every specialty has an entry, so the
      `|| SPECIALTY_SECTIONS.todas` fallback never applies. */
  function SpecialtySections(e: Especialidade): (r: seq<ReportSection>)
    ensures e == Todas ==> forall s :: s in r
    ensures |r| > 0 && r[0] == Identificacao
  {
    match e
    case Todas => EverySectionListed(); ReportSections()
    case Fisioterapia => [Identificacao, Percepcao, Atividade, Funcoes, Avaliacao, Objetivos, Planejamento, Mif]
    case TerapiaOcupacional => [Identificacao, Percepcao, Atividade, Ambientais, Funcoes, Avaliacao, Objetivos, Planejamento]
    case Fonoaudiologia => [Identificacao, Percepcao, Atividade, Funcoes, Avaliacao, Objetivos, Planejamento]
    case Psicologia => [Identificacao, Percepcao, Pessoais, Avaliacao, Objetivos, Planejamento]
    case AssistenciaSocial => [Identificacao, Percepcao, Ambientais, Pessoais, Avaliacao, Objetivos, Encaminhamentos]
    case Enfermagem => [Identificacao, Percepcao, Atividade, Funcoes, Avaliacao, Planejamento, Criterios]
    case Medicina => [Identificacao, Funcoes, Avaliacao, Objetivos, Planejamento, Criterios]
    case Nutricao => [Identificacao, Percepcao, Pessoais, Avaliacao, Objetivos, Planejamento]
    case Pedagogia => [Identificacao, Percepcao, Atividade, Avaliacao, Objetivos, Planejamento]
    case EducadorFisico => [Identificacao, Atividade, Funcoes, Avaliacao, Objetivos, Planejamento]
    case Musicoterapia => [Identificacao, Percepcao, Atividade, Avaliacao, Objetivos, Planejamento]
  }

  /** `applySpecialtyTemplate`: exactly the sections of the specialty's
      list, over all twelve sections. */
  function ApplySpecialty(e: Especialidade): (m: Selection)
    ensures m.Keys == AllSections()
    ensures forall s :: m[s] <==> s in SpecialtySections(e)
  {
    map s | s in AllSections() :: s in SpecialtySections(e)
  }

  /** The "todas" preset selects as much as select-all. */
  lemma TodasPresetSelectsAll()
    ensures ApplySpecialty(Todas) == SelectAll()
  {
  }

  /** The patient's identification is in every preset. */
  lemma PresetsIncludeIdentification(e: Especialidade)
    ensures ApplySpecialty(e)[Identificacao]
  {
    assert SpecialtySections(e)[0] in SpecialtySections(e);
  }

  /** Only the social worker's preset (and "todas") adds referrals; only
      nursing and medicine (and "todas") add discharge criteria. */
  lemma PresetReferralsAndDischarge(e: Especialidade)
    ensures ApplySpecialty(e)[Encaminhamentos] <==> e == Todas || e == AssistenciaSocial
    ensures ApplySpecialty(e)[Criterios] <==> e == Todas || e == Enfermagem || e == Medicina
  {
  }

  /** A checkbox toggle: one entry set, the rest unchanged. */
  function Toggle(selection: Selection, id: ReportSection, checked: bool): (m: Selection)
    ensures id in m && m[id] == checked
    ensures forall k :: k != id ==> (k in m <==> k in selection) && (k in selection ==> m[k] == selection[k])
  {
    selection[id := checked]
  }

  /** The keys the anonymised export replaces. */
  predicate Identifying(k: string)
  {
    k == "nome" || k == "dataNascimento" || k == "endereco" || k == "contato"
  }

  /** `prepareExportData`: the form values, with the name, birth date,
      address and contact replaced by fixed placeholders when anonymising;
      `sexo` is copied explicitly, so it is present (maybe undefined). */
  function PrepareExportData(formData: Record, anonymize: bool): (r: Record)
    ensures !anonymize ==> r == formData
    ensures anonymize ==> r.Keys == formData.Keys + {"nome", "dataNascimento", "sexo", "endereco", "contato"}
    ensures anonymize ==>
      r["nome"] == Str("ANÔNIMO") && r["dataNascimento"] == Str("XX/XX/XXXX")
      && r["endereco"] == Str("ENDEREÇO OMITIDO") && r["contato"] == Str("CONTATO OMITIDO")
      && r["sexo"] == Get(formData, "sexo")
    ensures anonymize ==> forall k :: k in formData && !Identifying(k) ==> r[k] == formData[k]
  {
    if anonymize then
      formData["nome" := Str("ANÔNIMO")]["dataNascimento" := Str("XX/XX/XXXX")]["sexo" := Get(formData, "sexo")]
        ["endereco" := Str("ENDEREÇO OMITIDO")]["contato" := Str("CONTATO OMITIDO")]
    else formData
  }

  /** Nothing identifying survives anonymisation: two forms that differ
      only in the four personal fields export the same data. */
  lemma AnonymisationForgetsIdentity(a: Record, b: Record)
    requires forall k :: !Identifying(k) ==> (k in a <==> k in b) && (k in a ==> a[k] == b[k])
    requires forall k :: Identifying(k) ==> k in a && k in b
    ensures PrepareExportData(a, true) == PrepareExportData(b, true)
  {
    var ra := PrepareExportData(a, true);
    var rb := PrepareExportData(b, true);
    assert ra.Keys == rb.Keys;
    forall k | k in ra ensures ra[k] == rb[k] {
      if !Identifying(k) && k != "sexo" {
        assert ra[k] == a[k];
      }
    }
  }

  /** Anonymising anonymised data changes nothing. */
  lemma AnonymisationIdempotent(formData: Record)
    ensures PrepareExportData(PrepareExportData(formData, true), true) == PrepareExportData(formData, true)
  {
    var once := PrepareExportData(formData, true);
    var twice := PrepareExportData(once, true);
    assert twice.Keys == once.Keys;
    forall k | k in once ensures twice[k] == once[k] {
    }
  }

  /** `title.replace(/\s+/g, "_").toLowerCase()`. */
  function FileStem(title: string): (r: string)
    ensures forall i :: 0 <= i < |r| ==> !IsSpace(r[i])
    ensures (forall i :: 0 <= i < |title| ==> !IsSpace(title[i])) ==> r == Lower(title)
  {
    ReplaceSpaceRunsNoSpace(title, "_");
    if forall i :: 0 <= i < |title| ==> !IsSpace(title[i]) then
      ReplaceSpaceRunsIdentity(title, "_");
      Lower(ReplaceSpaceRuns(title, "_"))
    else
      Lower(ReplaceSpaceRuns(title, "_"))
  }

  /** The report's file name: the stem with a `.pdf` extension, holding
      no white space. */
  function PdfFileName(title: string): (r: string)
    ensures |r| == |FileStem(title)| + 4 && r[|r| - 4..] == ".pdf"
    ensures forall i :: 0 <= i < |r| ==> !IsSpace(r[i])
  {
    var stem := FileStem(title);
    NoSpaceAppend(stem, ".pdf");
    stem + ".pdf"
  }

  /** The research export's file name, holding no white space. */
  function ResearchFileName(title: string): (r: string)
    ensures |r| == |FileStem(title)| + 19 && r[|r| - 19..] == "_research_data.json"
    ensures forall i :: 0 <= i < |r| ==> !IsSpace(r[i])
  {
    var stem := FileStem(title);
    NoSpaceAppend(stem, "_research_data.json");
    stem + "_research_data.json"
  }

  lemma NoSpaceAppend(a: string, b: string)
    requires forall i :: 0 <= i < |a| ==> !IsSpace(a[i])
    requires forall i :: 0 <= i < |b| ==> b[i] != ' ' && b[i] > '\r' && b[i] < '\U{00A0}'
    ensures forall i :: 0 <= i < |a + b| ==> !IsSpace((a + b)[i])
  {
  }

  /** Naming a file after a stem gives the same name as naming it after
      the title: the stem is already a fixed point. */
  lemma FileStemIdempotent(title: string)
    ensures FileStem(FileStem(title)) == FileStem(title)
    ensures PdfFileName(FileStem(title)) == PdfFileName(title)
  {
    var stem := FileStem(title);
    LowerTwice(ReplaceSpaceRuns(title, "_"));
    assert FileStem(stem) == Lower(stem);
  }
}
