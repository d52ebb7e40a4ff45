/** The tab state machine of components/pts-form.tsx: the fifteen tabs,
    the save that precedes every tab change, next/previous navigation, the
    explicit save button, and the submission that finalises the evaluation
    and shapes the data of the PDF. The evaluation context's `saveSecao`
    and `finalizarAvaliacao` are recorded as calls; their effects are not modelled. */
module PtsForm {
  import opened Js

  /** The tabs, in order. */
  datatype Tab =
    | Identificacao | Historico | Percepcao | Atividade | Ambientais | Funcoes | Marcha | Avds
    | Pessoais | Avaliacao | Objetivos | Planejamento | Encaminhamentos | Criterios | Resumos

  function TabId(t: Tab): string
  {
    match t
    case Identificacao => "identificacao"
    case Historico => "historico"
    case Percepcao => "percepcao"
    case Atividade => "atividade"
    case Ambientais => "ambientais"
    case Funcoes => "funcoes"
    case Marcha => "marcha"
    case Avds => "avds"
    case Pessoais => "pessoais"
    case Avaliacao => "avaliacao"
    case Objetivos => "objetivos"
    case Planejamento => "planejamento"
    case Encaminhamentos => "encaminhamentos"
    case Criterios => "criterios"
    case Resumos => "resumos"
  }

  /** The tab a `Tabs` value names, if any. */
  function FromTabId(id: string): Option<Tab>
  {
    if id == "identificacao" then Some(Identificacao)
    else if id == "historico" then Some(Historico)
    else if id == "percepcao" then Some(Percepcao)
    else if id == "atividade" then Some(Atividade)
    else if id == "ambientais" then Some(Ambientais)
    else if id == "funcoes" then Some(Funcoes)
    else if id == "marcha" then Some(Marcha)
    else if id == "avds" then Some(Avds)
    else if id == "pessoais" then Some(Pessoais)
    else if id == "avaliacao" then Some(Avaliacao)
    else if id == "objetivos" then Some(Objetivos)
    else if id == "planejamento" then Some(Planejamento)
    else if id == "encaminhamentos" then Some(Encaminhamentos)
    else if id == "criterios" then Some(Criterios)
    else if id == "resumos" then Some(Resumos)
    else None
  }

  lemma TabIdRoundTrip(t: Tab)
    ensures FromTabId(TabId(t)) == Some(t)
  {
  }

  /** No two tabs share an id. */
  lemma TabIdsDistinct(s: Tab, t: Tab)
    ensures TabId(s) == TabId(t) ==> s == t
  {
    TabIdRoundTrip(s);
    TabIdRoundTrip(t);
  }

  /** The `tabs` array. */
  function Tabs(): (r: seq<Tab>)
    ensures |r| == 15
    ensures r[0] == Identificacao && r[14] == Resumos
    ensures forall i, j :: 0 <= i < j < |r| ==> r[i] != r[j]
  {
    [Identificacao, Historico, Percepcao, Atividade, Ambientais, Funcoes, Marcha, Avds,
     Pessoais, Avaliacao, Objetivos, Planejamento, Encaminhamentos, Criterios, Resumos]
  }

  /** `tabs.findIndex(tab => tab.id === activeTab)`. */
  function IndexOf(t: Tab): (i: nat)
    ensures i < |Tabs()| && Tabs()[i] == t
    ensures i == |Tabs()| - 1 <==> t == Resumos
  {
    match t
    case Identificacao => 0
    case Historico => 1
    case Percepcao => 2
    case Atividade => 3
    case Ambientais => 4
    case Funcoes => 5
    case Marcha => 6
    case Avds => 7
    case Pessoais => 8
    case Avaliacao => 9
    case Objetivos => 10
    case Planejamento => 11
    case Encaminhamentos => 12
    case Criterios => 13
    case Resumos => 14
  }

  /** Every tab is somewhere in the list, at exactly one place. */
  lemma IndexOfUnique(t: Tab, i: nat)
    requires i < |Tabs()| && Tabs()[i] == t
    ensures IndexOf(t) == i
  {
  }

  /** The tab `nextTab` moves to: the following one, none after the
      last. */
  function Next(t: Tab): (r: Tab)
    ensures t != Resumos ==> IndexOf(r) == IndexOf(t) + 1
    ensures t == Resumos ==> r == t
  {
    var i := IndexOf(t);
    if i < |Tabs()| - 1 then
      var r := Tabs()[i + 1];
      IndexOfUnique(r, i + 1);
      r
    else t
  }

  /** The tab `prevTab` moves to: the preceding one, none before the
      first. */
  function Prev(t: Tab): (r: Tab)
    ensures t != Identificacao ==> IndexOf(r) + 1 == IndexOf(t)
    ensures t == Identificacao ==> r == t
  {
    var i := IndexOf(t);
    if i > 0 then
      var r := Tabs()[i - 1];
      IndexOfUnique(r, i - 1);
      r
    else t
  }

  /** Next and previous undo each other away from the ends. */
  lemma NextPrevInverse(t: Tab)
    ensures t != Resumos ==> Prev(Next(t)) == t
    ensures t != Identificacao ==> Next(Prev(t)) == t
  {
    if t != Resumos {
      IndexOfUnique(t, IndexOf(Prev(Next(t))));
    }
    if t != Identificacao {
      IndexOfUnique(t, IndexOf(Next(Prev(t))));
    }
  }

  /** `k` presses of "Próximo" from the first tab. */
  function Forward(k: nat): Tab
  {
    if k == 0 then Identificacao else Next(Forward(k - 1))
  }

  /** The position `k` presses of "Próximo" reach. */
  lemma {:induction false} ForwardIndex(k: nat)
    ensures IndexOf(Forward(k)) == if k < |Tabs()| then k else |Tabs()| - 1
  {
    if k > 0 {
      ForwardIndex(k - 1);
    }
  }

  /** Pressing "Próximo" walks the tabs in list order and stays on the
      last one. */
  lemma ForwardWalksTabs(k: nat)
    ensures k < |Tabs()| ==> Forward(k) == Tabs()[k]
    ensures k >= |Tabs()| - 1 ==> Forward(k) == Resumos
  {
    ForwardIndex(k);
  }

  /** The fields `onSubmit` defaults to "" for the PDF. */
  function DefaultedFields(): seq<string>
  {
    ["dataNascimento", "sexo", "endereco", "contato", "diagnostico", "motivoEncaminhamento"]
  }

  /** `data.field || ""`. */
  function OrEmpty(data: Record, field: string): (v: JsValue)
    ensures Truthy(Get(data, field)) ==> v == data[field]
    ensures !Truthy(Get(data, field)) ==> v == Str("")
  {
    Or(Get(data, field), Str(""))
  }

  /** The data handed to the PDF: all submitted values, the evaluation's
      patient name if truthy, else the submitted one, and "" for the
      missing identification fields. */
  function PdfData(data: Record, pacienteNome: JsValue): (r: Record)
    ensures forall k :: k in data ==> k in r
    ensures forall k :: k in data && k != "nome" && k !in DefaultedFields() ==> r[k] == data[k]
    ensures Get(r, "nome") == (if Truthy(pacienteNome) then pacienteNome else Get(data, "nome"))
    ensures forall i :: 0 <= i < |DefaultedFields()| ==>
      Get(r, DefaultedFields()[i]) == OrEmpty(data, DefaultedFields()[i])
  {
    data["nome" := Or(pacienteNome, Get(data, "nome"))]
        ["dataNascimento" := OrEmpty(data, "dataNascimento")]
        ["sexo" := OrEmpty(data, "sexo")]
        ["endereco" := OrEmpty(data, "endereco")]
        ["contato" := OrEmpty(data, "contato")]
        ["diagnostico" := OrEmpty(data, "diagnostico")]
        ["motivoEncaminhamento" := OrEmpty(data, "motivoEncaminhamento")]
  }

  /** A recorded `saveSecao(tab id, values)` call. */
  datatype SectionSave = SectionSave(secao: string, dados: Record)

  /** The toasts the form raises itself. */
  datatype Notice =
    | SelectPatientFirst
    | SectionSaved
    | SaveNeedsPatient
    | Finished
    | FinishFailed(message: string)

  const FinishFailedDefault := "Ocorreu um erro ao finalizar a avaliação"

  /** The loaded evaluation as the form sees it: its patient name. */
  datatype LoadedEvaluation = LoadedEvaluation(pacienteNome: JsValue)

  /** `PTSForm`'s state: the active tab, the PDF data and completion flag,
      plus the log of `saveSecao`/`finalizarAvaliacao` calls and toasts. */
  class Form {
    var activeTab: Tab
    var formData: Record
    var isFormComplete: bool
    const avaliacao: Option<LoadedEvaluation>
    var saves: seq<SectionSave>
    var finalizeCalls: nat
    var notices: seq<Notice>

    constructor(avaliacao: Option<LoadedEvaluation>)
      ensures this.avaliacao == avaliacao
      ensures activeTab == Identificacao && formData == map[] && !isFormComplete
      ensures saves == [] && finalizeCalls == 0 && notices == []
    {
      this.avaliacao := avaliacao;
      activeTab := Identificacao;
      formData := map[];
      isFormComplete := false;
      saves := [];
      finalizeCalls := 0;
      notices := [];
    }

    /** `handleTabChange`: the current values are saved under the current
        tab only when an evaluation is loaded and there are values; then
        the tab changes. */
    method TabChange(value: Tab, current: Record)
      modifies this
      ensures activeTab == value
      ensures avaliacao.Some? && |current| > 0 ==>
        saves == old(saves) + [SectionSave(TabId(old(activeTab)), current)]
      ensures !(avaliacao.Some? && |current| > 0) ==> saves == old(saves)
      ensures formData == old(formData) && isFormComplete == old(isFormComplete)
      ensures finalizeCalls == old(finalizeCalls) && notices == old(notices)
    {
      if avaliacao.Some? && |current| > 0 {
        saves := saves + [SectionSave(TabId(activeTab), current)];
      }
      activeTab := value;
    }

    /** `nextTab`: a tab change to the following tab, nothing on the last
        one. */
    method NextTab(current: Record)
      modifies this
      ensures activeTab == Next(old(activeTab))
      ensures old(activeTab) != Resumos && avaliacao.Some? && |current| > 0 ==>
        saves == old(saves) + [SectionSave(TabId(old(activeTab)), current)]
      ensures !(old(activeTab) != Resumos && avaliacao.Some? && |current| > 0) ==> saves == old(saves)
      ensures formData == old(formData) && isFormComplete == old(isFormComplete)
      ensures finalizeCalls == old(finalizeCalls) && notices == old(notices)
    {
      var currentIndex := IndexOf(activeTab);
      if currentIndex < |Tabs()| - 1 {
        TabChange(Tabs()[currentIndex + 1], current);
      }
    }

    /** `prevTab`: a tab change to the preceding tab, nothing on the first
        one. */
    method PrevTab(current: Record)
      modifies this
      ensures activeTab == Prev(old(activeTab))
      ensures old(activeTab) != Identificacao && avaliacao.Some? && |current| > 0 ==>
        saves == old(saves) + [SectionSave(TabId(old(activeTab)), current)]
      ensures !(old(activeTab) != Identificacao && avaliacao.Some? && |current| > 0) ==> saves == old(saves)
      ensures formData == old(formData) && isFormComplete == old(isFormComplete)
      ensures finalizeCalls == old(finalizeCalls) && notices == old(notices)
    {
      var currentIndex := IndexOf(activeTab);
      if currentIndex > 0 {
        TabChange(Tabs()[currentIndex - 1], current);
      }
    }

    /** The "Salvar" button: saves even empty values when an evaluation is
        loaded, otherwise only warns. */
    method SaveButton(current: Record)
      modifies this
      ensures avaliacao.Some? ==>
        saves == old(saves) + [SectionSave(TabId(activeTab), current)] && notices == old(notices) + [SectionSaved]
      ensures avaliacao.None? ==> saves == old(saves) && notices == old(notices) + [SaveNeedsPatient]
      ensures activeTab == old(activeTab) && formData == old(formData) && isFormComplete == old(isFormComplete)
      ensures finalizeCalls == old(finalizeCalls)
    {
      if avaliacao.Some? {
        saves := saves + [SectionSave(TabId(activeTab), current)];
        notices := notices + [SectionSaved];
      } else {
        notices := notices + [SaveNeedsPatient];
      }
    }

    /** The onClick of "Finalizar e Gerar PDF", which runs before the
        submission: the same guarded save as a tab change. */
    method FinishClick(current: Record)
      modifies this
      ensures avaliacao.Some? && |current| > 0 ==>
        saves == old(saves) + [SectionSave(TabId(activeTab), current)]
      ensures !(avaliacao.Some? && |current| > 0) ==> saves == old(saves)
      ensures activeTab == old(activeTab) && formData == old(formData) && isFormComplete == old(isFormComplete)
      ensures finalizeCalls == old(finalizeCalls) && notices == old(notices)
    {
      if avaliacao.Some? && |current| > 0 {
        saves := saves + [SectionSave(TabId(activeTab), current)];
      }
    }

    /** `onSubmit`: without an evaluation only an error is shown.
        Otherwise the data is saved under the active tab and the
        evaluation finalised; on success the PDF data is set, the form is
        complete and the summaries tab opens. `saveThrows` and
        `finalizeThrows` are the messages of exceptions those calls throw,
        if they do; either one lands in the catch. */
    method OnSubmit(data: Record, saveThrows: Option<string>, finalizeThrows: Option<string>)
      modifies this
      ensures avaliacao.None? ==>
        notices == old(notices) + [SelectPatientFirst] && saves == old(saves)
        && finalizeCalls == old(finalizeCalls) && activeTab == old(activeTab)
        && formData == old(formData) && isFormComplete == old(isFormComplete)
      ensures avaliacao.Some? ==> saves == old(saves) + [SectionSave(TabId(old(activeTab)), data)]
      ensures avaliacao.Some? ==>
        finalizeCalls == old(finalizeCalls) + (if saveThrows.None? then 1 else 0)
      ensures avaliacao.Some? && saveThrows.None? && finalizeThrows.None? ==>
        formData == PdfData(data, avaliacao.value.pacienteNome)
        && isFormComplete && activeTab == Resumos && notices == old(notices) + [Finished]
      ensures avaliacao.Some? && (saveThrows.Some? || finalizeThrows.Some?) ==>
        var m := if saveThrows.Some? then saveThrows.value else finalizeThrows.value;
        activeTab == old(activeTab) && formData == old(formData) && isFormComplete == old(isFormComplete)
        && notices == old(notices) + [FinishFailed(if m != "" then m else FinishFailedDefault)]
    {
      if avaliacao.None? {
        notices := notices + [SelectPatientFirst];
        return;
      }
      saves := saves + [SectionSave(TabId(activeTab), data)];
      if saveThrows.Some? {
        var m := saveThrows.value;
        notices := notices + [FinishFailed(if m != "" then m else FinishFailedDefault)];
        return;
      }
      finalizeCalls := finalizeCalls + 1;
      if finalizeThrows.Some? {
        var m := finalizeThrows.value;
        notices := notices + [FinishFailed(if m != "" then m else FinishFailedDefault)];
        return;
      }
      formData := PdfData(data, avaliacao.value.pacienteNome);
      isFormComplete := true;
      notices := notices + [Finished];
      activeTab := Resumos;
    }
  }

  /** One section poured into the form: an object's entries overwrite
      the values of the same names; anything else adds nothing. */
  function Pour(values: Record, secao: JsValue): (r: Record)
    ensures r.Keys == values.Keys + (if secao.Obj? then secao.fields.Keys else {})
    ensures secao.Obj? ==> forall k :: k in secao.fields ==> r[k] == secao.fields[k]
    ensures forall k :: k in values && !(secao.Obj? && k in secao.fields) ==> r[k] == values[k]
  {
    if secao.Obj? then values + secao.fields else values
  }

  /** The form values after `loadFormData` has poured the sections
      `secoes` (one per tab, in tab order) into `values`. */
  function Loaded(values: Record, secoes: seq<JsValue>): (r: Record)
    ensures values.Keys <= r.Keys
    ensures (forall i :: 0 <= i < |secoes| ==> !secoes[i].Obj?) ==> r == values
  {
    if secoes == [] then values else Pour(Loaded(values, secoes[..|secoes| - 1]), secoes[|secoes| - 1])
  }

  /** Whether section `i` of `secoes` holds a value for `key`. */
  predicate SetsKey(secoes: seq<JsValue>, i: int, key: string)
    requires 0 <= i < |secoes|
  {
    secoes[i].Obj? && key in secoes[i].fields
  }

  /** After loading, a name has a value exactly when it had one or some
      section sets it. */
  lemma {:induction false} LoadedHasKey(values: Record, secoes: seq<JsValue>, key: string)
    ensures key in Loaded(values, secoes) <==>
      (key in values || exists i :: 0 <= i < |secoes| && SetsKey(secoes, i, key))
  {
    if secoes != [] {
      var n := |secoes| - 1;
      var front := secoes[..n];
      LoadedHasKey(values, front, key);
      assert forall i :: 0 <= i < n ==> (SetsKey(front, i, key) <==> SetsKey(secoes, i, key));
      if exists i :: 0 <= i < |secoes| && SetsKey(secoes, i, key) {
        var i :| 0 <= i < |secoes| && SetsKey(secoes, i, key);
        if i < n {
          assert SetsKey(front, i, key);
        }
      } else {
        assert !SetsKey(secoes, n, key);
        assert forall i :: 0 <= i < n ==> !SetsKey(front, i, key);
        assert key in Loaded(values, secoes) <==> key in Loaded(values, front);
      }
    }
  }

  /** A name no section sets keeps its value. */
  lemma {:induction false} LoadedKeepsUnset(values: Record, secoes: seq<JsValue>, key: string)
    requires key in values
    requires forall i :: 0 <= i < |secoes| ==> !SetsKey(secoes, i, key)
    ensures key in Loaded(values, secoes) && Loaded(values, secoes)[key] == values[key]
  {
    if secoes != [] {
      var n := |secoes| - 1;
      var front := secoes[..n];
      assert forall i :: 0 <= i < n ==> SetsKey(front, i, key) == SetsKey(secoes, i, key);
      LoadedKeepsUnset(values, front, key);
      assert !SetsKey(secoes, n, key);
    }
  }

  /** The last section that sets a name decides its value. */
  lemma {:induction false} LoadedLastSectionWins(values: Record, secoes: seq<JsValue>, key: string, i: int)
    requires 0 <= i < |secoes| && SetsKey(secoes, i, key)
    requires forall j :: i < j < |secoes| ==> !SetsKey(secoes, j, key)
    ensures key in Loaded(values, secoes) && Loaded(values, secoes)[key] == secoes[i].fields[key]
  {
    var n := |secoes| - 1;
    var front := secoes[..n];
    if i < n {
      assert forall j :: i < j < n ==> SetsKey(front, j, key) == SetsKey(secoes, j, key);
      assert SetsKey(front, i, key);
      LoadedLastSectionWins(values, front, key, i);
      assert !SetsKey(secoes, n, key);
    }
  }

  /** `loadFormData`: with an evaluation loaded, every tab's stored
      section is poured into the form in tab order; `getSecao` is given as
      the sequence of its answers (null for a missing section or a failed
      read, which it swallows). */
  method LoadFormData(avaliacao: Option<LoadedEvaluation>, values: Record, secoes: seq<JsValue>)
    returns (loaded: Record)
    ensures avaliacao.None? ==> loaded == values
    ensures avaliacao.Some? ==> loaded == Loaded(values, secoes)
  {
    loaded := values;
    if avaliacao.None? {
      return;
    }
    var i := 0;
    while i < |secoes|
      invariant 0 <= i <= |secoes|
      invariant loaded == Loaded(values, secoes[..i])
    {
      assert secoes[..i + 1][..i] == secoes[..i];
      var secaoData := secoes[i];
      if Truthy(secaoData) && secaoData.Obj? {
        loaded := loaded + secaoData.fields;
      }
      i := i + 1;
    }
    assert secoes[..i] == secoes;
  }

  /** Shaping the PDF data a second time changes nothing. */
  lemma PdfDataIdempotent(data: Record, pacienteNome: JsValue)
    ensures PdfData(PdfData(data, pacienteNome), pacienteNome) == PdfData(data, pacienteNome)
  {
  }
}
