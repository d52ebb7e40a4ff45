/** Specialty relevance and field navigation of
    components/especialidade-context.tsx, with the `|| ["todas"]` fallback
    of components/campo-especialidade.tsx. */
module Specialty {
  import opened Js

  /** `Especialidade`: the eleven professions and "todas" (all). */
  datatype Especialidade =
    | Todas | Fisioterapia | TerapiaOcupacional | Fonoaudiologia | Psicologia | AssistenciaSocial
    | Enfermagem | Medicina | Nutricao | Pedagogia | EducadorFisico | Musicoterapia

  /** A registry entry: a form field and the specialties it concerns. */
  datatype Tagged = Tagged(field: string, specialties: seq<Especialidade>)

  ghost predicate AllTagged(entries: seq<Tagged>)
  {
    forall i :: 0 <= i < |entries| ==> |entries[i].specialties| > 0
  }

  /** Identificação do Paciente. */
  function IdentificationTags(): (r: seq<Tagged>)
    ensures AllTagged(r)
  {
    [
      Tagged("nome", [Todas]),
      Tagged("dataNascimento", [Todas]),
      Tagged("sexo", [Todas]),
      Tagged("endereco", [Todas]),
      Tagged("contato", [Todas]),
      Tagged("diagnostico", [Todas]),
      Tagged("motivoEncaminhamento", [Todas])
    ]
  }

  /** Histórico Médico. */
  function MedicalHistoryTags(): (r: seq<Tagged>)
    ensures AllTagged(r)
  {
    [
      Tagged("dataInicioSintomas", [Medicina, Fisioterapia, Enfermagem]),
      Tagged("historicoCondicaoAtual", [Todas]),
      Tagged("temDoencaPrevia", [Medicina, Enfermagem]),
      Tagged("hipertensao", [Medicina, Enfermagem]),
      Tagged("diabetes", [Medicina, Enfermagem, Nutricao]),
      Tagged("cardiopatia", [Medicina, Fisioterapia, Enfermagem]),
      Tagged("doencaRespiratoria", [Medicina, Fisioterapia, Enfermagem]),
      Tagged("doencaReumatica", [Medicina, Fisioterapia]),
      Tagged("doencaNeurologica", [Medicina, Fisioterapia, TerapiaOcupacional, Fonoaudiologia]),
      Tagged("outrasDoencas", [Medicina, Enfermagem]),
      Tagged("medicamentosAtuais", [Medicina, Enfermagem]),
      Tagged("cirurgiasRealizadas", [Medicina, Fisioterapia]),
      Tagged("historicoFamiliar", [Medicina, Psicologia]),
      Tagged("nivelDor", [Fisioterapia, Medicina, Enfermagem]),
      Tagged("localizacaoDor", [Fisioterapia, Medicina]),
      Tagged("tratamentosAnteriores", [Todas])
    ]
  }

  /** Percepção do Paciente. */
  function PerceptionTags(): (r: seq<Tagged>)
    ensures AllTagged(r)
  {
    [
      Tagged("dificuldadesRelatadas", [Todas]),
      Tagged("expectativasTratamento", [Todas]),
      Tagged("metasImportantes", [Todas])
    ]
  }

  /** Atividade e Participação. */
  function ActivityTags(): (r: seq<Tagged>)
    ensures AllTagged(r)
  {
    [
      Tagged("mobilidadeLocomocao", [Fisioterapia, TerapiaOcupacional, EducadorFisico, Medicina]),
      Tagged("autocuidado", [TerapiaOcupacional, Enfermagem, Fisioterapia]),
      Tagged("comunicacaoInteracao", [Fonoaudiologia, Psicologia, TerapiaOcupacional, Musicoterapia]),
      Tagged("vidaDomestica", [TerapiaOcupacional, AssistenciaSocial, Psicologia]),
      Tagged("educacaoTrabalhoLazer", [TerapiaOcupacional, Psicologia, Pedagogia, AssistenciaSocial, EducadorFisico]),
      Tagged("principaisBarreiras", [Todas]),
      Tagged("principaisPotencialidades", [Todas])
    ]
  }

  /** Fatores Ambientais. */
  function EnvironmentTags(): (r: seq<Tagged>)
    ensures AllTagged(r)
  {
    [
      Tagged("residenciaAdaptada", [TerapiaOcupacional, Fisioterapia, AssistenciaSocial]),
      Tagged("dificuldadeTransporte", [AssistenciaSocial, TerapiaOcupacional, Fisioterapia]),
      Tagged("barreirasComTec", [Fonoaudiologia, TerapiaOcupacional, Pedagogia]),
      Tagged("faltaApoioFamiliar", [AssistenciaSocial, Psicologia, Enfermagem]),
      Tagged("barreirasAtitudinais", [Psicologia, AssistenciaSocial, Pedagogia]),
      Tagged("presencaCuidador", [AssistenciaSocial, Enfermagem, Psicologia]),
      Tagged("usoTecnologia", [TerapiaOcupacional, Fisioterapia, Fonoaudiologia]),
      Tagged("acessoBeneficios", [AssistenciaSocial]),
      Tagged("boaCompreensao", [Fonoaudiologia, Psicologia, Pedagogia, Enfermagem])
    ]
  }

  /** Funções e Estruturas. */
  function BodyFunctionsTags(): (r: seq<Tagged>)
    ensures AllTagged(r)
  {
    [
      Tagged("sistemasComprometidos", [Medicina, Fisioterapia, Enfermagem]),
      Tagged("forcaTonosCoord", [Fisioterapia, TerapiaOcupacional, EducadorFisico]),
      Tagged("presencaDor", [Fisioterapia, Medicina, Enfermagem]),
      Tagged("deformidades", [Fisioterapia, Medicina, TerapiaOcupacional]),
      Tagged("controlePostural", [Fisioterapia, TerapiaOcupacional, EducadorFisico]),
      Tagged("funcoesSensoriais", [TerapiaOcupacional, Fonoaudiologia, Fisioterapia]),
      Tagged("funcoesCognitivas", [Psicologia, TerapiaOcupacional, Fonoaudiologia, Pedagogia, Musicoterapia])
    ]
  }

  /** Marcha e Equilíbrio. */
  function GaitTags(): (r: seq<Tagged>)
    ensures AllTagged(r)
  {
    [
      Tagged("padraoDeMarchaGeral", [Fisioterapia, Medicina]),
      Tagged("usaDispositivo", [Fisioterapia, TerapiaOcupacional]),
      Tagged("bengala", [Fisioterapia, TerapiaOcupacional]),
      Tagged("muleta", [Fisioterapia, TerapiaOcupacional]),
      Tagged("andador", [Fisioterapia, TerapiaOcupacional]),
      Tagged("cadeiraRodas", [Fisioterapia, TerapiaOcupacional]),
      Tagged("outrosDispositivos", [Fisioterapia, TerapiaOcupacional]),
      Tagged("avaliacaoEquilibrio", [Fisioterapia, EducadorFisico]),
      Tagged("equilibrioEstatico", [Fisioterapia, EducadorFisico]),
      Tagged("equilibrioDinamico", [Fisioterapia, EducadorFisico]),
      Tagged("riscoDeCaidas", [Fisioterapia, Enfermagem, TerapiaOcupacional]),
      Tagged("historicoQuedas", [Fisioterapia, Enfermagem, TerapiaOcupacional]),
      Tagged("testesEquilibrio", [Fisioterapia, EducadorFisico])
    ]
  }

  /** Avaliação de AVDs. */
  function DailyLivingTags(): (r: seq<Tagged>)
    ensures AllTagged(r)
  {
    [
      Tagged("alimentacao", [TerapiaOcupacional, Enfermagem, Fonoaudiologia]),
      Tagged("higienePessoal", [TerapiaOcupacional, Enfermagem]),
      Tagged("banho", [TerapiaOcupacional, Enfermagem, Fisioterapia]),
      Tagged("vestirParteSuperior", [TerapiaOcupacional, Fisioterapia]),
      Tagged("vestirParteInferior", [TerapiaOcupacional, Fisioterapia]),
      Tagged("usoSanitario", [TerapiaOcupacional, Enfermagem, Fisioterapia]),
      Tagged("controleBexiga", [Enfermagem, Medicina]),
      Tagged("controleIntestino", [Enfermagem, Medicina]),
      Tagged("adaptacoesAVDs", [TerapiaOcupacional, Fisioterapia])
    ]
  }

  /** Fatores Pessoais. */
  function PersonalFactorsTags(): (r: seq<Tagged>)
    ensures AllTagged(r)
  {
    [
      Tagged("idadeGeneroEscolaridade", [Todas]),
      Tagged("ocupacaoPapelSocial", [Psicologia, TerapiaOcupacional, AssistenciaSocial]),
      Tagged("condicaoSocioeconomica", [AssistenciaSocial]),
      Tagged("habitosEstiloVida", [Nutricao, EducadorFisico, Enfermagem, Medicina]),
      Tagged("crencasEspiritualidade", [Psicologia, AssistenciaSocial]),
      Tagged("motivacaoEngajamento", [Psicologia, Fisioterapia, TerapiaOcupacional, Musicoterapia]),
      Tagged("expectativasPrioridades", [Todas])
    ]
  }

  /** Avaliação Interdisciplinar. */
  function InterdisciplinaryTags(): (r: seq<Tagged>)
    ensures AllTagged(r)
  {
    [
      Tagged("fisioterapiaImpressoes", [Fisioterapia]),
      Tagged("fisioterapiaMetas", [Fisioterapia]),
      Tagged("terapiaOcupacionalImpressoes", [TerapiaOcupacional]),
      Tagged("terapiaOcupacionalMetas", [TerapiaOcupacional]),
      Tagged("fonoaudiologiaImpressoes", [Fonoaudiologia]),
      Tagged("fonoaudiologiaMetas", [Fonoaudiologia]),
      Tagged("psicologiaImpressoes", [Psicologia]),
      Tagged("psicologiaMetas", [Psicologia]),
      Tagged("servicoSocialImpressoes", [AssistenciaSocial]),
      Tagged("servicoSocialMetas", [AssistenciaSocial]),
      Tagged("enfermagemMedicinaImpressoes", [Enfermagem, Medicina]),
      Tagged("enfermagemMedicinaMetas", [Enfermagem, Medicina])
    ]
  }

  /** Objetivos PTS. */
  function GoalsTags(): (r: seq<Tagged>)
    ensures AllTagged(r)
  {
    [
      Tagged("curtoPrazo", [Todas]),
      Tagged("medioPrazo", [Todas]),
      Tagged("longoPrazo", [Todas])
    ]
  }

  /** Planejamento Terapêutico. */
  function PlanningTags(): (r: seq<Tagged>)
    ensures AllTagged(r)
  {
    [
      Tagged("frequenciaAtendimentos", [Todas]),
      Tagged("metodosEstrategias", [Todas]),
      Tagged("escalasTestesAplicados", [Todas]),
      Tagged("dataReavaliacao", [Todas]),
      Tagged("registroEvolucao", [Todas])
    ]
  }

  /** Encaminhamentos. */
  function ReferralsTags(): (r: seq<Tagged>)
    ensures AllTagged(r)
  {
    [
      Tagged("reabilitacaoAuditiva", [Fonoaudiologia, Medicina]),
      Tagged("reabilitacaoIntelectual", [Psicologia, Pedagogia, Medicina]),
      Tagged("reabilitacaoVisual", [TerapiaOcupacional, Medicina]),
      Tagged("dispensacaoOPM", [Fisioterapia, TerapiaOcupacional, Medicina]),
      Tagged("encaminhamentoSaude", [Medicina, Enfermagem]),
      Tagged("encaminhamentoAssistencia", [AssistenciaSocial]),
      Tagged("encaminhamentoEducacao", [Pedagogia, Psicologia]),
      Tagged("encaminhamentoOutros", [Todas]),
      Tagged("outrosEncaminhamentos", [Todas])
    ]
  }

  /** Critérios de Alta. */
  function DischargeTags(): (r: seq<Tagged>)
    ensures AllTagged(r)
  {
    [
      Tagged("criteriosAlta", [Todas]),
      Tagged("registroAlta", [Todas])
    ]
  }

  /** `camposEspecialidades`, in declaration order: 109 fields, each
      naming at least one specialty. */
  function Registry(): (r: seq<Tagged>)
    ensures |r| == 109
    ensures AllTagged(r)
  {
    var r0 := IdentificationTags();
    var r1 := r0 + MedicalHistoryTags();
    AllTaggedAppend(r0, MedicalHistoryTags());
    var r2 := r1 + PerceptionTags();
    AllTaggedAppend(r1, PerceptionTags());
    var r3 := r2 + ActivityTags();
    AllTaggedAppend(r2, ActivityTags());
    var r4 := r3 + EnvironmentTags();
    AllTaggedAppend(r3, EnvironmentTags());
    var r5 := r4 + BodyFunctionsTags();
    AllTaggedAppend(r4, BodyFunctionsTags());
    var r6 := r5 + GaitTags();
    AllTaggedAppend(r5, GaitTags());
    var r7 := r6 + DailyLivingTags();
    AllTaggedAppend(r6, DailyLivingTags());
    var r8 := r7 + PersonalFactorsTags();
    AllTaggedAppend(r7, PersonalFactorsTags());
    var r9 := r8 + InterdisciplinaryTags();
    AllTaggedAppend(r8, InterdisciplinaryTags());
    var r10 := r9 + GoalsTags();
    AllTaggedAppend(r9, GoalsTags());
    var r11 := r10 + PlanningTags();
    AllTaggedAppend(r10, PlanningTags());
    var r12 := r11 + ReferralsTags();
    AllTaggedAppend(r11, ReferralsTags());
    var r13 := r12 + DischargeTags();
    AllTaggedAppend(r12, DischargeTags());
    r13
  }

  lemma AllTaggedAppend(a: seq<Tagged>, b: seq<Tagged>)
    requires AllTagged(a) && AllTagged(b)
    ensures AllTagged(a + b)
  {
    forall i | 0 <= i < |a + b|
      ensures |(a + b)[i].specialties| > 0
    {
      if i >= |a| {
        assert (a + b)[i] == b[i - |a|];
      }
    }
  }

  /** Looking a field up in the registry object: the last entry with that
      key wins, as for an object literal. */
  function Lookup(registry: seq<Tagged>, campo: string): (r: Option<seq<Especialidade>>)
    ensures r.None? <==> forall i :: 0 <= i < |registry| ==> registry[i].field != campo
    ensures r.Some? ==> exists i :: 0 <= i < |registry| && registry[i].field == campo && registry[i].specialties == r.value
  {
    if |registry| == 0 then None
    else if registry[|registry| - 1].field == campo then Some(registry[|registry| - 1].specialties)
    else
      var r := Lookup(registry[..|registry| - 1], campo);
      assert forall i :: 0 <= i < |registry| - 1 ==> registry[..|registry| - 1][i] == registry[i];
      r
  }

  /** `camposEspecialidades[campo] || ["todas"]`: an unregistered field
      concerns every specialty. */
  function SpecialtiesOf(registry: seq<Tagged>, campo: string): (r: seq<Especialidade>)
    ensures AllTagged(registry) ==> |r| > 0
    ensures Lookup(registry, campo).None? ==> r == [Todas]
  {
    match Lookup(registry, campo)
    case Some(specialties) => specialties
    case None => [Todas]
  }

  /** `isCampoRelevante`. */
  predicate IsRelevant(selected: Especialidade, specialties: seq<Especialidade>)
    ensures selected == Todas ==> IsRelevant(selected, specialties)
    ensures Todas in specialties ==> IsRelevant(selected, specialties)
    ensures selected != Todas && Todas !in specialties ==>
      (IsRelevant(selected, specialties) <==> exists i :: 0 <= i < |specialties| && specialties[i] == selected)
  {
    selected == Todas || selected in specialties || Todas in specialties
  }

  /** A field without a registry entry is shown for every specialty. */
  lemma UnregisteredFieldAlwaysRelevant(registry: seq<Tagged>, campo: string, selected: Especialidade)
    requires forall i :: 0 <= i < |registry| ==> registry[i].field != campo
    ensures IsRelevant(selected, SpecialtiesOf(registry, campo))
  {
  }

  /** Every registry field is shown to at least one profession besides
      "todas": no field of the form is hidden from everyone. */
  lemma EveryFieldHasAnAudience(campo: string)
    ensures exists e :: e != Todas && IsRelevant(e, SpecialtiesOf(Registry(), campo))
  {
    var l := SpecialtiesOf(Registry(), campo);
    if Todas in l {
      assert IsRelevant(Fisioterapia, l);
    } else {
      assert l[0] in l;
      assert IsRelevant(l[0], l);
    }
  }

  /** The fields of `domOrder` that are registered, in document order. */
  function InDocumentOrder(domOrder: seq<string>, registered: set<string>): (r: seq<string>)
    ensures |r| <= |domOrder|
    ensures forall i :: 0 <= i < |r| ==> r[i] in registered && r[i] in domOrder
    ensures forall i :: 0 <= i < |domOrder| && domOrder[i] in registered ==> domOrder[i] in r
  {
    if |domOrder| == 0 then []
    else
      var prev := InDocumentOrder(domOrder[..|domOrder| - 1], registered);
      assert forall i :: 0 <= i < |domOrder| - 1 ==> domOrder[..|domOrder| - 1][i] == domOrder[i];
      var last := domOrder[|domOrder| - 1];
      if last in registered then prev + [last] else prev
  }

  /** The index after one step forward or back, wrapping around. */
  function Step(index: nat, total: nat, forward: bool): (r: nat)
    requires total > 0
    ensures r < total
  {
    if forward then (index + 1) % total else (index - 1 + total) % total
  }

  /** The remainder of a number below the divisor is the number itself. */
  lemma ModBelow(x: nat, total: nat)
    requires x < total
    ensures x % total == x
  {
    var d := x / total;
    assert x == d * total + x % total;
    if d >= 1 {
      MulMono(1, d, total);
    }
  }

  /** Subtracting the divisor once leaves the remainder unchanged. */
  lemma ModAbove(x: nat, total: nat)
    requires total <= x < 2 * total
    ensures x % total == x - total
  {
    var d := x / total;
    assert x == d * total + x % total;
    if d >= 2 {
      MulMono(2, d, total);
    }

  }

  /** From a valid index, back undoes forward and forward undoes back. */
  lemma StepInverse(index: nat, total: nat)
    requires index < total
    ensures Step(Step(index, total, true), total, false) == index
    ensures Step(Step(index, total, false), total, true) == index
  {
    if index + 1 < total {
      ModBelow(index + 1, total);
      ModAbove(index + total, total);
    } else {
      ModAbove(index + 1, total);
      ModBelow(total - 1, total);
    }
    if index > 0 {
      ModAbove(index - 1 + total, total);
      ModBelow(index, total);
    } else {
      ModBelow(total - 1, total);
      ModAbove(total, total);
    }
  }

  function Forward(index: nat, total: nat, steps: nat): (r: nat)
    requires total > 0
    ensures r < total || (steps == 0 && r == index)
  {
    if steps == 0 then index else Step(Forward(index, total, steps - 1), total, true)
  }

  /** Stepping forward `total` times from a valid index comes back to it. */
  lemma {:induction false} FullCircle(index: nat, total: nat, steps: nat)
    requires index < total
    requires steps <= total
    ensures Forward(index, total, steps) == (index + steps) % total
  {
    if steps > 0 {
      FullCircle(index, total, steps - 1);
      var p := index + steps - 1;
      if p < total {
        ModBelow(p, total);
        if p + 1 < total {
          ModBelow(p + 1, total);
        } else {
          ModAbove(p + 1, total);
        }
      } else {
        ModAbove(p, total);
        ModAbove(p + 1, total);
        ModBelow(p + 1 - total, total);
      }
    }
  }

  /** Going forward once per registered field returns to the start. */
  lemma ForwardRoundTrip(index: nat, total: nat)
    requires index < total
    ensures Forward(index, total, total) == index
  {
    FullCircle(index, total, total);
    ModAbove(index + total, total);
  }

  /** The registered fields (`camposRefsMap`), their document order
      (`camposRelevantesOrdenados`) and the selected position. */
  class FieldNavigator {
    var registered: set<string>
    var ordered: seq<string>
    var selected: nat

    ghost predicate Valid()
      reads this
    {
      forall i :: 0 <= i < |ordered| ==> ordered[i] in registered
    }

    constructor()
      ensures registered == {} && ordered == [] && selected == 0
      ensures Valid()
    {
      registered := {};
      ordered := [];
      selected := 0;
    }

    /** `registrarCampoRef`: a live ref adds the field, null removes it;
        the order is rebuilt from the document order given. */
    method Register(campo: string, hasRef: bool, domOrder: seq<string>)
      modifies this
      ensures registered == if hasRef then old(registered) + {campo} else old(registered) - {campo}
      ensures ordered == InDocumentOrder(domOrder, registered)
      ensures selected == old(selected)
      ensures Valid()
    {
      if hasRef {
        registered := registered + {campo};
      } else {
        registered := registered - {campo};
      }
      var relevant: seq<string> := [];
      var i := 0;
      while i < |domOrder|
        invariant 0 <= i <= |domOrder|
        invariant relevant == InDocumentOrder(domOrder[..i], registered)
      {
        assert domOrder[..i + 1][..i] == domOrder[..i];
        if domOrder[i] in registered {
          relevant := relevant + [domOrder[i]];
        }
        i := i + 1;
      }
      assert domOrder[..i] == domOrder;
      ordered := relevant;
    }

    /** `navegarParaCampoRelevante`: nothing happens without registered
        fields; otherwise the position moves to the wrapped neighbour, but
        only when that field's element is mounted. Every listed field is
        registered, so the mounted element alone decides. */
    method Navigate(forward: bool, mounted: set<string>)
      requires Valid()
      modifies this
      ensures Valid()
      ensures |ordered| > 0 ==>
        var target := Step(old(selected), |ordered|, forward);
        (selected == target <==> ordered[target] in mounted || target == old(selected))
      ensures registered == old(registered) && ordered == old(ordered)
      ensures |ordered| == 0 ==> selected == old(selected)
      ensures |ordered| > 0 ==>
        var target := Step(old(selected), |ordered|, forward);
        selected == if ordered[target] in registered && ordered[target] in mounted then target else old(selected)
      ensures |ordered| > 0 && selected != old(selected) ==> selected < |ordered|
    {
      var total := |ordered|;
      if total == 0 {
        return;
      }
      var next := Step(selected, total, forward);
      var target := ordered[next];
      if target in registered && target in mounted {
        selected := next;
      }
    }
  }
}
