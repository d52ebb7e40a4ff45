/** Form completeness of components/form-progress.tsx: which values count
    as filled, the per-section and overall percentages, and the section
    status. */
module FormProgress {
  import opened Text
  import opened Js

  datatype Section = Section(id: string, sectionLabel: string, fields: seq<string>, requiredFields: seq<string>)

  /** `FORM_SECTIONS`. */
  function FormSections(): (r: seq<Section>)
    ensures |r| == 14
  {
    [
      Section("identificacao", "1. Identificação",
        ["nome", "dataNascimento", "sexo", "endereco", "contato", "diagnostico", "motivoEncaminhamento"],
        ["nome", "diagnostico"]),
      Section("historico", "2. Histórico Médico",
        ["dataInicioSintomas", "historicoCondicaoAtual", "temDoencaPrevia", "medicamentosAtuais", "cirurgiasRealizadas", "historicoFamiliar", "nivelDor", "localizacaoDor", "tratamentosAnteriores"],
        ["historicoCondicaoAtual"]),
      Section("percepcao", "3. Percepção",
        ["dificuldadesRelatadas", "expectativasTratamento", "metasImportantes"],
        ["dificuldadesRelatadas"]),
      Section("atividade", "4. Atividade",
        ["mobilidadeLocomocao", "autocuidado", "comunicacaoInteracao", "vidaDomestica", "educacaoTrabalhoLazer", "principaisBarreiras", "principaisPotencialidades"],
        ["mobilidadeLocomocao", "autocuidado"]),
      Section("ambientais", "5. Fatores Ambientais",
        ["residenciaAdaptada", "dificuldadeTransporte", "barreirasComTec", "faltaApoioFamiliar", "barreirasAtitudinais", "presencaCuidador", "usoTecnologia", "acessoBeneficios", "boaCompreensao"],
        []),
      Section("funcoes", "6. Funções e Estruturas",
        ["sistemasComprometidos", "forcaTonosCoord", "presencaDor", "deformidades", "controlePostural", "funcoesSensoriais", "funcoesCognitivas"],
        ["sistemasComprometidos"]),
      Section("marcha", "6.1. Marcha e Equilíbrio",
        ["padraoDeMarchaGeral", "usaDispositivo", "avaliacaoEquilibrio", "equilibrioEstatico", "equilibrioDinamico", "riscoDeCaidas", "historicoQuedas", "testesEquilibrio"],
        []),
      Section("avds", "6.2. AVDs",
        ["alimentacao", "higienePessoal", "banho", "vestirParteSuperior", "vestirParteInferior", "usoSanitario", "controleBexiga", "controleIntestino", "adaptacoesAVDs"],
        []),
      Section("pessoais", "7. Fatores Pessoais",
        ["idadeGeneroEscolaridade", "ocupacaoPapelSocial", "condicaoSocioeconomica", "habitosEstiloVida", "crencasEspiritualidade", "motivacaoEngajamento", "expectativasPrioridades"],
        []),
      Section("avaliacao", "8. Avaliação",
        ["fisioterapiaImpressoes", "fisioterapiaMetas", "terapiaOcupacionalImpressoes", "terapiaOcupacionalMetas", "fonoaudiologiaImpressoes", "fonoaudiologiaMetas", "psicologiaImpressoes", "psicologiaMetas", "servicoSocialImpressoes", "servicoSocialMetas", "enfermagemMedicinaImpressoes", "enfermagemMedicinaMetas"],
        []),
      Section("objetivos", "9. Objetivos",
        ["curtoPrazo", "medioPrazo", "longoPrazo"],
        ["curtoPrazo"]),
      Section("planejamento", "10. Planejamento",
        ["frequenciaAtendimentos", "metodosEstrategias", "escalasTestesAplicados", "dataReavaliacao", "registroEvolucao"],
        ["frequenciaAtendimentos"]),
      Section("encaminhamentos", "11. Encaminhamentos",
        ["reabilitacaoAuditiva", "reabilitacaoIntelectual", "reabilitacaoVisual", "dispensacaoOPM", "encaminhamentoSaude", "encaminhamentoAssistencia", "encaminhamentoEducacao", "encaminhamentoOutros", "outrosEncaminhamentos"],
        []),
      Section("criterios", "12. Critérios de Alta",
        ["criteriosAlta", "registroAlta"],
        [])
    ]
  }

  function FieldCount(sections: seq<Section>): nat
  {
    if |sections| == 0 then 0 else FieldCount(sections[..|sections| - 1]) + |sections[|sections| - 1].fields|
  }

  function RequiredCount(sections: seq<Section>): nat
  {
    if |sections| == 0 then 0
    else RequiredCount(sections[..|sections| - 1]) + |sections[|sections| - 1].requiredFields|
  }

  lemma {:induction false} FieldCountAppend(a: seq<Section>, b: seq<Section>)
    ensures FieldCount(a + b) == FieldCount(a) + FieldCount(b)
  {
    if |b| > 0 {
      assert (a + b)[..|a + b| - 1] == a + b[..|b| - 1];
      FieldCountAppend(a, b[..|b| - 1]);
    } else {
      assert a + b == a;
    }
  }

  lemma FieldTotalPart0To4()
    ensures FieldCount(FormSections()[..4]) == 26
  {
    var s := FormSections();
    var t := s[..4];
    assert t[..1][..0] == t[..0];
    assert FieldCount(t[..1]) == 7;
    assert t[..2][..1] == t[..1];
    assert FieldCount(t[..2]) == 16;
    assert t[..3][..2] == t[..2];
    assert FieldCount(t[..3]) == 19;
    assert t[..4][..3] == t[..3];
    assert FieldCount(t[..4]) == 26;
    assert t[..4] == t;
  }

  lemma FieldTotalPart4To7()
    ensures FieldCount(FormSections()[4..7]) == 24
  {
    var s := FormSections();
    var t := s[4..7];
    assert t[..1][..0] == t[..0];
    assert FieldCount(t[..1]) == 9;
    assert t[..2][..1] == t[..1];
    assert FieldCount(t[..2]) == 16;
    assert t[..3][..2] == t[..2];
    assert FieldCount(t[..3]) == 24;
    assert t[..3] == t;
  }

  lemma FieldTotalPart7To11()
    ensures FieldCount(FormSections()[7..11]) == 31
  {
    var s := FormSections();
    var t := s[7..11];
    assert t[..1][..0] == t[..0];
    assert FieldCount(t[..1]) == 9;
    assert t[..2][..1] == t[..1];
    assert FieldCount(t[..2]) == 16;
    assert t[..3][..2] == t[..2];
    assert FieldCount(t[..3]) == 28;
    assert t[..4][..3] == t[..3];
    assert FieldCount(t[..4]) == 31;
    assert t[..4] == t;
  }

  lemma FieldTotalPart11To14()
    ensures FieldCount(FormSections()[11..]) == 16
  {
    var s := FormSections();
    var t := s[11..];
    assert t[..1][..0] == t[..0];
    assert FieldCount(t[..1]) == 5;
    assert t[..2][..1] == t[..1];
    assert FieldCount(t[..2]) == 14;
    assert t[..3][..2] == t[..2];
    assert FieldCount(t[..3]) == 16;
    assert t[..3] == t;
  }

  /** `TOTAL_FIELDS`: 97 fields. */
  lemma FieldTotal()
    ensures FieldCount(FormSections()) == 97
  {
    var s := FormSections();
    FieldTotalPart0To4();
    FieldTotalPart4To7();
    FieldTotalPart7To11();
    FieldTotalPart11To14();
    FieldCountOfQuarters(s);
  }

  lemma FieldCountOfQuarters(s: seq<Section>)
    requires |s| == 14
    ensures FieldCount(s) == FieldCount(s[..4]) + FieldCount(s[4..7]) + FieldCount(s[7..11]) + FieldCount(s[11..])
  {
    var p, q, r, z := s[..4], s[4..7], s[7..11], s[11..];
    FieldCountAppend(p, q);
    FieldCountAppend(p + q, r);
    FieldCountAppend(p + q + r, z);
    assert p + q + r + z == s;
  }

  lemma {:induction false} RequiredCountAppend(a: seq<Section>, b: seq<Section>)
    ensures RequiredCount(a + b) == RequiredCount(a) + RequiredCount(b)
  {
    if |b| > 0 {
      assert (a + b)[..|a + b| - 1] == a + b[..|b| - 1];
      RequiredCountAppend(a, b[..|b| - 1]);
    } else {
      assert a + b == a;
    }
  }

  lemma RequiredTotalPart0To4()
    ensures RequiredCount(FormSections()[..4]) == 6
  {
    var s := FormSections();
    var t := s[..4];
    assert t[..1][..0] == t[..0];
    assert RequiredCount(t[..1]) == 2;
    assert t[..2][..1] == t[..1];
    assert RequiredCount(t[..2]) == 3;
    assert t[..3][..2] == t[..2];
    assert RequiredCount(t[..3]) == 4;
    assert t[..4][..3] == t[..3];
    assert RequiredCount(t[..4]) == 6;
    assert t[..4] == t;
  }

  lemma RequiredTotalPart4To7()
    ensures RequiredCount(FormSections()[4..7]) == 1
  {
    var s := FormSections();
    var t := s[4..7];
    assert t[..1][..0] == t[..0];
    assert RequiredCount(t[..1]) == 0;
    assert t[..2][..1] == t[..1];
    assert RequiredCount(t[..2]) == 1;
    assert t[..3][..2] == t[..2];
    assert RequiredCount(t[..3]) == 1;
    assert t[..3] == t;
  }

  lemma RequiredTotalPart7To11()
    ensures RequiredCount(FormSections()[7..11]) == 1
  {
    var s := FormSections();
    var t := s[7..11];
    assert t[..1][..0] == t[..0];
    assert RequiredCount(t[..1]) == 0;
    assert t[..2][..1] == t[..1];
    assert RequiredCount(t[..2]) == 0;
    assert t[..3][..2] == t[..2];
    assert RequiredCount(t[..3]) == 0;
    assert t[..4][..3] == t[..3];
    assert RequiredCount(t[..4]) == 1;
    assert t[..4] == t;
  }

  lemma RequiredTotalPart11To14()
    ensures RequiredCount(FormSections()[11..]) == 1
  {
    var s := FormSections();
    var t := s[11..];
    assert t[..1][..0] == t[..0];
    assert RequiredCount(t[..1]) == 1;
    assert t[..2][..1] == t[..1];
    assert RequiredCount(t[..2]) == 1;
    assert t[..3][..2] == t[..2];
    assert RequiredCount(t[..3]) == 1;
    assert t[..3] == t;
  }

  /** `TOTAL_REQUIRED_FIELDS`: 9 required fields. */
  lemma RequiredTotal()
    ensures RequiredCount(FormSections()) == 9
  {
    var s := FormSections();
    RequiredTotalPart0To4();
    RequiredTotalPart4To7();
    RequiredTotalPart7To11();
    RequiredTotalPart11To14();
    RequiredCountOfQuarters(s);
  }

  lemma RequiredCountOfQuarters(s: seq<Section>)
    requires |s| == 14
    ensures RequiredCount(s) == RequiredCount(s[..4]) + RequiredCount(s[4..7]) + RequiredCount(s[7..11]) + RequiredCount(s[11..])
  {
    var p, q, r, z := s[..4], s[4..7], s[7..11], s[11..];
    RequiredCountAppend(p, q);
    RequiredCountAppend(p + q, r);
    RequiredCountAppend(p + q + r, z);
    assert p + q + r + z == s;
  }

  /** How many entries of `fields` are required. */
  function RequiredIn(fields: seq<string>, required: seq<string>): (n: nat)
    ensures n <= |fields|
  {
    if |fields| == 0 then 0
    else RequiredIn(fields[..|fields| - 1], required) + (if fields[|fields| - 1] in required then 1 else 0)
  }

  function RequiredSlots(sections: seq<Section>): nat
  {
    if |sections| == 0 then 0
    else
      var s := sections[|sections| - 1];
      RequiredSlots(sections[..|sections| - 1]) + RequiredIn(s.fields, s.requiredFields)
  }

  lemma RequiredInIdentification()
    ensures RequiredIn(FormSections()[0].fields, FormSections()[0].requiredFields) == 2
  {
    var f := FormSections()[0].fields;
    var r := FormSections()[0].requiredFields;
    assert f[..1][..0] == f[..0];
    assert RequiredIn(f[..1], r) == 1;
    assert f[..2][..1] == f[..1];
    assert RequiredIn(f[..2], r) == 1;
    assert f[..3][..2] == f[..2];
    assert RequiredIn(f[..3], r) == 1;
    assert f[..4][..3] == f[..3];
    assert RequiredIn(f[..4], r) == 1;
    assert f[..5][..4] == f[..4];
    assert RequiredIn(f[..5], r) == 1;
    assert f[..6][..5] == f[..5];
    assert RequiredIn(f[..6], r) == 2;
    assert f[..7][..6] == f[..6];
    assert RequiredIn(f[..7], r) == 2;
    assert f[..7] == f;
  }

  lemma RequiredInMedicalHistory()
    ensures RequiredIn(FormSections()[1].fields, FormSections()[1].requiredFields) == 1
  {
    var f := FormSections()[1].fields;
    var r := FormSections()[1].requiredFields;
    assert f[..1][..0] == f[..0];
    assert RequiredIn(f[..1], r) == 0;
    assert f[..2][..1] == f[..1];
    assert RequiredIn(f[..2], r) == 1;
    assert f[..3][..2] == f[..2];
    assert RequiredIn(f[..3], r) == 1;
    assert f[..4][..3] == f[..3];
    assert RequiredIn(f[..4], r) == 1;
    assert f[..5][..4] == f[..4];
    assert RequiredIn(f[..5], r) == 1;
    assert f[..6][..5] == f[..5];
    assert RequiredIn(f[..6], r) == 1;
    assert f[..7][..6] == f[..6];
    assert RequiredIn(f[..7], r) == 1;
    assert f[..8][..7] == f[..7];
    assert RequiredIn(f[..8], r) == 1;
    assert f[..9][..8] == f[..8];
    assert RequiredIn(f[..9], r) == 1;
    assert f[..9] == f;
  }

  lemma RequiredInPerception()
    ensures RequiredIn(FormSections()[2].fields, FormSections()[2].requiredFields) == 1
  {
    var f := FormSections()[2].fields;
    var r := FormSections()[2].requiredFields;
    assert f[..1][..0] == f[..0];
    assert RequiredIn(f[..1], r) == 1;
    assert f[..2][..1] == f[..1];
    assert RequiredIn(f[..2], r) == 1;
    assert f[..3][..2] == f[..2];
    assert RequiredIn(f[..3], r) == 1;
    assert f[..3] == f;
  }

  lemma RequiredInActivity()
    ensures RequiredIn(FormSections()[3].fields, FormSections()[3].requiredFields) == 2
  {
    var f := FormSections()[3].fields;
    var r := FormSections()[3].requiredFields;
    assert f[..1][..0] == f[..0];
    assert RequiredIn(f[..1], r) == 1;
    assert f[..2][..1] == f[..1];
    assert RequiredIn(f[..2], r) == 2;
    assert f[..3][..2] == f[..2];
    assert RequiredIn(f[..3], r) == 2;
    assert f[..4][..3] == f[..3];
    assert RequiredIn(f[..4], r) == 2;
    assert f[..5][..4] == f[..4];
    assert RequiredIn(f[..5], r) == 2;
    assert f[..6][..5] == f[..5];
    assert RequiredIn(f[..6], r) == 2;
    assert f[..7][..6] == f[..6];
    assert RequiredIn(f[..7], r) == 2;
    assert f[..7] == f;
  }

  lemma RequiredInFunctions()
    ensures RequiredIn(FormSections()[5].fields, FormSections()[5].requiredFields) == 1
  {
    var f := FormSections()[5].fields;
    var r := FormSections()[5].requiredFields;
    assert f[..1][..0] == f[..0];
    assert RequiredIn(f[..1], r) == 1;
    assert f[..2][..1] == f[..1];
    assert RequiredIn(f[..2], r) == 1;
    assert f[..3][..2] == f[..2];
    assert RequiredIn(f[..3], r) == 1;
    assert f[..4][..3] == f[..3];
    assert RequiredIn(f[..4], r) == 1;
    assert f[..5][..4] == f[..4];
    assert RequiredIn(f[..5], r) == 1;
    assert f[..6][..5] == f[..5];
    assert RequiredIn(f[..6], r) == 1;
    assert f[..7][..6] == f[..6];
    assert RequiredIn(f[..7], r) == 1;
    assert f[..7] == f;
  }

  lemma RequiredInGoals()
    ensures RequiredIn(FormSections()[10].fields, FormSections()[10].requiredFields) == 1
  {
    var f := FormSections()[10].fields;
    var r := FormSections()[10].requiredFields;
    assert f[..1][..0] == f[..0];
    assert RequiredIn(f[..1], r) == 1;
    assert f[..2][..1] == f[..1];
    assert RequiredIn(f[..2], r) == 1;
    assert f[..3][..2] == f[..2];
    assert RequiredIn(f[..3], r) == 1;
    assert f[..3] == f;
  }

  lemma RequiredInPlanning()
    ensures RequiredIn(FormSections()[11].fields, FormSections()[11].requiredFields) == 1
  {
    var f := FormSections()[11].fields;
    var r := FormSections()[11].requiredFields;
    assert f[..1][..0] == f[..0];
    assert RequiredIn(f[..1], r) == 1;
    assert f[..2][..1] == f[..1];
    assert RequiredIn(f[..2], r) == 1;
    assert f[..3][..2] == f[..2];
    assert RequiredIn(f[..3], r) == 1;
    assert f[..4][..3] == f[..3];
    assert RequiredIn(f[..4], r) == 1;
    assert f[..5][..4] == f[..4];
    assert RequiredIn(f[..5], r) == 1;
    assert f[..5] == f;
  }

  /** A section without required fields has no required entries. */
  lemma {:induction false} RequiredInNone(fields: seq<string>)
    ensures RequiredIn(fields, []) == 0
  {
    if |fields| > 0 {
      RequiredInNone(fields[..|fields| - 1]);
    }
  }

  lemma {:induction false} RequiredSlotsAppend(a: seq<Section>, b: seq<Section>)
    ensures RequiredSlots(a + b) == RequiredSlots(a) + RequiredSlots(b)
  {
    if |b| > 0 {
      assert (a + b)[..|a + b| - 1] == a + b[..|b| - 1];
      RequiredSlotsAppend(a, b[..|b| - 1]);
    } else {
      assert a + b == a;
    }
  }

  /** `RequiredSlots` of three or four sections, unrolled. */
  lemma RequiredSlotsThree(t: seq<Section>)
    requires |t| == 3
    ensures RequiredSlots(t) == RequiredIn(t[0].fields, t[0].requiredFields)
      + RequiredIn(t[1].fields, t[1].requiredFields) + RequiredIn(t[2].fields, t[2].requiredFields)
  {
    var a, b := t[..1], t[..2];
    assert a[..0] == [] && a[0] == t[0];
    assert RequiredSlots(a) == RequiredIn(t[0].fields, t[0].requiredFields);
    assert b[..1] == a && b[1] == t[1];
    assert RequiredSlots(b) == RequiredSlots(a) + RequiredIn(t[1].fields, t[1].requiredFields);
    assert t[..2] == b;
  }

  lemma RequiredSlotsFour(t: seq<Section>)
    requires |t| == 4
    ensures RequiredSlots(t) == RequiredIn(t[0].fields, t[0].requiredFields)
      + RequiredIn(t[1].fields, t[1].requiredFields) + RequiredIn(t[2].fields, t[2].requiredFields)
      + RequiredIn(t[3].fields, t[3].requiredFields)
  {
    var init := t[..3];
    RequiredSlotsThree(init);
    assert init[0] == t[0] && init[1] == t[1] && init[2] == t[2];
    assert RequiredSlots(t) == RequiredSlots(init) + RequiredIn(t[3].fields, t[3].requiredFields);
  }

  lemma RequiredSlotsTotalPart0To4()
    ensures RequiredSlots(FormSections()[..4]) == 6
  {
    var s := FormSections();
    RequiredInIdentification();
    RequiredInMedicalHistory();
    RequiredInPerception();
    RequiredInActivity();
    var t := s[..4];
    RequiredSlotsFour(t);
  }

  lemma RequiredSlotsTotalPart4To7()
    ensures RequiredSlots(FormSections()[4..7]) == 1
  {
    var s := FormSections();
    RequiredInNone(s[4].fields);
    RequiredInFunctions();
    RequiredInNone(s[6].fields);
    var t := s[4..7];
    RequiredSlotsThree(t);
  }

  lemma RequiredSlotsTotalPart7To11()
    ensures RequiredSlots(FormSections()[7..11]) == 1
  {
    var s := FormSections();
    RequiredInNone(s[7].fields);
    RequiredInNone(s[8].fields);
    RequiredInNone(s[9].fields);
    RequiredInGoals();
    var t := s[7..11];
    RequiredSlotsFour(t);
  }

  lemma RequiredSlotsTotalPart11To14()
    ensures RequiredSlots(FormSections()[11..]) == 1
  {
    var s := FormSections();
    RequiredInPlanning();
    RequiredInNone(s[12].fields);
    RequiredInNone(s[13].fields);
    var t := s[11..];
    RequiredSlotsThree(t);
  }

  /** Exactly 9 field entries are required: each required field occurs
      once in its own section's list. */
  lemma RequiredSlotsTotal()
    ensures RequiredSlots(FormSections()) == 9
  {
    var s := FormSections();
    RequiredSlotsTotalPart0To4();
    RequiredSlotsTotalPart4To7();
    RequiredSlotsTotalPart7To11();
    RequiredSlotsTotalPart11To14();
    RequiredSlotsOfQuarters(s);
  }

  lemma RequiredSlotsOfQuarters(s: seq<Section>)
    requires |s| == 14
    ensures RequiredSlots(s) == RequiredSlots(s[..4]) + RequiredSlots(s[4..7]) + RequiredSlots(s[7..11]) + RequiredSlots(s[11..])
  {
    var p, q, r, z := s[..4], s[4..7], s[7..11], s[11..];
    RequiredSlotsAppend(p, q);
    RequiredSlotsAppend(p + q, r);
    RequiredSlotsAppend(p + q + r, z);
    assert p + q + r + z == s;
  }

  /** `isFieldFilled`: missing values and null are empty, strings count
      when not blank, booleans by value, numbers always, arrays and
      objects when not empty. */
  predicate IsFieldFilled(v: JsValue)
    ensures IsFieldFilled(v) ==> v != Undefined && v != Null && v != Str("") && v != Bool(false)
    ensures IsFieldFilled(v) ==> v != Arr([]) && v != Obj(map[])
    ensures v.Num? ==> IsFieldFilled(v)
  {
    match v
    case Undefined => false
    case Null => false
    case Str(s) => !IsBlank(s)
    case Bool(b) => b
    case Num(_) => true
    case Arr(items) => |items| > 0
    case Obj(fields) => |fields| > 0
  }

  /** Filled and truthy differ exactly on 0 (filled, falsy), on blank
      non-empty strings (truthy, not filled) and on empty arrays and
      objects (truthy, not filled). */
  lemma FilledVersusTruthy(v: JsValue)
    ensures IsFieldFilled(v) && !Truthy(v) <==> v == Num(0)
    ensures Truthy(v) && !IsFieldFilled(v) <==>
      (v.Str? && v.s != "" && IsBlank(v.s)) || v == Arr([]) || (v.Obj? && |v.fields| == 0)
  {
    if v.Obj? && |v.fields| == 0 {
      assert v == Obj(map[]);
    }
  }

  /** The filled entries of `fields`. */
  function Filled(values: Record, fields: seq<string>): (n: nat)
    ensures n <= |fields|
  {
    if |fields| == 0 then 0
    else Filled(values, fields[..|fields| - 1]) + (if IsFieldFilled(Get(values, fields[|fields| - 1])) then 1 else 0)
  }

  /** The filled entries of `fields` that are required. */
  function FilledRequired(values: Record, fields: seq<string>, required: seq<string>): (n: nat)
    ensures n <= Filled(values, fields)
    ensures n <= RequiredIn(fields, required)
  {
    if |fields| == 0 then 0
    else
      var f := fields[|fields| - 1];
      FilledRequired(values, fields[..|fields| - 1], required)
        + (if IsFieldFilled(Get(values, f)) && f in required then 1 else 0)
  }

  function TotalFilled(values: Record, sections: seq<Section>): (n: nat)
    ensures n <= FieldCount(sections)
  {
    if |sections| == 0 then 0
    else TotalFilled(values, sections[..|sections| - 1]) + Filled(values, sections[|sections| - 1].fields)
  }

  function TotalFilledRequired(values: Record, sections: seq<Section>): (n: nat)
    ensures n <= TotalFilled(values, sections)
    ensures n <= RequiredSlots(sections)
  {
    if |sections| == 0 then 0
    else
      var s := sections[|sections| - 1];
      TotalFilledRequired(values, sections[..|sections| - 1]) + FilledRequired(values, s.fields, s.requiredFields)
  }

  /** A section's percentage: filled / count rounded, 0 with no fields. */
  function SectionPercent(filled: nat, count: nat): (p: nat)
    requires filled <= count
    ensures p <= 100
    ensures count > 0 && filled == count ==> p == 100
    ensures filled == 0 ==> p == 0
  {
    if count > 0 then
      RoundRatioBounds(100 * filled, count, 100);
      RoundRatioWhole(100, count);
      RoundRatioWhole(0, count);
      RoundRatio(100 * filled, count)
    else 0
  }

  /** `newSectionProgress`: one percentage per section id. */
  function SectionProgress(values: Record, sections: seq<Section>): (m: map<string, nat>)
    ensures forall id :: id in m <==> exists i :: 0 <= i < |sections| && sections[i].id == id
    ensures forall id :: id in m ==> m[id] <= 100
  {
    if |sections| == 0 then map[]
    else
      var s := sections[|sections| - 1];
      var prev := SectionProgress(values, sections[..|sections| - 1]);
      assert forall i :: 0 <= i < |sections| - 1 ==> sections[..|sections| - 1][i] == sections[i];
      prev[s.id := SectionPercent(Filled(values, s.fields), |s.fields|)]
  }

  /** The overall percentage: 70% for the required fields and 30% for all
      fields, rounded; all fields only when nothing is required. */
  function WeightedProgress(requiredFilled: nat, filled: nat, totalRequired: nat, totalFields: nat): nat
  {
    if totalRequired > 0 then
      if totalFields > 0 then
        RoundRatio(70 * requiredFilled * totalFields + 30 * filled * totalRequired, totalRequired * totalFields)
      else RoundRatio(70 * requiredFilled, totalRequired)
    else if totalFields > 0 then RoundRatio(100 * filled, totalFields)
    else 0
  }

  datatype ProgressResult = ProgressResult(
    progress: nat,
    sectionProgress: map<string, nat>,
    filledFields: nat,
    filledRequiredFields: nat)

  /** What `calculateProgress` returns for the form values. */
  function Progress(values: Record, sections: seq<Section>): ProgressResult
  {
    var filled := TotalFilled(values, sections);
    var requiredFilled := TotalFilledRequired(values, sections);
    ProgressResult(
      WeightedProgress(requiredFilled, filled, RequiredCount(sections), FieldCount(sections)),
      SectionProgress(values, sections), filled, requiredFilled)
  }

  /** The inner loop of `calculateProgress`: one section's filled
      fields and filled required fields. */
  method CountSection(values: Record, section: Section) returns (sectionFilled: nat, sectionRequiredFilled: nat)
    ensures sectionFilled == Filled(values, section.fields)
    ensures sectionRequiredFilled == FilledRequired(values, section.fields, section.requiredFields)
  {
    sectionFilled := 0;
    sectionRequiredFilled := 0;
    var k := 0;
    while k < |section.fields|
      invariant 0 <= k <= |section.fields|
      invariant sectionFilled == Filled(values, section.fields[..k])
      invariant sectionRequiredFilled == FilledRequired(values, section.fields[..k], section.requiredFields)
    {
      var field := section.fields[k];
      assert section.fields[..k + 1][..k] == section.fields[..k];
      if IsFieldFilled(Get(values, field)) {
        sectionFilled := sectionFilled + 1;
        if field in section.requiredFields {
          sectionRequiredFilled := sectionRequiredFilled + 1;
        }
      }
      k := k + 1;
    }
    assert section.fields[..k] == section.fields;
  }

  /** `calculateProgress`: the counters are incremented field by field,
      section by section. */
  method CalculateProgress(values: Record, sections: seq<Section>) returns (result: ProgressResult)
    ensures result == Progress(values, sections)
  {
    var totalFilled := 0;
    var totalRequiredFilled := 0;
    var newSectionProgress: map<string, nat> := map[];
    var i := 0;
    while i < |sections|
      invariant 0 <= i <= |sections|
      invariant totalFilled == TotalFilled(values, sections[..i])
      invariant totalRequiredFilled == TotalFilledRequired(values, sections[..i])
      invariant newSectionProgress == SectionProgress(values, sections[..i])
    {
      var section := sections[i];
      assert sections[..i + 1][..i] == sections[..i];
      var sectionFilled, sectionRequiredFilled := CountSection(values, section);
      totalFilled := totalFilled + sectionFilled;
      totalRequiredFilled := totalRequiredFilled + sectionRequiredFilled;
      newSectionProgress := newSectionProgress[section.id := SectionPercent(sectionFilled, |section.fields|)];
      i := i + 1;
    }
    assert sections[..i] == sections;
    var totalRequired := RequiredCount(sections);
    var totalFields := FieldCount(sections);
    var weightedProgress := WeightedProgress(totalRequiredFilled, totalFilled, totalRequired, totalFields);
    result := ProgressResult(weightedProgress, newSectionProgress, totalFilled, totalRequiredFilled);
  }

  /** With this form's totals the overall percentage is
      round((6790 * required + 270 * filled) / 873). */
  lemma WeightedProgressOfForm(requiredFilled: nat, filled: nat)
    ensures WeightedProgress(requiredFilled, filled, 9, 97) == RoundRatio(6790 * requiredFilled + 270 * filled, 873)
  {
  }

  /** The overall percentage of this form stays within [0, 100] and never
      drops when a field is filled. */
  lemma WeightedProgressBoundsAndMonotone(r1: nat, f1: nat, r2: nat, f2: nat)
    requires r1 <= r2 <= 9 && f1 <= f2 <= 97
    ensures WeightedProgress(r1, f1, 9, 97) <= WeightedProgress(r2, f2, 9, 97) <= 100
  {
    RoundRatioMono(6790 * r1 + 270 * f1, 6790 * r2 + 270 * f2, 873);
    RoundRatioBounds(6790 * r2 + 270 * f2, 873, 100);
  }

  /** Everything filled shows 100, and so do all required fields with 96
      of the 97 fields. */
  lemma WeightedProgressFull()
    ensures WeightedProgress(9, 97, 9, 97) == 100
    ensures WeightedProgress(9, 96, 9, 97) == 100
  {
    RoundRatioWhole(100, 873);
  }

  /** For the real form the result is in [0, 100]. */
  lemma ProgressOfFormBounded(values: Record)
    ensures Progress(values, FormSections()).progress <= 100
    ensures Progress(values, FormSections()).filledRequiredFields <= 9
    ensures Progress(values, FormSections()).filledFields <= 97
  {
    FieldTotal();
    RequiredTotal();
    RequiredSlotsTotal();
    var r := TotalFilledRequired(values, FormSections());
    var f := TotalFilled(values, FormSections());
    WeightedProgressBoundsAndMonotone(r, f, 9, 97);
  }

  /** Every field `before` counts as filled is filled in `after` too. */
  ghost predicate FillsAtLeast(before: Record, after: Record)
  {
    forall field :: IsFieldFilled(Get(before, field)) ==> IsFieldFilled(Get(after, field))
  }

  lemma {:induction false} FilledMonotone(before: Record, after: Record, fields: seq<string>, required: seq<string>)
    requires FillsAtLeast(before, after)
    ensures Filled(before, fields) <= Filled(after, fields)
    ensures FilledRequired(before, fields, required) <= FilledRequired(after, fields, required)
  {
    if |fields| > 0 {
      FilledMonotone(before, after, fields[..|fields| - 1], required);
    }
  }

  lemma {:induction false} TotalsMonotone(before: Record, after: Record, sections: seq<Section>)
    requires FillsAtLeast(before, after)
    ensures TotalFilled(before, sections) <= TotalFilled(after, sections)
    ensures TotalFilledRequired(before, sections) <= TotalFilledRequired(after, sections)
  {
    if |sections| > 0 {
      var s := sections[|sections| - 1];
      TotalsMonotone(before, after, sections[..|sections| - 1]);
      FilledMonotone(before, after, s.fields, s.requiredFields);
    }
  }

  /** Filling more fields never lowers the overall percentage. */
  lemma ProgressMonotone(before: Record, after: Record)
    requires FillsAtLeast(before, after)
    ensures Progress(before, FormSections()).progress <= Progress(after, FormSections()).progress
  {
    FieldTotal();
    RequiredTotal();
    RequiredSlotsTotal();
    TotalsMonotone(before, after, FormSections());
    WeightedProgressBoundsAndMonotone(
      TotalFilledRequired(before, FormSections()), TotalFilled(before, FormSections()),
      TotalFilledRequired(after, FormSections()), TotalFilled(after, FormSections()));
  }

  /** Every field of the form holds a filled value. */
  ghost predicate AllFilled(values: Record, sections: seq<Section>)
  {
    forall i, k :: 0 <= i < |sections| && 0 <= k < |sections[i].fields| ==>
      IsFieldFilled(Get(values, sections[i].fields[k]))
  }

  lemma {:induction false} FilledAll(values: Record, fields: seq<string>, required: seq<string>)
    requires forall k :: 0 <= k < |fields| ==> IsFieldFilled(Get(values, fields[k]))
    ensures Filled(values, fields) == |fields|
    ensures FilledRequired(values, fields, required) == RequiredIn(fields, required)
  {
    if |fields| > 0 {
      FilledAll(values, fields[..|fields| - 1], required);
    }
  }

  lemma {:induction false} TotalsAll(values: Record, sections: seq<Section>)
    requires AllFilled(values, sections)
    ensures TotalFilled(values, sections) == FieldCount(sections)
    ensures TotalFilledRequired(values, sections) == RequiredSlots(sections)
  {
    if |sections| > 0 {
      var n := |sections| - 1;
      assert forall i :: 0 <= i < n ==> sections[..n][i] == sections[i];
      TotalsAll(values, sections[..n]);
      FilledAll(values, sections[n].fields, sections[n].requiredFields);
    }
  }

  /** A completely filled form shows 100%, and so does each section. */
  lemma ProgressOfFullForm(values: Record)
    requires AllFilled(values, FormSections())
    ensures Progress(values, FormSections()).progress == 100
    ensures Progress(values, FormSections()).filledFields == 97
    ensures Progress(values, FormSections()).filledRequiredFields == 9
  {
    FieldTotal();
    RequiredTotal();
    RequiredSlotsTotal();
    TotalsAll(values, FormSections());
    WeightedProgressFull();
  }

  datatype Status = Complete | Partial | Empty

  /** `getSectionStatus`: an unknown id and a missing or zero percentage
      are empty, 100 is complete, anything else positive is partial. */
  function SectionStatus(sectionId: string, sections: seq<Section>, sectionProgress: map<string, nat>): (st: Status)
    ensures (forall i :: 0 <= i < |sections| ==> sections[i].id != sectionId) ==> st == Empty
    ensures st == Complete <==>
      (exists i :: 0 <= i < |sections| && sections[i].id == sectionId)
      && sectionId in sectionProgress && sectionProgress[sectionId] == 100
    ensures st == Partial <==>
      (exists i :: 0 <= i < |sections| && sections[i].id == sectionId)
      && sectionId in sectionProgress && 0 < sectionProgress[sectionId] != 100
  {
    if !(exists i :: 0 <= i < |sections| && sections[i].id == sectionId) then Empty
    else
      var value := if sectionId in sectionProgress then sectionProgress[sectionId] else 0;
      if value == 100 then Complete
      else if value > 0 then Partial
      else Empty
  }
}
