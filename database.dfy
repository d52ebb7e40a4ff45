/** The rules of services/database-service.ts over abstract tables: the
    error classifier every operation falls back on, the checks made before
    a table is touched, the upserts of evaluation sections and MIF scores
    keyed by (evaluation, name), and the deletions that refuse or cascade.
    Reads of the tables are answered from the state; each write may fail
    with an error given as a parameter. */
module Database {
  import opened Text
  import opened Js

  /** A thrown JavaScript error as `handleError` inspects it. */
  datatype DbError = DbError(name: string, message: string, code: Option<string>)

  /** `new Error(message)`. */
  function Thrown(message: string): DbError
  {
    DbError("Error", message, None)
  }

  predicate IsNetworkError(e: DbError)
  {
    Contains(e.message, "Failed to fetch") || e.name == "TypeError"
  }

  predicate CodeIs(e: DbError, c: string)
  {
    e.code == Some(c)
  }

  /** `error?.code?.startsWith(p)`. */
  predicate CodeStarts(e: DbError, p: string)
  {
    e.code.Some? && StartsWith(e.code.value, p)
  }

  datatype ErrorKind =
    | Connectivity | NotFound | Duplicate | InUse | Validation
    | MissingTable | SqlSyntax | BadCredentials | Forbidden | Unclassified

  /** The `if … else if` chain of `handleError`: the first test that holds
      decides, so a network failure wins over any code and a specific code
      over its family. */
  function Classify(e: DbError): (k: ErrorKind)
    ensures k == Connectivity <==> IsNetworkError(e)
    ensures e.code.None? && !IsNetworkError(e) ==> k == Unclassified
    ensures k != Connectivity && k != Unclassified ==> e.code.Some?
  {
    if IsNetworkError(e) then Connectivity
    else if CodeIs(e, "PGRST116") then NotFound
    else if CodeIs(e, "23505") then Duplicate
    else if CodeIs(e, "23503") then InUse
    else if CodeStarts(e, "23") then Validation
    else if CodeIs(e, "42P01") then MissingTable
    else if CodeStarts(e, "42") then SqlSyntax
    else if CodeIs(e, "28P01") then BadCredentials
    else if CodeIs(e, "PGRST301") then Forbidden
    else Unclassified
  }

  /** Each kind is reached exactly when its test holds and every earlier
      test fails. */
  lemma ClassifyOrder(e: DbError)
    ensures Classify(e) == Connectivity <==> IsNetworkError(e)
    ensures Classify(e) == NotFound <==> !IsNetworkError(e) && CodeIs(e, "PGRST116")
    ensures Classify(e) == Duplicate <==> !IsNetworkError(e) && CodeIs(e, "23505")
    ensures Classify(e) == InUse <==> !IsNetworkError(e) && CodeIs(e, "23503")
    ensures Classify(e) == Validation <==>
      !IsNetworkError(e) && CodeStarts(e, "23") && !CodeIs(e, "23505") && !CodeIs(e, "23503")
    ensures Classify(e) == MissingTable <==> !IsNetworkError(e) && CodeIs(e, "42P01")
    ensures Classify(e) == SqlSyntax <==> !IsNetworkError(e) && CodeStarts(e, "42") && !CodeIs(e, "42P01")
    ensures Classify(e) == BadCredentials <==> !IsNetworkError(e) && CodeIs(e, "28P01")
    ensures Classify(e) == Forbidden <==> !IsNetworkError(e) && CodeIs(e, "PGRST301")
    ensures Classify(e) == Unclassified <==>
      !IsNetworkError(e) && !CodeIs(e, "PGRST116") && !CodeStarts(e, "23") && !CodeStarts(e, "42")
      && !CodeIs(e, "28P01") && !CodeIs(e, "PGRST301")
  {
    CodeFamilies();
  }

  /** Which of the codes `handleError` names fall in the "23" and "42"
      families. */
  lemma CodeFamilies()
    ensures StartsWith("23505", "23") && StartsWith("23503", "23")
    ensures StartsWith("42P01", "42") && !StartsWith("42P01", "23")
    ensures !StartsWith("PGRST116", "23") && !StartsWith("PGRST116", "42")
    ensures !StartsWith("28P01", "23") && !StartsWith("28P01", "42")
    ensures !StartsWith("PGRST301", "23") && !StartsWith("PGRST301", "42")
  {
    assert "23505"[..2] == "23" && "23503"[..2] == "23" && "42P01"[..2] == "42";
    assert "42P01"[..2][0] == '4' && "PGRST116"[..2][0] == 'P' && "28P01"[..2][1] == '8'
      && "PGRST301"[..2][0] == 'P';
  }

  const UnknownError := "Ocorreu um erro desconhecido"

  /** The fixed text shown for each recognised kind of error. */
  function KindMessage(k: ErrorKind): (m: string)
    requires k != Unclassified
    ensures m != "" && m != UnknownError
  {
    match k
    case Connectivity => "Erro de conectividade. Verifique sua conexão com a internet e as configurações do Supabase."
    case NotFound => "Registro não encontrado"
    case Duplicate => "Já existe um registro com estes dados"
    case InUse => "Este registro não pode ser excluído pois está sendo usado em outro lugar"
    case Validation => "Erro de validação no banco de dados"
    case MissingTable => "Tabela não encontrada. Verifique se o banco de dados foi configurado corretamente"
    case SqlSyntax => "Erro de sintaxe SQL"
    case BadCredentials => "Credenciais inválidas para o banco de dados"
    case Forbidden => "Erro de permissão. Você não tem acesso a este recurso"
  }

  /** The message `handleError` shows: the fixed text of a recognised
      kind, otherwise the error's own message, or a default when that is
      empty. */
  function ErrorMessage(e: DbError): (m: string)
    ensures Classify(e) == Unclassified && e.message != "" ==> m == e.message
    ensures Classify(e) == Unclassified && e.message == "" ==> m == UnknownError
  {
    var k := Classify(e);
    if k == Unclassified then (if e.message != "" then e.message else UnknownError)
    else KindMessage(k)
  }

  /** A plain `Error` whose message does not look like a network failure
      is shown with its own message. */
  lemma ThrownShowsItsMessage(m: string)
    requires m != "" && !Contains(m, "Failed to fetch")
    ensures Classify(Thrown(m)) == Unclassified
    ensures ErrorMessage(Thrown(m)) == m
  {
    assert !IsNetworkError(Thrown(m));
    assert Classify(Thrown(m)) == Unclassified;
  }

  /** A network failure is reported as such whatever its code. */
  lemma NetworkFailureWins(message: string, code: Option<string>)
    ensures Classify(DbError("TypeError", message, code)) == Connectivity
    ensures Classify(DbError("Error", "Failed to fetch", code)) == Connectivity
  {
    ContainsSelf("Failed to fetch");
  }

  /** No "F" in the text is followed by "a". */
  predicate NoFa(s: string)
  {
    forall i :: 0 <= i < |s| - 1 ==> !(s[i] == 'F' && s[i + 1] == 'a')
  }

  /** Such a text does not contain "Failed to fetch". */
  lemma NoFetchFailure(s: string)
    requires NoFa(s)
    ensures !Contains(s, "Failed to fetch")
  {
    forall i | 0 <= i <= |s| - 15
      ensures !OccursAt(s, "Failed to fetch", i)
    {
      assert !(s[i] == 'F' && s[i + 1] == 'a');
      assert s[i..i + 15][0] == s[i] && s[i..i + 15][1] == s[i + 1];
    }
  }

  lemma NoFaAppend(a: string, b: string)
    requires NoFa(a) && NoFa(b)
    requires |a| > 0 && |b| > 0 ==> !(a[|a| - 1] == 'F' && b[0] == 'a')
    ensures NoFa(a + b)
  {
    forall i | 0 <= i < |a + b| - 1
      ensures !((a + b)[i] == 'F' && (a + b)[i + 1] == 'a')
    {
      if i >= |a| {
        assert (a + b)[i] == b[i - |a|];
      }
    }
  }

  /** The checks the operations make before touching a table, each thrown
      as a plain `Error`. */
  datatype Guard =
    | MissingPatientId | PatientNameRequired | NothingToUpdate | PatientHasEvaluations
    | PatientIdRequired | SpecialtyRequired | PatientNotFound | MissingEvaluationId
    | MissingSectionName | MissingSectionData | EvaluationNotFound | MissingCategory
    | ScoreOutOfRange

  function GuardMessage(g: Guard): (m: string)
    ensures m != ""
  {
    match g
    case MissingPatientId => "ID do paciente não fornecido"
    case PatientNameRequired => "Nome do paciente é obrigatório"
    case NothingToUpdate => "Nenhum dado fornecido para atualização"
    case PatientHasEvaluations => "Este paciente possui avaliações " + "e não pode ser excluído"
    case PatientIdRequired => "ID do paciente é obrigatório"
    case SpecialtyRequired => "Especialidade é obrigatória"
    case PatientNotFound => "Paciente não encontrado"
    case MissingEvaluationId => "ID da avaliação não fornecido"
    case MissingSectionName => "Nome da seção não fornecido"
    case MissingSectionData => "Dados da seção não fornecidos"
    case EvaluationNotFound => "Avaliação não encontrada"
    case MissingCategory => "Categoria MIF não fornecida"
    case ScoreOutOfRange => "Pontuação MIF deve estar entre 1 e 7"
  }

  /** A failed check is shown with its own message: a plain `Error` has no
      code and none of the messages looks like a network failure. */
  lemma GuardShowsItsMessage(g: Guard)
    ensures !Contains(GuardMessage(g), "Failed to fetch")
    ensures Classify(Thrown(GuardMessage(g))) == Unclassified
    ensures ErrorMessage(Thrown(GuardMessage(g))) == GuardMessage(g)
  {
    GuardLooksClean(g);
    ThrownShowsItsMessage(GuardMessage(g));
  }

  /** No check's message looks like a network failure. */
  lemma GuardLooksClean(g: Guard)
    ensures !Contains(GuardMessage(g), "Failed to fetch")
  {
    match g
    case MissingPatientId => MissingPatientIdLooksClean();
    case PatientNameRequired => PatientNameRequiredLooksClean();
    case NothingToUpdate => NothingToUpdateLooksClean();
    case PatientIdRequired => PatientIdRequiredLooksClean();
    case SpecialtyRequired => SpecialtyRequiredLooksClean();
    case PatientNotFound => PatientNotFoundLooksClean();
    case MissingEvaluationId => MissingEvaluationIdLooksClean();
    case MissingSectionName => MissingSectionNameLooksClean();
    case MissingSectionData => MissingSectionDataLooksClean();
    case EvaluationNotFound => EvaluationNotFoundLooksClean();
    case MissingCategory => MissingCategoryLooksClean();
    case ScoreOutOfRange => ScoreOutOfRangeLooksClean();
    case PatientHasEvaluations => PatientHasEvaluationsLooksClean();
  }

  /** No check's message contains "Failed to fetch", one message at a
      time. */
  lemma MissingPatientIdLooksClean()
    ensures !Contains(GuardMessage(MissingPatientId), "Failed to fetch")
  {
    assert NoFa(GuardMessage(MissingPatientId)) by {}
    NoFetchFailure(GuardMessage(MissingPatientId));
  }

  lemma PatientNameRequiredLooksClean()
    ensures !Contains(GuardMessage(PatientNameRequired), "Failed to fetch")
  {
    assert NoFa(GuardMessage(PatientNameRequired)) by {}
    NoFetchFailure(GuardMessage(PatientNameRequired));
  }

  lemma NothingToUpdateLooksClean()
    ensures !Contains(GuardMessage(NothingToUpdate), "Failed to fetch")
  {
    assert NoFa(GuardMessage(NothingToUpdate)) by {}
    NoFetchFailure(GuardMessage(NothingToUpdate));
  }

  lemma PatientIdRequiredLooksClean()
    ensures !Contains(GuardMessage(PatientIdRequired), "Failed to fetch")
  {
    assert NoFa(GuardMessage(PatientIdRequired)) by {}
    NoFetchFailure(GuardMessage(PatientIdRequired));
  }

  lemma SpecialtyRequiredLooksClean()
    ensures !Contains(GuardMessage(SpecialtyRequired), "Failed to fetch")
  {
    assert NoFa(GuardMessage(SpecialtyRequired)) by {}
    NoFetchFailure(GuardMessage(SpecialtyRequired));
  }

  lemma PatientNotFoundLooksClean()
    ensures !Contains(GuardMessage(PatientNotFound), "Failed to fetch")
  {
    assert NoFa(GuardMessage(PatientNotFound)) by {}
    NoFetchFailure(GuardMessage(PatientNotFound));
  }

  lemma MissingEvaluationIdLooksClean()
    ensures !Contains(GuardMessage(MissingEvaluationId), "Failed to fetch")
  {
    assert NoFa(GuardMessage(MissingEvaluationId)) by {}
    NoFetchFailure(GuardMessage(MissingEvaluationId));
  }

  lemma MissingSectionNameLooksClean()
    ensures !Contains(GuardMessage(MissingSectionName), "Failed to fetch")
  {
    assert NoFa(GuardMessage(MissingSectionName)) by {}
    NoFetchFailure(GuardMessage(MissingSectionName));
  }

  lemma MissingSectionDataLooksClean()
    ensures !Contains(GuardMessage(MissingSectionData), "Failed to fetch")
  {
    assert NoFa(GuardMessage(MissingSectionData)) by {}
    NoFetchFailure(GuardMessage(MissingSectionData));
  }

  lemma EvaluationNotFoundLooksClean()
    ensures !Contains(GuardMessage(EvaluationNotFound), "Failed to fetch")
  {
    assert NoFa(GuardMessage(EvaluationNotFound)) by {}
    NoFetchFailure(GuardMessage(EvaluationNotFound));
  }

  lemma MissingCategoryLooksClean()
    ensures !Contains(GuardMessage(MissingCategory), "Failed to fetch")
  {
    assert NoFa(GuardMessage(MissingCategory)) by {}
    NoFetchFailure(GuardMessage(MissingCategory));
  }

  lemma ScoreOutOfRangeLooksClean()
    ensures !Contains(GuardMessage(ScoreOutOfRange), "Failed to fetch")
  {
    assert NoFa(GuardMessage(ScoreOutOfRange)) by {}
    NoFetchFailure(GuardMessage(ScoreOutOfRange));
  }

  /** The longest message is checked in two pieces. */
  lemma PatientHasEvaluationsLooksClean()
    ensures !Contains(GuardMessage(PatientHasEvaluations), "Failed to fetch")
  {
    assert NoFa("Este paciente possui avaliações ") by {}
    assert NoFa("e não pode ser excluído") by {}
    NoFaAppend("Este paciente possui avaliações ", "e não pode ser excluído");
    NoFetchFailure(GuardMessage(PatientHasEvaluations));
  }

  /** A row of `secoes_avaliacao` (payload `dados`) or of `mif_avaliacoes`
      (payload score and note), identified by its evaluation and its
      section or category name. */
  datatype Row<P> = Row(id: string, avaliacaoId: string, key: string, payload: P)

  datatype MifScore = MifScore(pontuacao: int, observacoes: JsValue)

  predicate Matches<P>(row: Row<P>, a: string, k: string)
  {
    row.avaliacaoId == a && row.key == k
  }

  predicate SameKey<P>(x: Row<P>, y: Row<P>)
  {
    x.avaliacaoId == y.avaliacaoId && x.key == y.key
  }

  /** At most one row per (evaluation, name). */
  predicate KeyedUnique<P>(rows: seq<Row<P>>)
  {
    forall i, j :: 0 <= i < |rows| && 0 <= j < |rows| && i != j ==> !SameKey(rows[i], rows[j])
  }

  /** The `.eq("avaliacao_id", a).eq(name, k)` query: the first matching
      row. */
  function Find<P>(rows: seq<Row<P>>, a: string, k: string): (r: Option<nat>)
    ensures r.Some? ==> r.value < |rows| && Matches(rows[r.value], a, k)
    ensures r.None? ==> forall i :: 0 <= i < |rows| ==> !Matches(rows[i], a, k)
  {
    if |rows| == 0 then None
    else if Matches(rows[0], a, k) then Some(0)
    else
      assert forall i :: 1 <= i < |rows| ==> rows[1..][i - 1] == rows[i];
      match Find(rows[1..], a, k)
      case None => None
      case Some(i) => Some(i + 1)
  }

  /** In a table without duplicates the query finds the one matching
      row. */
  lemma FindUnique<P>(rows: seq<Row<P>>, i: nat)
    requires KeyedUnique(rows)
    requires i < |rows|
    ensures Find(rows, rows[i].avaliacaoId, rows[i].key) == Some(i)
  {
    var r := Find(rows, rows[i].avaliacaoId, rows[i].key);
    assert r.Some? ==> SameKey(rows[i], rows[r.value]);
  }

  /** The payload stored under (a, k), if any. */
  function Lookup<P>(rows: seq<Row<P>>, a: string, k: string): Option<P>
  {
    match Find(rows, a, k)
    case None => None
    case Some(i) => Some(rows[i].payload)
  }

  /** The upsert of `saveSecaoAvaliacao` and `saveMIFAvaliacao`: the row of
      (a, k) gets the new payload in place, or a row is appended. */
  function Upsert<P>(rows: seq<Row<P>>, a: string, k: string, p: P, newId: string): (r: seq<Row<P>>)
    requires KeyedUnique(rows)
    ensures KeyedUnique(r)
    ensures Lookup(r, a, k) == Some(p)
    ensures forall a', k' :: !(a' == a && k' == k) ==> Lookup(r, a', k') == Lookup(rows, a', k')
    ensures Find(rows, a, k).Some? ==> |r| == |rows| && forall i :: 0 <= i < |r| ==> r[i].id == rows[i].id
    ensures Find(rows, a, k).None? ==> |r| == |rows| + 1 && r[..|rows|] == rows && r[|rows|].id == newId
  {
    match Find(rows, a, k)
    case Some(i) =>
      var r := rows[i := rows[i].(payload := p)];
      assert forall j :: 0 <= j < |r| ==> SameKey(r[j], rows[j]);
      FindUnique(r, i);
      forall a', k' | !(a' == a && k' == k)
        ensures Lookup(r, a', k') == Lookup(rows, a', k')
      {
        UpdateKeepsOthers(rows, r, i, a', k');
      }
      r
    case None =>
      var r := rows + [Row(newId, a, k, p)];
      assert r[..|rows|] == rows;
      FindUnique(r, |rows|);
      forall a', k' | !(a' == a && k' == k)
        ensures Lookup(r, a', k') == Lookup(rows, a', k')
      {
        AppendKeepsOthers(rows, r, a', k');
      }
      r
  }

  lemma UpdateKeepsOthers<P>(rows: seq<Row<P>>, r: seq<Row<P>>, i: nat, a: string, k: string)
    requires KeyedUnique(rows) && KeyedUnique(r)
    requires |r| == |rows| && i < |rows|
    requires forall j :: 0 <= j < |r| && j != i ==> r[j] == rows[j]
    requires SameKey(r[i], rows[i]) && !Matches(rows[i], a, k)
    ensures Lookup(r, a, k) == Lookup(rows, a, k)
  {
    match Find(rows, a, k)
    case Some(j) =>
      FindUnique(rows, j);
      FindUnique(r, j);
    case None =>
      assert forall j :: 0 <= j < |r| ==> !Matches(r[j], a, k);
  }

  lemma AppendKeepsOthers<P>(rows: seq<Row<P>>, r: seq<Row<P>>, a: string, k: string)
    requires KeyedUnique(rows) && KeyedUnique(r)
    requires |r| == |rows| + 1 && r[..|rows|] == rows
    requires !Matches(r[|rows|], a, k)
    ensures Lookup(r, a, k) == Lookup(rows, a, k)
  {
    assert forall j :: 0 <= j < |rows| ==> r[j] == rows[j];
    match Find(rows, a, k)
    case Some(j) =>
      FindUnique(rows, j);
      FindUnique(r, j);
    case None =>
      assert forall j :: 0 <= j < |r| ==> !Matches(r[j], a, k);
  }

  /** `.delete().eq("avaliacao_id", a)`: the rows of other evaluations, in
      order. */
  function WithoutEvaluation<P>(rows: seq<Row<P>>, a: string): (r: seq<Row<P>>)
    ensures |r| <= |rows|
    ensures forall i :: 0 <= i < |r| ==> r[i].avaliacaoId != a && r[i] in rows
    ensures forall i :: 0 <= i < |rows| && rows[i].avaliacaoId != a ==> rows[i] in r
  {
    if |rows| == 0 then []
    else
      var n := |rows| - 1;
      var prev := WithoutEvaluation(rows[..n], a);
      assert forall x :: x in rows[..n] ==> x in rows;
      assert forall i :: 0 <= i < n ==> rows[..n][i] == rows[i];
      if rows[n].avaliacaoId != a then prev + [rows[n]] else prev
  }

  /** `.select("*").eq("avaliacao_id", a)`: the rows of one evaluation, in
      order. */
  function OfEvaluation<P>(rows: seq<Row<P>>, a: string): (r: seq<Row<P>>)
    ensures |r| <= |rows|
    ensures forall i :: 0 <= i < |r| ==> r[i].avaliacaoId == a && r[i] in rows
    ensures forall i :: 0 <= i < |rows| && rows[i].avaliacaoId == a ==> rows[i] in r
  {
    if |rows| == 0 then []
    else
      var n := |rows| - 1;
      var prev := OfEvaluation(rows[..n], a);
      assert forall x :: x in rows[..n] ==> x in rows;
      assert forall i :: 0 <= i < n ==> rows[..n][i] == rows[i];
      if rows[n].avaliacaoId == a then prev + [rows[n]] else prev
  }

  /** The rows of an evaluation and the rows a cascade keeps split the
      table. */
  lemma {:induction false} EvaluationSplitsTable<P>(rows: seq<Row<P>>, a: string)
    ensures |OfEvaluation(rows, a)| + |WithoutEvaluation(rows, a)| == |rows|
  {
    if |rows| > 0 {
      EvaluationSplitsTable(rows[..|rows| - 1], a);
    }
  }

  /** Deleting the rows of an evaluation keeps the table free of
      duplicates. */
  lemma {:induction false} WithoutKeepsUnique<P>(rows: seq<Row<P>>, a: string)
    requires KeyedUnique(rows)
    ensures KeyedUnique(WithoutEvaluation(rows, a))
  {
    if |rows| > 0 {
      var n := |rows| - 1;
      assert KeyedUnique(rows[..n]);
      WithoutKeepsUnique(rows[..n], a);
      var prev := WithoutEvaluation(rows[..n], a);
      if rows[n].avaliacaoId != a {
        forall x | x in prev
          ensures !SameKey(x, rows[n])
        {
          var p :| 0 <= p < n && rows[..n][p] == x;
          assert rows[p] == x;
        }
        var r := prev + [rows[n]];
        forall i, j | 0 <= i < |r| && 0 <= j < |r| && i != j
          ensures !SameKey(r[i], r[j])
        {
          if i < |prev| && j < |prev| {
          } else if i < |prev| {
            assert r[i] in prev;
          } else {
            assert r[j] in prev;
          }
        }
      }
    }
  }

  /** After the cascade the evaluation has no rows and every other pair
      reads as before. */
  lemma LookupWithout<P>(rows: seq<Row<P>>, a: string, a': string, k: string)
    requires KeyedUnique(rows)
    ensures Lookup(WithoutEvaluation(rows, a), a', k) == if a' == a then None else Lookup(rows, a', k)
  {
    var r := WithoutEvaluation(rows, a);
    WithoutKeepsUnique(rows, a);
    if a' != a {
      match Find(rows, a', k)
      case Some(j) =>
        assert rows[j] in r;
        var m :| 0 <= m < |r| && r[m] == rows[j];
        FindUnique(r, m);
      case None =>
        forall m | 0 <= m < |r|
          ensures !Matches(r[m], a', k)
        {
          assert r[m] in rows;
        }
    }
  }

  /** Every row belongs to an existing evaluation. */
  predicate ChildrenOf<P>(rows: seq<Row<P>>, parents: set<string>)
  {
    forall i :: 0 <= i < |rows| ==> rows[i].avaliacaoId in parents
  }

  /** After the cascade no row points to the deleted evaluation, and the
      rows left still have their evaluations. */
  lemma WithoutKeepsParents<P>(rows: seq<Row<P>>, a: string, parents: set<string>)
    requires ChildrenOf(rows, parents)
    ensures ChildrenOf(WithoutEvaluation(rows, a), parents - {a})
    ensures ChildrenOf(WithoutEvaluation(rows, a), parents)
  {
    var r := WithoutEvaluation(rows, a);
    forall i | 0 <= i < |r|
      ensures r[i].avaliacaoId in parents - {a}
    {
      var j :| 0 <= j < |rows| && rows[j] == r[i];
    }
  }

  /** `getSecaoAvaliacao`: null for a missing evaluation id or section name
      (the error is only logged), otherwise `data?.dados || null`. */
  function GetSecao(rows: seq<Row<JsValue>>, a: string, s: string): (r: JsValue)
    ensures a == "" || s == "" || Lookup(rows, a, s).None? ==> r == Null
    ensures a != "" && s != "" && Lookup(rows, a, s).Some? ==> r == Or(Lookup(rows, a, s).value, Null)
  {
    if a == "" || s == "" then Null
    else
      match Lookup(rows, a, s)
      case None => Null
      case Some(d) => Or(d, Null)
  }

  /** `getMIFAvaliacoes`: [] for a missing evaluation id (the error is
      reported and `null || []` returned), otherwise its rows. */
  function GetMifRows(rows: seq<Row<MifScore>>, a: string): (r: seq<Row<MifScore>>)
    ensures a == "" ==> r == []
    ensures a != "" ==> r == OfEvaluation(rows, a)
  {
    if a == "" then [] else OfEvaluation(rows, a)
  }

  /** The patient an evaluation row points to. */
  function PatientOf(row: Record): Option<string>
  {
    match Get(row, "paciente_id")
    case Str(p) => Some(p)
    case _ => None
  }

  /** `{ ...row, ...fields, updated_at }` of an update. */
  function Updated(row: Record, fields: Record, now: string): (r: Record)
    ensures forall k :: k in r <==> k in row || k in fields || k == "updated_at"
    ensures forall k :: k in fields && k != "updated_at" ==> r[k] == fields[k]
    ensures forall k :: k in row && k !in fields && k != "updated_at" ==> r[k] == row[k]
    ensures r["updated_at"] == Str(now)
  {
    (row + fields)["updated_at" := Str(now)]
  }

  /** The row `createAvaliacao` inserts: the generated id, the caller's
      fields, status "rascunho" and today's date unless given, and the
      update time. */
  function NewEvaluationRow(avaliacao: Record, id: string, now: string): (r: Record)
    ensures Get(r, "id") == Get(map["id" := Str(id)] + avaliacao, "id")
    ensures PatientOf(r) == PatientOf(avaliacao)
    ensures Get(r, "status") == if Truthy(Get(avaliacao, "status")) then avaliacao["status"] else Str("rascunho")
    ensures Get(r, "data_avaliacao") ==
      if Truthy(Get(avaliacao, "data_avaliacao")) then avaliacao["data_avaliacao"] else Str(now)
    ensures forall k :: k in avaliacao && k != "status" && k != "data_avaliacao" && k != "updated_at" ==>
      k in r && r[k] == avaliacao[k]
  {
    (map["id" := Str(id)] + avaliacao)
      ["status" := Or(Get(avaliacao, "status"), Str("rascunho"))]
      ["data_avaliacao" := Or(Get(avaliacao, "data_avaliacao"), Str(now))]
      ["updated_at" := Str(now)]
  }

  /** Some evaluation points to the patient. */
  predicate HasEvaluations(avaliacoes: map<string, Record>, id: string)
  {
    exists a | a in avaliacoes :: PatientOf(avaliacoes[a]) == Some(id)
  }

  /** The four tables behind `pacienteService` and `avaliacaoService`.
      Each operation returns its JavaScript result and the error it hands
      to `handleError`, if any (shown as `ErrorMessage`). `handleError`
      always returns null, so a failed operation returns null, or false
      for a deletion. */
  class Tables {
    var pacientes: map<string, Record>
    var avaliacoes: map<string, Record>
    var secoes: seq<Row<JsValue>>
    var mifs: seq<Row<MifScore>>

    /** No duplicate (evaluation, name) and no row without its
        evaluation. */
    predicate Valid()
      reads this
    {
      KeyedUnique(secoes) && KeyedUnique(mifs)
      && ChildrenOf(secoes, avaliacoes.Keys) && ChildrenOf(mifs, avaliacoes.Keys)
    }

    /** Every evaluation's patient exists. */
    predicate PatientsExist()
      reads this
    {
      forall a :: a in avaliacoes && PatientOf(avaliacoes[a]).Some? ==> PatientOf(avaliacoes[a]).value in pacientes
    }

    constructor()
      ensures Valid() && PatientsExist()
      ensures pacientes == map[] && avaliacoes == map[] && secoes == [] && mifs == []
    {
      pacientes := map[];
      avaliacoes := map[];
      secoes := [];
      mifs := [];
    }

    /** `createPaciente`: a name is required; the row gets the update time
        and the key the table generates. */
    method CreatePaciente(paciente: Record, newId: string, now: string, writeFailure: Option<DbError>)
      returns (r: JsValue, thrown: Option<DbError>)
      requires newId !in pacientes
      modifies this
      ensures avaliacoes == old(avaliacoes) && secoes == old(secoes) && mifs == old(mifs)
      ensures !Truthy(Get(paciente, "nome")) ==>
        pacientes == old(pacientes) && r == Null && thrown == Some(Thrown(GuardMessage(PatientNameRequired)))
      ensures Truthy(Get(paciente, "nome")) && writeFailure.Some? ==>
        pacientes == old(pacientes) && r == Null && thrown == writeFailure
      ensures Truthy(Get(paciente, "nome")) && writeFailure.None? ==>
        pacientes == old(pacientes)[newId := paciente["updated_at" := Str(now)]]
        && r == Obj(pacientes[newId]) && thrown.None?
      ensures old(Valid()) ==> Valid()
      ensures old(PatientsExist()) ==> PatientsExist()
    {
      if !Truthy(Get(paciente, "nome")) {
        r, thrown := Null, Some(Thrown(GuardMessage(PatientNameRequired)));
        return;
      }
      if writeFailure.Some? {
        r, thrown := Null, writeFailure;
        return;
      }
      var row := paciente["updated_at" := Str(now)];
      pacientes := pacientes[newId := row];
      r, thrown := Obj(row), None;
    }

    /** `updatePaciente`: an id and at least one field are required. An id
        no row has updates nothing and yields `undefined` without an
        error. */
    method UpdatePaciente(id: string, fields: Record, now: string, writeFailure: Option<DbError>)
      returns (r: JsValue, thrown: Option<DbError>)
      modifies this
      ensures avaliacoes == old(avaliacoes) && secoes == old(secoes) && mifs == old(mifs)
      ensures id == "" ==> pacientes == old(pacientes) && r == Null && thrown == Some(Thrown(GuardMessage(MissingPatientId)))
      ensures id != "" && |fields| == 0 ==>
        pacientes == old(pacientes) && r == Null && thrown == Some(Thrown(GuardMessage(NothingToUpdate)))
      ensures id != "" && |fields| > 0 && writeFailure.Some? ==>
        pacientes == old(pacientes) && r == Null && thrown == writeFailure
      ensures id != "" && |fields| > 0 && writeFailure.None? && id in old(pacientes) ==>
        pacientes == old(pacientes)[id := Updated(old(pacientes)[id], fields, now)]
        && r == Obj(pacientes[id]) && thrown.None?
      ensures id != "" && |fields| > 0 && writeFailure.None? && id !in old(pacientes) ==>
        pacientes == old(pacientes) && r == Undefined && thrown.None?
    {
      if id == "" {
        r, thrown := Null, Some(Thrown(GuardMessage(MissingPatientId)));
        return;
      }
      if |fields| == 0 {
        r, thrown := Null, Some(Thrown(GuardMessage(NothingToUpdate)));
        return;
      }
      if writeFailure.Some? {
        r, thrown := Null, writeFailure;
        return;
      }
      if id in pacientes {
        var row := Updated(pacientes[id], fields, now);
        pacientes := pacientes[id := row];
        r := Obj(row);
      } else {
        r := Undefined;
      }
      thrown := None;
    }

    /** `deletePaciente`: refused while any evaluation points to the
        patient; otherwise the row is deleted. */
    method DeletePaciente(id: string, writeFailure: Option<DbError>) returns (ok: bool, thrown: Option<DbError>)
      modifies this
      ensures avaliacoes == old(avaliacoes) && secoes == old(secoes) && mifs == old(mifs)
      ensures HasEvaluations(old(avaliacoes), id) ==>
        pacientes == old(pacientes) && !ok && thrown == Some(Thrown(GuardMessage(PatientHasEvaluations)))
      ensures !HasEvaluations(old(avaliacoes), id) && writeFailure.Some? ==>
        pacientes == old(pacientes) && !ok && thrown == writeFailure
      ensures !HasEvaluations(old(avaliacoes), id) && writeFailure.None? ==>
        pacientes == old(pacientes) - {id} && ok && thrown.None?
      ensures old(Valid()) ==> Valid()
      ensures old(PatientsExist()) ==> PatientsExist()
    {
      if exists a | a in avaliacoes :: PatientOf(avaliacoes[a]) == Some(id) {
        ok, thrown := false, Some(Thrown(GuardMessage(PatientHasEvaluations)));
        return;
      }
      if writeFailure.Some? {
        ok, thrown := false, writeFailure;
        return;
      }
      pacientes := pacientes - {id};
      ok, thrown := true, None;
    }

    /** `createAvaliacao`: a patient id and a specialty are required and
        the patient must exist; the row is `NewEvaluationRow` under the
        generated id. */
    method CreateAvaliacao(avaliacao: Record, newId: string, now: string, writeFailure: Option<DbError>)
      returns (r: JsValue, thrown: Option<DbError>)
      requires newId !in avaliacoes
      modifies this
      ensures pacientes == old(pacientes) && secoes == old(secoes) && mifs == old(mifs)
      ensures !Truthy(Get(avaliacao, "paciente_id")) ==>
        avaliacoes == old(avaliacoes) && r == Null && thrown == Some(Thrown(GuardMessage(PatientIdRequired)))
      ensures Truthy(Get(avaliacao, "paciente_id")) && !Truthy(Get(avaliacao, "especialidade")) ==>
        avaliacoes == old(avaliacoes) && r == Null && thrown == Some(Thrown(GuardMessage(SpecialtyRequired)))
      ensures (Truthy(Get(avaliacao, "paciente_id")) && Truthy(Get(avaliacao, "especialidade"))
               && !(PatientOf(avaliacao).Some? && PatientOf(avaliacao).value in pacientes)) ==>
        avaliacoes == old(avaliacoes) && r == Null && thrown == Some(Thrown(GuardMessage(PatientNotFound)))
      ensures thrown.None? ==>
        writeFailure.None? && PatientOf(avaliacao).Some? && PatientOf(avaliacao).value in pacientes
        && Truthy(Get(avaliacao, "especialidade"))
        && avaliacoes == old(avaliacoes)[newId := NewEvaluationRow(avaliacao, newId, now)]
        && r == Obj(avaliacoes[newId])
      ensures thrown.Some? ==> avaliacoes == old(avaliacoes) && r == Null
      ensures old(Valid()) ==> Valid()
      ensures old(PatientsExist()) ==> PatientsExist()
    {
      if !Truthy(Get(avaliacao, "paciente_id")) {
        r, thrown := Null, Some(Thrown(GuardMessage(PatientIdRequired)));
        return;
      }
      if !Truthy(Get(avaliacao, "especialidade")) {
        r, thrown := Null, Some(Thrown(GuardMessage(SpecialtyRequired)));
        return;
      }
      if !(PatientOf(avaliacao).Some? && PatientOf(avaliacao).value in pacientes) {
        r, thrown := Null, Some(Thrown(GuardMessage(PatientNotFound)));
        return;
      }
      if writeFailure.Some? {
        r, thrown := Null, writeFailure;
        return;
      }
      var row := NewEvaluationRow(avaliacao, newId, now);
      avaliacoes := avaliacoes[newId := row];
      r, thrown := Obj(row), None;
    }

    /** `updateAvaliacao`: the same checks and update as for a patient. */
    method UpdateAvaliacao(id: string, fields: Record, now: string, writeFailure: Option<DbError>)
      returns (r: JsValue, thrown: Option<DbError>)
      modifies this
      ensures pacientes == old(pacientes) && secoes == old(secoes) && mifs == old(mifs)
      ensures avaliacoes.Keys == old(avaliacoes).Keys
      ensures id == "" ==> avaliacoes == old(avaliacoes) && r == Null && thrown == Some(Thrown(GuardMessage(MissingEvaluationId)))
      ensures id != "" && |fields| == 0 ==>
        avaliacoes == old(avaliacoes) && r == Null && thrown == Some(Thrown(GuardMessage(NothingToUpdate)))
      ensures id != "" && |fields| > 0 && writeFailure.Some? ==>
        avaliacoes == old(avaliacoes) && r == Null && thrown == writeFailure
      ensures id != "" && |fields| > 0 && writeFailure.None? && id in old(avaliacoes) ==>
        avaliacoes == old(avaliacoes)[id := Updated(old(avaliacoes)[id], fields, now)]
        && r == Obj(avaliacoes[id]) && thrown.None?
      ensures id != "" && |fields| > 0 && writeFailure.None? && id !in old(avaliacoes) ==>
        avaliacoes == old(avaliacoes) && r == Undefined && thrown.None?
      ensures old(Valid()) ==> Valid()
    {
      if id == "" {
        r, thrown := Null, Some(Thrown(GuardMessage(MissingEvaluationId)));
        return;
      }
      if |fields| == 0 {
        r, thrown := Null, Some(Thrown(GuardMessage(NothingToUpdate)));
        return;
      }
      if writeFailure.Some? {
        r, thrown := Null, writeFailure;
        return;
      }
      if id in avaliacoes {
        var row := Updated(avaliacoes[id], fields, now);
        avaliacoes := avaliacoes[id := row];
        r := Obj(row);
      } else {
        r := Undefined;
      }
      thrown := None;
    }

    /** `deleteAvaliacao`: the sections go first, then the MIF rows, then
        the evaluation; a failing step stops the cascade where it is. */
    method DeleteAvaliacao(id: string, secoesFailure: Option<DbError>, mifFailure: Option<DbError>,
                           avaliacaoFailure: Option<DbError>)
      returns (ok: bool, thrown: Option<DbError>)
      requires Valid()
      modifies this
      ensures Valid()
      ensures pacientes == old(pacientes)
      ensures ok <==> secoesFailure.None? && mifFailure.None? && avaliacaoFailure.None?
      ensures ok ==> thrown.None?
      ensures secoesFailure.Some? ==>
        secoes == old(secoes) && mifs == old(mifs) && avaliacoes == old(avaliacoes)
        && thrown == secoesFailure
      ensures secoesFailure.None? ==> secoes == WithoutEvaluation(old(secoes), id)
      ensures secoesFailure.None? && mifFailure.Some? ==>
        mifs == old(mifs) && avaliacoes == old(avaliacoes) && thrown == mifFailure
      ensures secoesFailure.None? && mifFailure.None? ==> mifs == WithoutEvaluation(old(mifs), id)
      ensures secoesFailure.None? && mifFailure.None? && avaliacaoFailure.Some? ==>
        avaliacoes == old(avaliacoes) && thrown == avaliacaoFailure
      ensures ok ==> avaliacoes == old(avaliacoes) - {id}
    {
      if secoesFailure.Some? {
        ok, thrown := false, secoesFailure;
        return;
      }
      WithoutKeepsUnique(secoes, id);
      WithoutKeepsParents(secoes, id, avaliacoes.Keys);
      secoes := WithoutEvaluation(secoes, id);
      if mifFailure.Some? {
        ok, thrown := false, mifFailure;
        return;
      }
      WithoutKeepsUnique(mifs, id);
      WithoutKeepsParents(mifs, id, avaliacoes.Keys);
      mifs := WithoutEvaluation(mifs, id);
      if avaliacaoFailure.Some? {
        ok, thrown := false, avaliacaoFailure;
        return;
      }
      avaliacoes := avaliacoes - {id};
      ok, thrown := true, None;
    }

    /** `saveSecaoAvaliacao`: evaluation id, section name and truthy data
        are required and the evaluation must exist; then the upsert. */
    method SaveSecao(avaliacaoId: string, secao: string, dados: JsValue, newId: string,
                     writeFailure: Option<DbError>)
      returns (r: JsValue, thrown: Option<DbError>)
      requires Valid()
      modifies this
      ensures Valid()
      ensures pacientes == old(pacientes) && avaliacoes == old(avaliacoes) && mifs == old(mifs)
      ensures avaliacaoId == "" ==> thrown == Some(Thrown(GuardMessage(MissingEvaluationId)))
      ensures avaliacaoId != "" && secao == "" ==> thrown == Some(Thrown(GuardMessage(MissingSectionName)))
      ensures avaliacaoId != "" && secao != "" && !Truthy(dados) ==> thrown == Some(Thrown(GuardMessage(MissingSectionData)))
      ensures avaliacaoId != "" && secao != "" && Truthy(dados) && avaliacaoId !in avaliacoes ==>
        thrown == Some(Thrown(GuardMessage(EvaluationNotFound)))
      ensures thrown.Some? ==> secoes == old(secoes) && r == Null
      ensures thrown.None? <==>
        avaliacaoId != "" && secao != "" && Truthy(dados) && avaliacaoId in avaliacoes && writeFailure.None?
      ensures thrown.None? ==>
        secoes == Upsert(old(secoes), avaliacaoId, secao, dados, newId)
        && GetSecao(secoes, avaliacaoId, secao) == dados
        && r == Obj(map["id" := Str(secoes[Find(secoes, avaliacaoId, secao).value].id),
                        "avaliacao_id" := Str(avaliacaoId), "secao" := Str(secao), "dados" := dados])
    {
      if avaliacaoId == "" {
        r, thrown := Null, Some(Thrown(GuardMessage(MissingEvaluationId)));
        return;
      }
      if secao == "" {
        r, thrown := Null, Some(Thrown(GuardMessage(MissingSectionName)));
        return;
      }
      if !Truthy(dados) {
        r, thrown := Null, Some(Thrown(GuardMessage(MissingSectionData)));
        return;
      }
      if avaliacaoId !in avaliacoes {
        r, thrown := Null, Some(Thrown(GuardMessage(EvaluationNotFound)));
        return;
      }
      if writeFailure.Some? {
        r, thrown := Null, writeFailure;
        return;
      }
      var updated := Upsert(secoes, avaliacaoId, secao, dados, newId);
      UpsertKeepsParents(secoes, avaliacaoId, secao, dados, newId, avaliacoes.Keys);
      secoes := updated;
      var i := Find(secoes, avaliacaoId, secao).value;
      r := Obj(map["id" := Str(secoes[i].id), "avaliacao_id" := Str(avaliacaoId), "secao" := Str(secao),
                   "dados" := dados]);
      thrown := None;
    }

    /** `saveMIFAvaliacao`: evaluation id and category are required and a
        score outside 1..7 is refused before any table is read; then the
        upsert of score and note. */
    method SaveMif(avaliacaoId: string, categoria: string, pontuacao: int, observacoes: JsValue, newId: string,
                   writeFailure: Option<DbError>)
      returns (r: JsValue, thrown: Option<DbError>)
      requires Valid()
      modifies this
      ensures Valid()
      ensures pacientes == old(pacientes) && avaliacoes == old(avaliacoes) && secoes == old(secoes)
      ensures avaliacaoId == "" ==> thrown == Some(Thrown(GuardMessage(MissingEvaluationId)))
      ensures avaliacaoId != "" && categoria == "" ==> thrown == Some(Thrown(GuardMessage(MissingCategory)))
      ensures avaliacaoId != "" && categoria != "" && (pontuacao < 1 || pontuacao > 7) ==>
        thrown == Some(Thrown(GuardMessage(ScoreOutOfRange)))
      ensures avaliacaoId != "" && categoria != "" && 1 <= pontuacao <= 7 && avaliacaoId !in avaliacoes ==>
        thrown == Some(Thrown(GuardMessage(EvaluationNotFound)))
      ensures thrown.Some? ==> mifs == old(mifs) && r == Null
      ensures thrown.None? <==>
        avaliacaoId != "" && categoria != "" && 1 <= pontuacao <= 7 && avaliacaoId in avaliacoes
        && writeFailure.None?
      ensures thrown.None? ==>
        mifs == Upsert(old(mifs), avaliacaoId, categoria, MifScore(pontuacao, observacoes), newId)
        && Lookup(mifs, avaliacaoId, categoria) == Some(MifScore(pontuacao, observacoes))
        && r == Obj(map["id" := Str(mifs[Find(mifs, avaliacaoId, categoria).value].id),
                        "avaliacao_id" := Str(avaliacaoId), "categoria" := Str(categoria),
                        "pontuacao" := Num(pontuacao), "observacoes" := observacoes])
    {
      if avaliacaoId == "" {
        r, thrown := Null, Some(Thrown(GuardMessage(MissingEvaluationId)));
        return;
      }
      if categoria == "" {
        r, thrown := Null, Some(Thrown(GuardMessage(MissingCategory)));
        return;
      }
      if pontuacao < 1 || pontuacao > 7 {
        r, thrown := Null, Some(Thrown(GuardMessage(ScoreOutOfRange)));
        return;
      }
      if avaliacaoId !in avaliacoes {
        r, thrown := Null, Some(Thrown(GuardMessage(EvaluationNotFound)));
        return;
      }
      if writeFailure.Some? {
        r, thrown := Null, writeFailure;
        return;
      }
      var score := MifScore(pontuacao, observacoes);
      var updated := Upsert(mifs, avaliacaoId, categoria, score, newId);
      UpsertKeepsParents(mifs, avaliacaoId, categoria, score, newId, avaliacoes.Keys);
      mifs := updated;
      var i := Find(mifs, avaliacaoId, categoria).value;
      r := Obj(map["id" := Str(mifs[i].id), "avaliacao_id" := Str(avaliacaoId), "categoria" := Str(categoria),
                   "pontuacao" := Num(pontuacao), "observacoes" := observacoes]);
      thrown := None;
    }
  }

  /** An upsert under an existing evaluation leaves no orphan row. */
  lemma UpsertKeepsParents<P>(rows: seq<Row<P>>, a: string, k: string, p: P, newId: string, parents: set<string>)
    requires KeyedUnique(rows) && ChildrenOf(rows, parents) && a in parents
    ensures ChildrenOf(Upsert(rows, a, k, p, newId), parents)
  {
    var r := Upsert(rows, a, k, p, newId);
    match Find(rows, a, k)
    case Some(i) =>
      assert forall j :: 0 <= j < |r| ==> r[j] == rows[j] || r[j].avaliacaoId == a;
    case None =>
      assert forall j :: 0 <= j < |rows| ==> r[j] == rows[j];
  }

  /** A saved section reads back as saved, and the other sections are
      untouched. */
  lemma SavedSectionReadsBack(rows: seq<Row<JsValue>>, a: string, s: string, d: JsValue, newId: string,
                              a': string, s': string)
    requires KeyedUnique(rows)
    requires a != "" && s != "" && Truthy(d)
    ensures GetSecao(Upsert(rows, a, s, d, newId), a, s) == d
    ensures !(a' == a && s' == s) ==> GetSecao(Upsert(rows, a, s, d, newId), a', s') == GetSecao(rows, a', s')
  {
  }

  /** Saving the same section twice leaves one row holding the second
      data. */
  lemma SaveTwiceKeepsOneRow<P>(rows: seq<Row<P>>, a: string, k: string, p: P, q: P, id1: string, id2: string)
    requires KeyedUnique(rows)
    ensures |Upsert(Upsert(rows, a, k, p, id1), a, k, q, id2)| == |Upsert(rows, a, k, p, id1)|
    ensures Lookup(Upsert(Upsert(rows, a, k, p, id1), a, k, q, id2), a, k) == Some(q)
  {
    var once := Upsert(rows, a, k, p, id1);
    assert Find(once, a, k).Some?;
  }
}
