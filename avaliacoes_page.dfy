/** The evaluation list of app/avaliacoes/page.tsx: loading, the search
    filter over patient name, specialty and professional, and the delete
    and duplicate handlers that update the list and the confirmation
    dialog. The service calls they make are given as their outcomes. */
module AvaliacoesPage {
  import opened Text
  import opened Js

  /** A string-valued field as the filter reads it: `value || ""`. Rows
      hold strings in these columns; any other value reads as "". */
  function TextOf(v: JsValue): (s: string)
    ensures v.Str? ==> s == v.s
    ensures !v.Str? ==> s == ""
  {
    if v.Str? then v.s else ""
  }

  /** `avaliacao.pacientes?.nome`: the name of the joined patient row. */
  function PatientName(e: Record): (v: JsValue)
    ensures (Get(e, "pacientes").Obj? && "nome" in Get(e, "pacientes").fields) ==> v == e["pacientes"].fields["nome"]
    ensures !(Get(e, "pacientes").Obj? && "nome" in Get(e, "pacientes").fields) ==> v == Undefined
  {
    match Get(e, "pacientes")
    case Obj(f) => Get(f, "nome")
    case _ => Undefined
  }

  /** Whether an evaluation passes the search: the lower-cased term
      occurs in the lower-cased patient name, specialty or professional. */
  predicate Shown(e: Record, term: string)
    ensures term == "" ==> Shown(e, term)
    ensures Shown(e, term) ==>
      |term| <= |TextOf(PatientName(e))| || |term| <= |TextOf(Get(e, "especialidade"))|
      || |term| <= |TextOf(Get(e, "profissional"))|
  {
    ContainsEmpty(Lower(TextOf(PatientName(e))));
    var t := Lower(term);
    Contains(Lower(TextOf(PatientName(e))), t)
    || Contains(Lower(TextOf(Get(e, "especialidade"))), t)
    || Contains(Lower(TextOf(Get(e, "profissional"))), t)
  }

  /** `filteredAvaliacoes`: the evaluations the search shows, in list
      order. */
  function Filter(list: seq<Record>, term: string): (r: seq<Record>)
    ensures |r| <= |list|
    ensures forall e :: e in r <==> e in list && Shown(e, term)
  {
    if |list| == 0 then []
    else
      var rest := Filter(list[1..], term);
      assert forall e :: e in list <==> e == list[0] || e in list[1..];
      if Shown(list[0], term) then [list[0]] + rest else rest
  }

  /** The filter keeps the list's order: filtering a concatenation
      concatenates the filtered parts. */
  lemma {:induction false} FilterAppend(a: seq<Record>, b: seq<Record>, term: string)
    ensures Filter(a + b, term) == Filter(a, term) + Filter(b, term)
  {
    if a == [] {
      assert a + b == b;
    } else {
      assert (a + b)[0] == a[0];
      assert (a + b)[1..] == a[1..] + b;
      FilterAppend(a[1..], b, term);
    }
  }

  /** An empty search shows every evaluation. */
  lemma {:induction false} EmptySearchShowsAll(list: seq<Record>)
    ensures Filter(list, "") == list
  {
    if list != [] {
      ContainsEmpty(Lower(TextOf(PatientName(list[0]))));
      EmptySearchShowsAll(list[1..]);
    }
  }

  /** The search ignores the case of the term. */
  lemma {:induction false} SearchIgnoresTermCase(list: seq<Record>, term: string)
    ensures Filter(list, Lower(term)) == Filter(list, term)
  {
    LowerTwice(term);
    if list != [] {
      SearchIgnoresTermCase(list[1..], term);
    }
  }

  /** `avaliacoes.filter(a => a.id !== id)`. */
  function WithoutId(list: seq<Record>, id: string): (r: seq<Record>)
    ensures |r| <= |list|
    ensures forall e :: e in r <==> e in list && Get(e, "id") != Str(id)
  {
    if list == [] then []
    else
      var rest := WithoutId(list[1..], id);
      assert forall e :: e in list <==> e == list[0] || e in list[1..];
      if Get(list[0], "id") != Str(id) then [list[0]] + rest else rest
  }

  /** `avaliacoes.find(a => a.id === id)`: the index of the first entry
      with that id. */
  function FindById(list: seq<Record>, id: string): (r: Option<nat>)
    ensures r.Some? ==> r.value < |list| && Get(list[r.value], "id") == Str(id)
    ensures r.Some? ==> forall j :: 0 <= j < r.value ==> Get(list[j], "id") != Str(id)
    ensures r.None? ==> forall j :: 0 <= j < |list| ==> Get(list[j], "id") != Str(id)
  {
    if list == [] then None
    else if Get(list[0], "id") == Str(id) then Some(0)
    else
      match FindById(list[1..], id)
      case None => None
      case Some(i) => Some(i + 1)
  }

  /** The row `handleDuplicateAvaliacao` asks the service to create from
      `source`. */
  function DuplicateRequest(source: Record, now: string): (r: Record)
    ensures r.Keys == {"paciente_id", "especialidade", "profissional", "status", "data_avaliacao"}
    ensures r["paciente_id"] == Get(source, "paciente_id")
    ensures r["especialidade"] == Get(source, "especialidade")
    ensures r["profissional"] == Get(source, "profissional")
    ensures r["status"] == Str("rascunho") && r["data_avaliacao"] == Str(now)
  {
    map["paciente_id" := Get(source, "paciente_id"),
        "especialidade" := Get(source, "especialidade"),
        "profissional" := Get(source, "profissional"),
        "status" := Str("rascunho"),
        "data_avaliacao" := Str(now)]
  }

  /** What loading the list came to: the connection test failed with an
      error, a call threw with a message, or the rows arrived. */
  datatype LoadOutcome =
    | ConnectionFailed(error: string)
    | Threw(message: string)
    | Rows(data: seq<Record>)

  const UnknownLoadError := "Erro desconhecido"

  /** The page's state. */
  class Page {
    var avaliacoes: seq<Record>
    var searchTerm: string
    var deleteDialogOpen: bool
    var avaliacaoToDelete: Option<string>
    var connectionError: Option<string>
    var showDiagnostics: bool
    var duplicatedNotices: nat

    constructor()
      ensures avaliacoes == [] && searchTerm == "" && !deleteDialogOpen && avaliacaoToDelete.None?
      ensures connectionError.None? && !showDiagnostics && duplicatedNotices == 0
    {
      avaliacoes := [];
      searchTerm := "";
      deleteDialogOpen := false;
      avaliacaoToDelete := None;
      connectionError := None;
      showDiagnostics := false;
      duplicatedNotices := 0;
    }

    /** The evaluations on screen. */
    function Visible(): (r: seq<Record>)
      reads this
      ensures forall e :: e in r <==> e in avaliacoes && Shown(e, searchTerm)
    {
      Filter(avaliacoes, searchTerm)
    }

    /** `loadAvaliacoes`: the rows replace the list; a failed connection
        test or a thrown error shows the diagnostics with its message. */
    method Load(outcome: LoadOutcome)
      modifies this
      ensures outcome.Rows? ==>
        avaliacoes == outcome.data && connectionError.None? && showDiagnostics == old(showDiagnostics)
      ensures outcome.ConnectionFailed? ==>
        avaliacoes == old(avaliacoes) && connectionError == Some(outcome.error) && showDiagnostics
      ensures outcome.Threw? ==>
        avaliacoes == old(avaliacoes) && showDiagnostics
        && connectionError == Some(if outcome.message != "" then outcome.message else UnknownLoadError)
      ensures searchTerm == old(searchTerm) && deleteDialogOpen == old(deleteDialogOpen)
      ensures avaliacaoToDelete == old(avaliacaoToDelete) && duplicatedNotices == old(duplicatedNotices)
    {
      connectionError := None;
      match outcome
      case ConnectionFailed(error) =>
        connectionError := Some(error);
        showDiagnostics := true;
      case Threw(message) =>
        connectionError := Some(if message != "" then message else UnknownLoadError);
        showDiagnostics := true;
      case Rows(data) =>
        avaliacoes := data;
    }

    /** `confirmDelete`: remembers the id and opens the dialog. */
    method ConfirmDelete(id: string)
      modifies this
      ensures avaliacaoToDelete == Some(id) && deleteDialogOpen
      ensures avaliacoes == old(avaliacoes) && searchTerm == old(searchTerm)
      ensures connectionError == old(connectionError) && showDiagnostics == old(showDiagnostics)
      ensures duplicatedNotices == old(duplicatedNotices)
    {
      avaliacaoToDelete := Some(id);
      deleteDialogOpen := true;
    }

    /** `handleDeleteAvaliacao`: with no pending id (or an empty one)
        nothing happens, not even closing the dialog. Otherwise the entries
        with that id leave the list when the service reports `success`, and
        the dialog closes either way. */
    method HandleDelete(success: bool)
      modifies this
      ensures (old(avaliacaoToDelete).None? || old(avaliacaoToDelete).value == "") ==>
        avaliacoes == old(avaliacoes) && deleteDialogOpen == old(deleteDialogOpen)
        && avaliacaoToDelete == old(avaliacaoToDelete)
      ensures old(avaliacaoToDelete).Some? && old(avaliacaoToDelete).value != "" ==>
        avaliacaoToDelete.None? && !deleteDialogOpen
        && avaliacoes == (if success then WithoutId(old(avaliacoes), old(avaliacaoToDelete).value) else old(avaliacoes))
      ensures searchTerm == old(searchTerm) && connectionError == old(connectionError)
      ensures showDiagnostics == old(showDiagnostics) && duplicatedNotices == old(duplicatedNotices)
    {
      if avaliacaoToDelete.None? || avaliacaoToDelete.value == "" {
        return;
      }
      if success {
        avaliacoes := WithoutId(avaliacoes, avaliacaoToDelete.value);
      }
      avaliacaoToDelete := None;
      deleteDialogOpen := false;
    }

    /** `handleDuplicateAvaliacao`: an unknown id asks for nothing.
        Otherwise the request copies the first matching entry; when the
        service returns the new row the list is reloaded from `reloaded`
        and the success toast shown. */
    method HandleDuplicate(id: string, now: string, created: bool, reloaded: seq<Record>)
      returns (request: Option<Record>)
      modifies this
      ensures FindById(old(avaliacoes), id).None? ==>
        request.None? && avaliacoes == old(avaliacoes)
        && duplicatedNotices == old(duplicatedNotices)
      ensures FindById(old(avaliacoes), id).Some? ==>
        request == Some(DuplicateRequest(old(avaliacoes)[FindById(old(avaliacoes), id).value], now))
        && avaliacoes == (if created then reloaded else old(avaliacoes))
        && duplicatedNotices == old(duplicatedNotices) + (if created then 1 else 0)
      ensures searchTerm == old(searchTerm) && deleteDialogOpen == old(deleteDialogOpen)
      ensures avaliacaoToDelete == old(avaliacaoToDelete)
      ensures connectionError == old(connectionError) && showDiagnostics == old(showDiagnostics)
    {
      var found := FindById(avaliacoes, id);
      if found.None? {
        return None;
      }
      request := Some(DuplicateRequest(avaliacoes[found.value], now));
      if created {
        duplicatedNotices := duplicatedNotices + 1;
        avaliacoes := reloaded;
      }
    }
  }
}
