/** Form templates of components/template-manager.tsx: saving the values
    relevant to a specialty, merging a template into the form, deleting
    and listing templates. The "pts_templates" storage key is a field of
    the manager. */
module TemplateManager {
  import opened Text
  import opened Js
  import opened Specialty

  datatype Template = Template(
    id: string,
    nome: string,
    especialidade: Especialidade,
    dataCriacao: string,
    dados: Record)

  /** What the "pts_templates" key holds. */
  datatype StoredTemplates = NoTemplates | Unreadable | SavedTemplates(templates: seq<Template>)

  /** A registry entry is relevant to a specialty when its list names
      the specialty or "todas". */
  predicate RelevantTo(specialty: Especialidade, entry: Tagged)
  {
    specialty in entry.specialties || Todas in entry.specialties
  }

  /** The keys one relevant entry contributes: its field, and its `mif_`
      score when that is truthy. */
  predicate EntryKey(values: Record, entry: Tagged, k: string)
  {
    k == entry.field || (k == "mif_" + entry.field && Truthy(Get(values, k)))
  }

  /** The values one registry entry contributes when it is relevant: the
      field itself (even when absent, as undefined) and its `mif_` score
      when that is truthy. */
  function EntryData(values: Record, campo: string): (d: Record)
    ensures campo in d
    ensures Truthy(Get(values, "mif_" + campo)) ==> "mif_" + campo in d
    ensures forall k :: k in d ==> d[k] == Get(values, k)
    ensures forall k :: k in d ==> k == campo || (k == "mif_" + campo && Truthy(Get(values, k)))
  {
    var d := map[campo := Get(values, campo)];
    var mif := "mif_" + campo;
    if Truthy(Get(values, mif)) then d[mif := Get(values, mif)] else d
  }

  /** Setting an entry's keys one by one adds its data. */
  lemma PourEntry(d: Record, values: Record, campo: string)
    ensures d + EntryData(values, campo) ==
      (var d' := d[campo := Get(values, campo)];
       if Truthy(Get(values, "mif_" + campo)) then d'["mif_" + campo := Get(values, "mif_" + campo)] else d')
  {
  }

  /** The template data for a specialty other than "todas": the entries
      of `registry`, in order, that are relevant to the specialty. */
  function RelevantData(values: Record, specialty: Especialidade, registry: seq<Tagged>): (d: Record)
    ensures forall k :: k in d ==> d[k] == Get(values, k)
  {
    if |registry| == 0 then map[]
    else
      var prev := RelevantData(values, specialty, registry[..|registry| - 1]);
      var entry := registry[|registry| - 1];
      if RelevantTo(specialty, entry) then prev + EntryData(values, entry.field)
      else prev
  }

  /** Whether `k` is saved for `specialty`: a key some relevant entry
      contributes. */
  ghost predicate Saved(values: Record, specialty: Especialidade, registry: seq<Tagged>, k: string)
  {
    exists i :: 0 <= i < |registry| && RelevantTo(specialty, registry[i]) && EntryKey(values, registry[i], k)
  }

  /** Saving over a longer registry: the shorter one's keys and the last
      entry's. */
  lemma SavedSnoc(values: Record, specialty: Especialidade, registry: seq<Tagged>, k: string)
    requires |registry| > 0
    ensures Saved(values, specialty, registry, k) <==>
      Saved(values, specialty, registry[..|registry| - 1], k)
      || (RelevantTo(specialty, registry[|registry| - 1]) && EntryKey(values, registry[|registry| - 1], k))
  {
    var n := |registry| - 1;
    var front := registry[..n];
    if Saved(values, specialty, front, k) {
      var i :| 0 <= i < n && RelevantTo(specialty, front[i]) && EntryKey(values, front[i], k);
      assert front[i] == registry[i];
    }
    if Saved(values, specialty, registry, k) {
      var i :| 0 <= i < |registry| && RelevantTo(specialty, registry[i]) && EntryKey(values, registry[i], k);
      if i < n {
        assert front[i] == registry[i];
      }
    }
  }

  /** The keys of the template data are exactly the saved ones. */
  lemma {:induction false} RelevantDataKeys(values: Record, specialty: Especialidade, registry: seq<Tagged>, k: string)
    ensures k in RelevantData(values, specialty, registry) <==> Saved(values, specialty, registry, k)
  {
    if |registry| > 0 {
      RelevantDataKeys(values, specialty, registry[..|registry| - 1], k);
      SavedSnoc(values, specialty, registry, k);
    }
  }

  /** The data `salvarTemplate` stores: every value with "todas", the
      relevant registry fields otherwise. */
  function TemplateData(values: Record, specialty: Especialidade, registry: seq<Tagged>): (d: Record)
    ensures forall k :: k in d ==> d[k] == Get(values, k)
  {
    if specialty == Todas then values else RelevantData(values, specialty, registry)
  }

  /** `{ ...valoresAtuais, ...template.dados }`. */
  function Merge(current: Record, dados: Record): (m: Record)
    ensures m.Keys == current.Keys + dados.Keys
    ensures forall k :: k in dados ==> m[k] == dados[k]
    ensures forall k :: k in current && k !in dados ==> m[k] == current[k]
  {
    current + dados
  }

  /** Loading a template just saved from the same values leaves every
      saved field as it was and every other field untouched. */
  lemma MergeOwnTemplate(values: Record, specialty: Especialidade, registry: seq<Tagged>)
    ensures forall k :: k in values ==> Merge(values, TemplateData(values, specialty, registry))[k] == values[k]
  {
  }

  /** `templates.find((t) => t.id === id)`: the first match. */
  function Find(templates: seq<Template>, id: string): (r: Option<Template>)
    ensures r.None? <==> forall i :: 0 <= i < |templates| ==> templates[i].id != id
    ensures r.Some? ==> r.value in templates && r.value.id == id
    ensures r.Some? ==>
      exists i :: 0 <= i < |templates| && templates[i] == r.value && (forall j :: 0 <= j < i ==> templates[j].id != id)
  {
    if |templates| == 0 then None
    else if templates[0].id == id then Some(templates[0])
    else
      var r := Find(templates[1..], id);
      assert forall i :: 0 < i < |templates| ==> templates[1..][i - 1] == templates[i];
      if r.Some? then
        var i :| 0 <= i < |templates[1..]| && templates[1..][i] == r.value
          && forall j :: 0 <= j < i ==> templates[1..][j].id != id;
        assert templates[i + 1] == r.value;
        r
      else r
  }

  /** `templates.filter((t) => t.id !== id)`. */
  function Without(templates: seq<Template>, id: string): (r: seq<Template>)
    ensures |r| <= |templates|
    ensures forall i :: 0 <= i < |r| ==> r[i].id != id && r[i] in templates
    ensures forall t :: t in templates && t.id != id ==> t in r
  {
    if |templates| == 0 then []
    else
      var prev := Without(templates[..|templates| - 1], id);
      var last := templates[|templates| - 1];
      assert forall t :: t in templates[..|templates| - 1] ==> t in templates;
      assert forall t :: t in templates ==> t in templates[..|templates| - 1] || t == last;
      if last.id != id then prev + [last] else prev
  }

  /** Deleting an id no template has changes nothing. */
  lemma {:induction false} WithoutAbsent(templates: seq<Template>, id: string)
    requires forall i :: 0 <= i < |templates| ==> templates[i].id != id
    ensures Without(templates, id) == templates
  {
    if |templates| > 0 {
      var n := |templates| - 1;
      WithoutAbsent(templates[..n], id);
      assert templates[..n] + [templates[n]] == templates;
    }
  }

  /** Deleting twice is deleting once. */
  lemma WithoutIdempotent(templates: seq<Template>, id: string)
    ensures Without(Without(templates, id), id) == Without(templates, id)
  {
    WithoutAbsent(Without(templates, id), id);
  }

  /** Deleting distributes over concatenation, so a template added after
      the deleted ones stays last. */
  lemma {:induction false} WithoutAppend(a: seq<Template>, b: seq<Template>, id: string)
    ensures Without(a + b, id) == Without(a, id) + Without(b, id)
  {
    if |b| > 0 {
      var n := |b| - 1;
      var last := b[n];
      assert (a + b)[..|a + b| - 1] == a + b[..n];
      assert (a + b)[|a + b| - 1] == last;
      WithoutAppend(a, b[..n], id);
      if last.id != id {
        calc {
          Without(a + b, id);
          Without(a + b[..n], id) + [last];
          Without(a, id) + Without(b[..n], id) + [last];
          Without(a, id) + (Without(b[..n], id) + [last]);
        }
      }
    } else {
      assert a + b == a;
    }
  }

  /** `templatesEspecialidade`: the templates of one specialty, in order. */
  function ForSpecialty(templates: seq<Template>, specialty: Especialidade): (r: seq<Template>)
    ensures |r| <= |templates|
    ensures forall i :: 0 <= i < |r| ==> r[i].especialidade == specialty && r[i] in templates
    ensures forall t :: t in templates && t.especialidade == specialty ==> t in r
  {
    if |templates| == 0 then []
    else
      var prev := ForSpecialty(templates[..|templates| - 1], specialty);
      var last := templates[|templates| - 1];
      assert forall t :: t in templates[..|templates| - 1] ==> t in templates;
      assert forall t :: t in templates ==> t in templates[..|templates| - 1] || t == last;
      if last.especialidade == specialty then prev + [last] else prev
  }

  /** The template list, the stored copy, the form values and the two
      inputs of the dialog (new name, selected template). */
  class TemplateStore {
    var templates: seq<Template>
    var stored: StoredTemplates
    var formValues: Record
    var novoTemplateName: string
    var templateSelecionado: Option<string>
    /** The field registry the manager reads. */
    const registry: seq<Tagged>

    constructor(stored: StoredTemplates, formValues: Record)
      ensures this.stored == stored && this.formValues == formValues
      ensures templates == [] && novoTemplateName == "" && templateSelecionado == None
      ensures registry == Registry()
    {
      registry := Registry();
      this.stored := stored;
      this.formValues := formValues;
      templates := [];
      novoTemplateName := "";
      templateSelecionado := None;
    }

    /** The mount effect: a readable stored list replaces the empty one. */
    method Mount()
      modifies this
      ensures templates == if stored.SavedTemplates? then stored.templates else old(templates)
      ensures stored == old(stored) && formValues == old(formValues)
      ensures novoTemplateName == old(novoTemplateName) && templateSelecionado == old(templateSelecionado)
    {
      if stored.SavedTemplates? {
        templates := stored.templates;
      }
    }

    /** The loop of `salvarTemplate` over the registry entries. */
    static method CollectRelevant(values: Record, specialty: Especialidade, registry: seq<Tagged>)
      returns (dados: Record)
      ensures dados == RelevantData(values, specialty, registry)
    {
      dados := map[];
      var i := 0;
      while i < |registry|
        invariant 0 <= i <= |registry|
        invariant dados == RelevantData(values, specialty, registry[..i])
      {
        assert registry[..i + 1][..i] == registry[..i];
        var entry := registry[i];
        if RelevantTo(specialty, entry) {
          ghost var before := dados;
          dados := dados[entry.field := Get(values, entry.field)];
          var campoMif := "mif_" + entry.field;
          if Truthy(Get(values, campoMif)) {
            dados := dados[campoMif := Get(values, campoMif)];
          }
          PourEntry(before, values, entry.field);
        }
        i := i + 1;
      }
      assert registry[..i] == registry;
    }

    /** `salvarTemplate`: a blank name is refused and changes nothing;
        otherwise one template is appended and the list is persisted. The
        id and creation date (a clock reading) are parameters. */
    method Save(specialty: Especialidade, id: string, dataCriacao: string) returns (saved: bool)
      modifies this
      ensures saved <==> !IsBlank(old(novoTemplateName))
      ensures !saved ==> templates == old(templates) && stored == old(stored) && novoTemplateName == old(novoTemplateName)
      ensures saved ==>
        templates == old(templates) + [Template(id, old(novoTemplateName), specialty, dataCriacao,
          TemplateData(formValues, specialty, registry))]
        && stored == SavedTemplates(templates) && novoTemplateName == ""
      ensures formValues == old(formValues) && templateSelecionado == old(templateSelecionado)
    {
      if IsBlank(novoTemplateName) {
        return false;
      }
      var dados: Record;
      if specialty == Todas {
        dados := formValues;
      } else {
        dados := CollectRelevant(formValues, specialty, registry);
      }
      templates := templates + [Template(id, novoTemplateName, specialty, dataCriacao, dados)];
      stored := SavedTemplates(templates);
      novoTemplateName := "";
      return true;
    }

    /** `carregarTemplate`: without a selection or with an unknown id
        nothing happens; otherwise the template is merged over the form
        and the selection cleared. */
    method Load()
      modifies this
      ensures (old(templateSelecionado).None? || old(templateSelecionado).value == ""
        || Find(templates, old(templateSelecionado).value).None?) ==>
          formValues == old(formValues) && templateSelecionado == old(templateSelecionado)
      ensures (old(templateSelecionado).Some? && old(templateSelecionado).value != ""
        && Find(templates, old(templateSelecionado).value).Some?) ==>
          formValues == Merge(old(formValues), Find(templates, old(templateSelecionado).value).value.dados)
          && templateSelecionado == None
      ensures templates == old(templates) && stored == old(stored) && novoTemplateName == old(novoTemplateName)
    {
      if templateSelecionado.None? || templateSelecionado.value == "" {
        return;
      }
      var template := Find(templates, templateSelecionado.value);
      if template.None? {
        return;
      }
      formValues := Merge(formValues, template.value.dados);
      templateSelecionado := None;
    }

    /** `excluirTemplate`: every template with the id goes, the rest stay
        in order, and the list is persisted. */
    method Delete(id: string)
      modifies this
      ensures templates == Without(old(templates), id)
      ensures stored == SavedTemplates(templates)
      ensures formValues == old(formValues) && novoTemplateName == old(novoTemplateName)
      ensures templateSelecionado == old(templateSelecionado)
    {
      templates := Without(templates, id);
      stored := SavedTemplates(templates);
    }
  }

  /** Deleting the id of a template saved later keeps the earlier ones. */
  lemma DeleteAfterSave(templates: seq<Template>, t: Template)
    requires forall i :: 0 <= i < |templates| ==> templates[i].id != t.id
    ensures Without(templates + [t], t.id) == templates
  {
    WithoutAppend(templates, [t], t.id);
    WithoutAbsent(templates, t.id);
    assert [t][..0] == [];
  }
}
