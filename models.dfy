/**
 * The model registry (`useModels`): the selectable models and the current
 * selection. Both actions return a replacement state.
 */
module Models {
  import opened Wrappers
  import opened JsArray

  /** A selectable model; `isCustom` and `apiKey` are optional in the source. */
  datatype Model = Model(id: string, name: string, isCustom: Option<bool>, apiKey: Option<string>)

  datatype Registry = Registry(models: seq<Model>, selectedModel: Model)

  /** The invariant: the current selection is one of the listed models. */
  predicate Valid(s: Registry)
  {
    s.selectedModel in s.models
  }

  /** The test `selectModel` hands to `find`. */
  function HasId(id: string): Model -> bool
  {
    (m: Model) => m.id == id
  }

  /** The seeded registry: three built-in models, "gemini-pro" selected. */
  function InitialRegistry(): (r: Registry)
    ensures |r.models| == 3
    ensures r.selectedModel.id == "gemini-pro" && r.selectedModel == r.models[0]
    ensures Valid(r)
  {
    Registry(
      [ Model("gemini-pro", "Gemini Pro", None, None),
        Model("gemini-pro-vision", "Gemini Pro Vision", None, None),
        Model("gemini-ultra", "Gemini Ultra", None, None) ],
      Model("gemini-pro", "Gemini Pro", None, None))
  }

  /** `addCustomModel`: appends, with no duplicate check, and leaves the selection alone. */
  function AddCustomModel(s: Registry, m: Model): (r: Registry)
    ensures |r.models| == |s.models| + 1 && r.models[..|s.models|] == s.models && r.models[|s.models|] == m
    ensures r.selectedModel == s.selectedModel
  {
    s.(models := s.models + [m])
  }

  /**
   * `selectModel`: the first model with this id, or the current selection
   * when there is none (`find(...) || selectedModel`; a found model is
   * always truthy).
   */
  function SelectModel(s: Registry, id: string): (r: Registry)
    ensures r.models == s.models
    ensures (exists k :: 0 <= k < |s.models| && s.models[k].id == id) ==>
      r.selectedModel in s.models && r.selectedModel.id == id
    ensures (forall k :: 0 <= k < |s.models| ==> s.models[k].id != id) ==> r.selectedModel == s.selectedModel
  {
    match Find(s.models, HasId(id))
    case Some(m) => s.(selectedModel := m)
    case None => s
  }

  /** With the id present, `selectModel` picks the first model that has it. */
  lemma SelectFirstMatch(s: Registry, id: string, k: nat)
    requires k < |s.models| && s.models[k].id == id
    requires forall j :: 0 <= j < k ==> s.models[j].id != id
    ensures SelectModel(s, id).selectedModel == s.models[k]
  {
    FindFirst(s.models, HasId(id), k);
  }

  /** Selecting the same id twice is selecting it once. */
  lemma SelectIdempotent(s: Registry, id: string)
    ensures SelectModel(SelectModel(s, id), id) == SelectModel(s, id)
  {
  }

  /** Both actions keep the selection among the listed models. */
  lemma ValidPreserved(s: Registry, m: Model, id: string)
    requires Valid(s)
    ensures Valid(AddCustomModel(s, m))
    ensures Valid(SelectModel(s, id))
  {
    assert s.selectedModel in (s.models + [m])[..|s.models|];
  }
}
