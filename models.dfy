/** The model registry as the mention components see it: providers, their
    models, and the app functions they call on a model. */
module Models {

  datatype Model = Model(id: string, provider: string, name: string, group: string)

  datatype Provider = Provider(id: string, name: string, isSystem: bool, models: seq<Model>)

  /** App functions the mention components call and this model does not look
      into: `getModelUniqId`, `isEmbeddingModel`, `isRerankModel` and the
      translation function `t`. */
  datatype Catalog = Catalog(
    uniqId: Model -> string,
    isEmbedding: Model -> bool,
    isRerank: Model -> bool,
    translate: string -> string)

  /** The name shown for a provider: the translated `provider.<id>` key for a
      system provider, its own name otherwise. */
  function ProviderDisplayName(cat: Catalog, p: Provider): string
  {
    if p.isSystem then cat.translate("provider." + p.id) else p.name
  }

  /** The unique ids of a sequence of models, in order. */
  function UniqIds(cat: Catalog, models: seq<Model>): (r: seq<string>)
    ensures |r| == |models|
    ensures forall i :: 0 <= i < |models| ==> r[i] == cat.uniqId(models[i])
    decreases |models|
  {
    if models == [] then [] else [cat.uniqId(models[0])] + UniqIds(cat, models[1..])
  }

  lemma UniqIdsAppend(cat: Catalog, a: seq<Model>, b: seq<Model>)
    ensures UniqIds(cat, a + b) == UniqIds(cat, a) + UniqIds(cat, b)
  {
    assert forall i :: 0 <= i < |a + b| ==> UniqIds(cat, a + b)[i] == (UniqIds(cat, a) + UniqIds(cat, b))[i];
  }

  /** How many of `models` have unique id `id`. */
  function Occurrences(cat: Catalog, models: seq<Model>, id: string): nat
  {
    multiset(UniqIds(cat, models))[id]
  }

  /** One more model adds one to its own id's count and nothing to any other. */
  lemma OccurrencesSnoc(cat: Catalog, models: seq<Model>, m: Model)
    ensures forall id ::
      Occurrences(cat, models + [m], id) == Occurrences(cat, models, id) + (if cat.uniqId(m) == id then 1 else 0)
  {
    UniqIdsAppend(cat, models, [m]);
    assert UniqIds(cat, [m]) == [cat.uniqId(m)];
  }
}
