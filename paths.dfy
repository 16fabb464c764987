/** get_path: the dataset root chosen from the configured number of
    classes and whether the pre-sampled variant is used. */
module Paths {
  import opened PyStr

  const ModelNet40: string := "data/ModelNet40"
  const ModelNet10: string := "data/ModelNet10"
  const SampledSuffix: string := "-1024"

  /** get_path's default arguments: ModelNet40, pre-sampled. */
  const DefaultClasses: int := 40
  const DefaultSampled: bool := true

  /** The root of ModelNet40 only for exactly 40 classes; any other
      value falls back to ModelNet10. The "-1024" suffix marks the
      pre-sampled variant and appears exactly when it is asked for. */
  function GetPath(classes: int, sampled: bool): (p: string)
    ensures |p| >= |ModelNet40|
    ensures p[..|ModelNet40|] == ModelNet40 <==> classes == 40
    ensures p[..|ModelNet10|] == ModelNet10 <==> classes != 40
    ensures EndsWith(p, SampledSuffix) <==> sampled
    ensures |p| == |ModelNet40| + (if sampled then |SampledSuffix| else 0)
    ensures !sampled ==> p in {ModelNet40, ModelNet10}
  {
    var additional := if sampled then SampledSuffix else "";
    assert ModelNet40 + "" == ModelNet40 && ModelNet10 + "" == ModelNet10;
    if classes == 40 then ModelNet40 + additional else ModelNet10 + additional
  }
}
