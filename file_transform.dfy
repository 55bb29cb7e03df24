/** The registry of file transforms (PhabricatorFileTransform): every loaded
    transform class is a template that generates one or more transforms,
    and all generated transforms are gathered into one map by transform key,
    built the first time it is asked for and kept for later calls.

    The classes the symbol loader finds are the parameter `loaded`; whether
    and how a transform applies to a file is not part of this model. */
module FileTransform {
  import opened Wrappers
  import opened Seqs
  import opened UniqueKeys

  datatype Transform = Transform(key: string, name: string)

  /** A loaded transform class: the transform it is itself, and the list it
      generates when it overrides generateTransforms (None: it does not). */
  datatype Template = Template(self: Transform, generates: Option<seq<Transform>>)

  function TransformKey(t: Transform): string {
    t.key
  }

  /** generateTransforms. */
  function GenerateTransforms(t: Template): (r: seq<Transform>)
    ensures t.generates.None? ==> r == [t.self]
  {
    match t.generates
    case None => [t.self]
    case Some(xforms) => xforms
  }

  /** Every transform the templates generate, template by template. */
  function AllGenerated(templates: seq<Template>): seq<Transform> {
    FlatMap(templates, GenerateTransforms)
  }

  /** The map getAllTransforms builds, or the clash that makes it throw. */
  function TransformMap(templates: seq<Template>): Result<map<string, Transform>, Clash<Transform>> {
    UniqueKeyMap(AllGenerated(templates), TransformKey)
  }

  /** Building throws exactly when two generated transforms share a key,
      and the exception names that key; otherwise every generated transform
      is in the map under its own key, and nothing else is. */
  lemma TransformMapSpec(templates: seq<Template>)
    ensures var all := AllGenerated(templates);
      TransformMap(templates).Err? <==>
        exists i, j :: 0 <= i < j < |all| && all[i].key == all[j].key
    ensures var all := AllGenerated(templates);
      TransformMap(templates).Err? ==>
        exists i, j :: 0 <= i < j < |all| && ClashAt(all, TransformKey, TransformMap(templates).error, i, j)
    ensures var all := AllGenerated(templates);
      TransformMap(templates).Ok? ==>
        (forall t :: t in all ==> t.key in TransformMap(templates).value && TransformMap(templates).value[t.key] == t) &&
        (forall k :: k in TransformMap(templates).value ==> exists i :: 0 <= i < |all| && all[i].key == k)
  {
    var all := AllGenerated(templates);
    OkIffDistinct(all, TransformKey);
    if TransformMap(templates).Err? {
      ErrNamesSharedKey(all, TransformKey);
    } else {
      OkHoldsEveryItem(all, TransformKey);
      KeysComeFromItems(all, TransformKey);
    }
  }

  /** When no template overrides generateTransforms, the transforms are the
      templates themselves, in order. */
  lemma {:induction false} DefaultTemplatesGenerateThemselves(templates: seq<Template>)
    requires forall i :: 0 <= i < |templates| ==> templates[i].generates.None?
    ensures |AllGenerated(templates)| == |templates|
    ensures forall i :: 0 <= i < |templates| ==> AllGenerated(templates)[i] == templates[i].self
  {
    if templates != [] {
      var init := templates[..|templates| - 1];
      DefaultTemplatesGenerateThemselves(init);
    }
  }

  /** The inner loop of getAllTransforms: add one template's transforms. */
  method AddGenerated(result0: map<string, Transform>, ghost before: seq<Transform>, xforms: seq<Transform>)
    returns (r: Result<map<string, Transform>, Clash<Transform>>)
    requires UniqueKeyMap(before, TransformKey) == Ok(result0)
    ensures r == UniqueKeyMap(before + xforms, TransformKey)
  {
    var result := result0;
    var j := 0;
    assert before + xforms[..0] == before;
    while j < |xforms|
      invariant 0 <= j <= |xforms|
      invariant UniqueKeyMap(before + xforms[..j], TransformKey) == Ok(result)
    {
      var xform := xforms[j];
      var key := xform.key;
      UniqueKeyMapSnoc(before + xforms[..j], xform, TransformKey);
      assert before + xforms[..j + 1] == before + xforms[..j] + [xform];
      if key in result {
        r := Err(Clash(key, result[key], xform));
        UniqueKeyMapErrStays(before + xforms[..j + 1], xforms[j + 1..], TransformKey);
        assert before + xforms[..j + 1] + xforms[j + 1..] == before + xforms;
        return;
      }
      result := result[key := xform];
      j := j + 1;
    }
    assert xforms[..|xforms|] == xforms;
    r := Ok(result);
  }

  /** The loops of getAllTransforms: throw at the first generated transform
      whose key is taken. */
  method BuildTransformMap(templates: seq<Template>) returns (r: Result<map<string, Transform>, Clash<Transform>>)
    ensures r == TransformMap(templates)
  {
    var result: map<string, Transform> := map[];
    for k := 0 to |templates|
      invariant UniqueKeyMap(AllGenerated(templates[..k]), TransformKey) == Ok(result)
    {
      assert templates[..k + 1][..k] == templates[..k];
      var step := AddGenerated(result, AllGenerated(templates[..k]), GenerateTransforms(templates[k]));
      if step.Err? {
        FlatMapAppend(templates[..k + 1], templates[k + 1..], GenerateTransforms);
        assert templates[..k + 1] + templates[k + 1..] == templates;
        UniqueKeyMapErrStays(AllGenerated(templates[..k + 1]), AllGenerated(templates[k + 1..]), TransformKey);
        return step;
      }
      result := step.value;
    }
    assert templates[..|templates|] == templates;
    r := Ok(result);
  }

  /** The static map of getAllTransforms. */
  class TransformRegistry {
    var cache: Option<map<string, Transform>>

    constructor()
      ensures cache == None
    {
      cache := None;
    }

    /** getAllTransforms: builds the map on the first call that succeeds and
        returns the kept map afterwards; a build that throws keeps nothing. */
    method AllTransforms(loaded: seq<Template>) returns (r: Result<map<string, Transform>, Clash<Transform>>)
      modifies this
      ensures old(cache).Some? ==> r == Ok(old(cache).value) && cache == old(cache)
      ensures old(cache).None? ==> r == TransformMap(loaded)
      ensures old(cache).None? ==> cache == (if r.Ok? then Some(r.value) else None)
    {
      if cache.None? {
        r := BuildTransformMap(loaded);
        if r.Ok? {
          cache := Some(r.value);
        }
      } else {
        r := Ok(cache.value);
      }
    }
  }
}
