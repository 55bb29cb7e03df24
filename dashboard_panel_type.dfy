/** The registry of dashboard panel types (PhabricatorDashboardPanelType):
    every loaded panel type class is put into one map by its panel type key,
    built the first time it is asked for and kept for later calls.

    The classes the symbol loader finds are the parameter `loaded`. */
module DashboardPanelType {
  import opened Wrappers
  import opened UniqueKeys

  datatype PanelType = PanelType(className: string, key: string, name: string, description: string)

  function PanelTypeKey(p: PanelType): string {
    p.key
  }

  /** The map getAllPanelTypes builds, or the clash that makes it throw. */
  function PanelTypeMap(objects: seq<PanelType>): Result<map<string, PanelType>, Clash<PanelType>> {
    UniqueKeyMap(objects, PanelTypeKey)
  }

  /** The exception's message: the class being added, then the class already
      registered under the key. */
  function ClashMessage(c: Clash<PanelType>): string
  {
    "Two dashboard panels (of classes \"" + c.incoming.className + "\" and \"" + c.existing.className +
    "\") have the same panel type key (\"" + c.key + "\"). Each panel type must have a unique panel type key."
  }

  /** Building throws exactly when two panel types share a key, and the
      exception names the earlier and the later of two such classes;
      otherwise each panel type is stored under its own key and the map has
      one entry per loaded object. */
  lemma PanelTypeMapSpec(objects: seq<PanelType>)
    ensures PanelTypeMap(objects).Err? <==>
      exists i, j :: 0 <= i < j < |objects| && objects[i].key == objects[j].key
    ensures PanelTypeMap(objects).Err? ==>
      exists i, j :: 0 <= i < j < |objects| && ClashAt(objects, PanelTypeKey, PanelTypeMap(objects).error, i, j)
    ensures PanelTypeMap(objects).Ok? ==>
      |PanelTypeMap(objects).value| == |objects| &&
      forall i :: 0 <= i < |objects| ==>
        objects[i].key in PanelTypeMap(objects).value && PanelTypeMap(objects).value[objects[i].key] == objects[i]
  {
    OkIffDistinct(objects, PanelTypeKey);
    if PanelTypeMap(objects).Err? {
      ErrNamesSharedKey(objects, PanelTypeKey);
    } else {
      OkHoldsEveryItem(objects, PanelTypeKey);
    }
  }

  /** The loop of getAllPanelTypes: throw at the first object whose key is
      taken. A stored panel type is never empty, so the source's emptiness
      test is a presence test here. */
  method BuildPanelTypeMap(objects: seq<PanelType>) returns (r: Result<map<string, PanelType>, Clash<PanelType>>)
    ensures r == PanelTypeMap(objects)
  {
    var types: map<string, PanelType> := map[];
    for k := 0 to |objects|
      invariant UniqueKeyMap(objects[..k], PanelTypeKey) == Ok(types)
    {
      var panel := objects[k];
      var key := panel.key;
      UniqueKeyMapSnoc(objects[..k], panel, PanelTypeKey);
      assert objects[..k + 1] == objects[..k] + [panel];
      if key in types {
        r := Err(Clash(key, types[key], panel));
        UniqueKeyMapErrStays(objects[..k + 1], objects[k + 1..], PanelTypeKey);
        assert objects[..k + 1] + objects[k + 1..] == objects;
        return;
      }
      types := types[key := panel];
    }
    assert objects[..|objects|] == objects;
    r := Ok(types);
  }

  /** The static map of getAllPanelTypes. */
  class PanelTypeRegistry {
    var cache: Option<map<string, PanelType>>

    constructor()
      ensures cache == None
    {
      cache := None;
    }

    /** getAllPanelTypes: builds the map on the first call that succeeds and
        returns the kept map afterwards; a build that throws keeps nothing. */
    method AllPanelTypes(loaded: seq<PanelType>) returns (r: Result<map<string, PanelType>, Clash<PanelType>>)
      modifies this
      ensures old(cache).Some? ==> r == Ok(old(cache).value) && cache == old(cache)
      ensures old(cache).None? ==> r == PanelTypeMap(loaded)
      ensures old(cache).None? ==> cache == (if r.Ok? then Some(r.value) else None)
    {
      if cache.None? {
        r := BuildPanelTypeMap(loaded);
        if r.Ok? {
          cache := Some(r.value);
        }
      } else {
        r := Ok(cache.value);
      }
    }
  }
}
