/** The light store: the ordered list of light records and the selected id,
    with the actions that replace them. The uuid each new record receives is
    passed in by the caller and must not be in use. */
module LightStore {
  import opened JsValues
  import opened LightRecords

  class Store {
    var lights: seq<Light>
    var selectedLight: Option<LightId>

    /** Ids are unique and every record is well formed. */
    ghost predicate Valid()
      reads this
    {
      UniqueIds(lights) && AllWellFormed(lights)
    }

    /** The selection is empty or names a record in the list. `selectLight`
        accepts any id, so only callers that pass listed ids keep this. */
    ghost predicate SelectionValid()
      reads this
    {
      selectedLight.Some? ==> HasLight(lights, selectedLight.value)
    }

    /** The initial state: no lights, nothing selected. */
    constructor ()
      ensures Valid() && SelectionValid()
      ensures lights == [] && selectedLight == None
    {
      lights := [];
      selectedLight := None;
    }

    /** `addLight(type)`: append a default record and select it. */
    method AddLight(kind: LightType, freshId: LightId)
      requires Valid() && !HasLight(lights, freshId)
      modifies this
      ensures Valid() && SelectionValid()
      ensures lights == old(lights) + [CreateDefaultLight(kind, freshId)]
      ensures selectedLight == Some(freshId)
    {
      var light := CreateDefaultLight(kind, freshId);
      AppendFresh(lights, light);
      lights, selectedLight := lights + [light], Some(light.id);
      assert lights[|lights| - 1].id == freshId;
    }

    /** `removeLight(id)`: drop every record with this id and clear the
        selection when it was this id. */
    method RemoveLight(id: LightId)
      requires Valid()
      modifies this
      ensures Valid()
      ensures lights == Without(old(lights), id)
      ensures selectedLight == if old(selectedLight) == Some(id) then None else old(selectedLight)
      ensures old(SelectionValid()) ==> SelectionValid()
    {
      ghost var before := lights;
      WithoutUnique(lights, id);
      WithoutWellFormed(lights, id);
      lights := Without(lights, id);
      selectedLight := if selectedLight == Some(id) then None else selectedLight;
      if old(SelectionValid()) && selectedLight.Some? {
        var j :| 0 <= j < |before| && before[j].id == selectedLight.value;
        assert before[j] in lights;
        var k :| 0 <= k < |lights| && lights[k] == before[j];
      }
    }

    /** `selectLight(id)`: toggle the selection. */
    method SelectLight(id: Option<LightId>)
      requires Valid()
      modifies this
      ensures Valid()
      ensures lights == old(lights)
      ensures selectedLight == Toggled(old(selectedLight), id)
      ensures (id.None? || HasLight(lights, id.value)) ==> SelectionValid()
    {
      selectedLight := if selectedLight == id then None else id;
    }

    /** `duplicateLight(id)`: append a copy of the first record with this id
        and select it; nothing happens when no record has this id. */
    method DuplicateLight(id: LightId, freshId: LightId)
      requires Valid() && !HasLight(lights, freshId)
      modifies this
      ensures Valid()
      ensures old(SelectionValid()) ==> SelectionValid()
      ensures match Find(old(lights), id)
        case None => lights == old(lights) && selectedLight == old(selectedLight)
        case Some(original) =>
          && lights == old(lights) + [Duplicate(original, freshId)]
          && selectedLight == Some(freshId)
    {
      var found := Find(lights, id);
      if found.None? {
        return;
      }
      var newLight := Duplicate(found.value, freshId);
      AppendFresh(lights, newLight);
      lights, selectedLight := lights + [newLight], Some(newLight.id);
      assert lights[|lights| - 1].id == freshId;
    }

    /** `updateLightTransform(id, transform)`: rebuild the transform of every
        record with this id. */
    method UpdateLightTransform(id: LightId, transform: TransformPatch)
      requires Valid()
      modifies this
      ensures Valid()
      ensures selectedLight == old(selectedLight)
      ensures |lights| == |old(lights)|
      ensures forall k :: 0 <= k < |lights| ==>
        lights[k] == if old(lights)[k].id == id then WithTransform(old(lights)[k], transform) else old(lights)[k]
    {
      var current := lights;
      lights := seq(|current|, k requires 0 <= k < |current| =>
        if current[k].id == id then WithTransform(current[k], transform) else current[k]);
      assert forall i, j :: 0 <= i < |lights| && 0 <= j < |lights| ==>
        lights[i].id == current[i].id && lights[j].id == current[j].id;
    }

    /** `updateLightProperties(id, properties)`: patch every record with
        this id. */
    method UpdateLightProperties(id: LightId, properties: PropertiesPatch)
      requires Valid()
      modifies this
      ensures Valid()
      ensures selectedLight == old(selectedLight)
      ensures |lights| == |old(lights)|
      ensures forall k :: 0 <= k < |lights| ==>
        lights[k] == if old(lights)[k].id == id then Patched(old(lights)[k], properties) else old(lights)[k]
    {
      var current := lights;
      lights := seq(|current|, k requires 0 <= k < |current| =>
        if current[k].id == id then Patched(current[k], properties) else current[k]);
      forall k | 0 <= k < |lights| ensures WellFormed(lights[k]) {
        if current[k].id == id {
          PatchedWellFormed(current[k], properties);
        }
      }
      assert forall i, j :: 0 <= i < |lights| && 0 <= j < |lights| ==>
        lights[i].id == current[i].id && lights[j].id == current[j].id;
    }

    /** `useLightStore.setState({ lights })`: replace the list, keep the
        selection. */
    method SetLights(newLights: seq<Light>)
      modifies this
      ensures lights == newLights
      ensures selectedLight == old(selectedLight)
    {
      lights := newLights;
    }
  }
}
