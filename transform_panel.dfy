/** The transform panel: three number inputs per vector of the selected
    light. Editing one input sends the whole vector of that key, with the
    edited entry replaced, to `updateLightTransform`. */
module TransformPanel {
  import opened JsValues
  import opened LightRecords
  import opened LightStore

  /** The three vectors the panel edits. */
  datatype TransformKey = Position | Rotation | Scale

  /** `light[property]` */
  function Vector(l: Light, key: TransformKey): seq<real> {
    match key
    case Position => l.position
    case Rotation => l.rotation
    case Scale => l.scale
  }

  /** `parseFloat(value) || 0`, given what `parseFloat` made of the input:
      the falsy numbers, `NaN` and zero, become 0. */
  function OrZero(n: Num): (r: Num)
    ensures !r.NaN?
    ensures n.NaN? ==> r == Finite(0.0)
    ensures !n.NaN? ==> r == n
  {
    if n.NaN? then Finite(0.0) else n
  }

  /** An update that carries only `key`. */
  function OnlyKey(key: TransformKey, v: JsArray): (t: TransformPatch)
    ensures t.position.Some? <==> key == Position
    ensures t.rotation.Some? <==> key == Rotation
    ensures t.scale.Some? <==> key == Scale
  {
    match key
    case Position => TransformPatch(Some(v), None, None)
    case Rotation => TransformPatch(None, Some(v), None)
    case Scale => TransformPatch(None, None, Some(v))
  }

  /** The vector an update carries for `key`. */
  function Sent(t: TransformPatch, key: TransformKey): Option<JsArray> {
    match key
    case Position => t.position
    case Rotation => t.rotation
    case Scale => t.scale
  }

  /** The update `handleChange(property, axis, value)` sends for light `l`:
      only the edited key, holding the stored vector with entry `axis`
      replaced by the parsed input. */
  function AxisEdit(l: Light, key: TransformKey, axis: nat, value: Num): (t: TransformPatch)
    requires axis < |Vector(l, key)|
    ensures forall other :: other != key ==> Sent(t, other).None?
    ensures Sent(t, key).Some? && Sent(t, key).value.ArrayOf?
    ensures |Sent(t, key).value.items| == |Vector(l, key)|
    ensures Sent(t, key).value.items[axis] == OrZero(value)
    ensures forall i :: 0 <= i < |Vector(l, key)| && i != axis ==>
      Sent(t, key).value.items[i] == Finite(Vector(l, key)[i])
  {
    OnlyKey(key, ArrayOf(Lift(Vector(l, key))[axis := OrZero(value)]))
  }

  /** The body of `handleChange` up to the store call: copy the stored
      vector into a new array and assign the one entry. */
  method BuildTransform(l: Light, key: TransformKey, axis: nat, value: Num) returns (t: TransformPatch)
    requires axis < |Vector(l, key)|
    ensures t == AxisEdit(l, key, axis, value)
  {
    var numValue := OrZero(value);
    var v := Vector(l, key);
    var copy := new Num[|v|](i requires 0 <= i < |v| => Finite(v[i]));
    copy[axis] := numValue;
    assert copy[..] == Lift(v)[axis := numValue];
    t := OnlyKey(key, ArrayOf(copy[..]));
  }

  /** `lights.find(l => l.id === selectedLight)`: nothing when nothing is
      selected or the selected id is not listed. */
  function SelectedLight(lights: seq<Light>, selected: Option<LightId>): (r: Option<Light>)
    ensures r.Some? ==> selected.Some? && r.value.id == selected.value && r.value in lights
    ensures r.None? <==> selected.None? || !HasLight(lights, selected.value)
  {
    if selected.None? then None else Find(lights, selected.value)
  }

  /** `handleChange(property, axis, value)` followed by the store's
      `updateLightTransform`. Without a selected listed light the panel is
      not shown and nothing is sent. */
  method HandleChange(store: Store, key: TransformKey, axis: nat, value: Num)
    requires store.Valid() && axis < 3
    modifies store
    ensures store.Valid()
    ensures store.selectedLight == old(store.selectedLight)
    ensures match SelectedLight(old(store.lights), old(store.selectedLight))
      case None => store.lights == old(store.lights)
      case Some(l) =>
        store.lights == old(store.lights)[FindIndex(old(store.lights), l.id) :=
          WithTransform(l, AxisEdit(l, key, axis, value))]
  {
    var light := SelectedLight(store.lights, store.selectedLight);
    if light.None? {
      return;
    }
    var l := light.value;
    ghost var index := FindIndex(store.lights, l.id);
    ghost var before := store.lights;
    assert WellFormed(before[index]);
    var t := BuildTransform(l, key, axis, value);
    store.UpdateLightTransform(l.id, t);
    forall k | 0 <= k < |before| && k != index ensures before[k].id != l.id {
      if before[k].id == l.id {
        FindIndexOnly(before, l.id, k);
      }
    }
  }

  /** Editing one vector resets the two vectors the update does not carry. */
  lemma AxisEditResetsOthers(l: Light, key: TransformKey, axis: nat, value: Num)
    requires axis < |Vector(l, key)|
    ensures key != Position ==> WithTransform(l, AxisEdit(l, key, axis, value)).position == [0.0, 0.0, 0.0]
    ensures key != Rotation ==> WithTransform(l, AxisEdit(l, key, axis, value)).rotation == [0.0, 0.0, 0.0]
    ensures key != Scale ==> WithTransform(l, AxisEdit(l, key, axis, value)).scale == [1.0, 1.0, 1.0]
  {
    var t := AxisEdit(l, key, axis, value);
    assert key != Position ==> Sent(t, Position).None?;
    assert key != Rotation ==> Sent(t, Rotation).None?;
    assert key != Scale ==> Sent(t, Scale).None?;
  }

  /** On a well-formed record, the entries of the edited vector other than
      `axis` are stored as they were. */
  lemma AxisEditKeepsOtherAxes(l: Light, key: TransformKey, axis: nat, value: Num)
    requires WellFormed(l) && axis < 3
    ensures forall i :: 0 <= i < 3 && i != axis ==>
      Vector(WithTransform(l, AxisEdit(l, key, axis, value)), key)[i] == Vector(l, key)[i]
  {
    var t := AxisEdit(l, key, axis, value);
    var r := WithTransform(l, t);
    forall i | 0 <= i < 3 && i != axis
      ensures Vector(r, key)[i] == Vector(l, key)[i]
    {
      assert Sent(t, key).value.items[i] == Finite(Vector(l, key)[i]);
      if key == Rotation {
        NormalizeAngleIdentity(l.rotation[i]);
      }
    }
  }

  /** What the edited entry becomes: a finite input is stored as typed
      (rotation wrapped into the record's range and equal up to whole turns,
      scale raised to its floor); an infinite one stores the default. */
  lemma AxisEditStoresInput(l: Light, key: TransformKey, axis: nat, value: Num)
    requires |Vector(l, key)| == 3 && axis < 3
    ensures var stored := Vector(WithTransform(l, AxisEdit(l, key, axis, value)), key)[axis];
      match OrZero(value)
      case Finite(x) =>
        && (key == Position ==> stored == x)
        && (key == Rotation ==> InRotationRange(stored) && Congruent(stored, x, 2.0 * PI))
        && (key == Rotation && InRotationRange(x) ==> stored == x)
        && (key == Scale ==> stored == Max(MinScale, x))
      case _ => stored == if key == Scale then 1.0 else 0.0
  {
    var t := AxisEdit(l, key, axis, value);
    var sent := Sent(t, key).value;
    assert IsTriple(sent) && sent.items[axis] == OrZero(value);
    if key == Rotation {
      var validated := ValidateArray(Field(t.rotation), 0.0, None);
      assert WithTransform(l, t).rotation[axis] == NormalizeAngle(Finite(validated[axis]));
      if OrZero(value).Finite? && InRotationRange(OrZero(value).value) {
        NormalizeAngleIdentity(OrZero(value).value);
      }
    }
  }

  /** Sending back the value an input shows changes nothing on a
      well-formed record. */
  lemma AxisEditUnchanged(l: Light, key: TransformKey, axis: nat)
    requires WellFormed(l) && axis < 3
    ensures Vector(WithTransform(l, AxisEdit(l, key, axis, Finite(Vector(l, key)[axis]))), key) == Vector(l, key)
  {
    var value := Finite(Vector(l, key)[axis]);
    var v := Vector(WithTransform(l, AxisEdit(l, key, axis, value)), key);
    AxisEditKeepsOtherAxes(l, key, axis, value);
    AxisEditStoresInput(l, key, axis, value);
    assert v[axis] == Vector(l, key)[axis];
    assert forall i :: 0 <= i < 3 ==> v[i] == Vector(l, key)[i];
  }

  /** `light[property][i] || (property === 'scale' ? 1 : 0)`: the number an
      input shows. A stored 0, or a missing entry, shows as 1 for scale and
      0 otherwise. */
  function DisplayValue(l: Light, key: TransformKey, i: nat): (r: real)
    ensures i < |Vector(l, key)| && Vector(l, key)[i] != 0.0 ==> r == Vector(l, key)[i]
    ensures key != Scale && i < |Vector(l, key)| ==> r == Vector(l, key)[i]
    ensures key == Scale ==> r != 0.0
    ensures !(i < |Vector(l, key)| && Vector(l, key)[i] != 0.0) ==> r == (if key == Scale then 1.0 else 0.0)
    ensures WellFormed(l) && i < 3 ==> r == Vector(l, key)[i]
  {
    var v := Vector(l, key);
    if i < |v| && v[i] != 0.0 then v[i]
    else if key == Scale then 1.0
    else 0.0
  }
}
