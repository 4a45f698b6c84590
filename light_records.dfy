/** The light record of the light store and the pure helpers the store's
    actions are built from: default construction, vector validation, rotation
    wrapping, the transform and property updates of one record, duplication,
    and the list helpers `find`, `findIndex` and `filter` by id. */
module LightRecords {
  import opened JsValues

  /** An opaque unique identifier (a uuid in the application). */
  type LightId = string

  /** The ray categories of `rayVisibility`. */
  const RayKinds: set<string> := {"diffuse", "glossy", "transmission", "volumeScatter"}

  /** Every ray category visible. */
  const DefaultRayVisibility: map<string, bool> :=
    map["diffuse" := true, "glossy" := true, "transmission" := true, "volumeScatter" := true]

  /** Floor of every scale entry after a transform update. */
  const MinScale: real := 0.1

  /** Floor of the radius after a property update. */
  const MinRadius: real := 0.1

  /** The `type` of a light: the four values the editor creates. */
  datatype LightType = Point | Spot | Directional | Area

  /** The string the record holds for its type. */
  function TypeName(t: LightType): string {
    match t
    case Point => "point"
    case Spot => "spot"
    case Directional => "directional"
    case Area => "area"
  }

  /** A light record. `kind` is the record's `type`; `shape` is `None` where
      the record holds `undefined`. */
  datatype Light = Light(
    id: LightId,
    name: string,
    kind: LightType,
    position: seq<real>,
    rotation: seq<real>,
    scale: seq<real>,
    power: real,
    color: string,
    radius: real,
    softFalloff: bool,
    shadow: bool,
    shadowBias: real,
    shadowRadius: real,
    angle: real,
    penumbra: real,
    rayVisibility: map<string, bool>,
    shape: Option<string>)

  /** Every rotation entry a transform update can store: the wrapping keeps
      entries at or above -pi in [-pi, pi) and sends those below into
      (-3 pi, -pi]. */
  predicate InRotationRange(x: real) {
    -3.0 * PI < x < PI
  }

  /** What every record in the store satisfies. */
  ghost predicate WellFormed(l: Light) {
    && |l.position| == 3 && |l.rotation| == 3 && |l.scale| == 3
    && (forall i :: 0 <= i < 3 ==> MinScale <= l.scale[i])
    && (forall i :: 0 <= i < 3 ==> InRotationRange(l.rotation[i]))
    && 0.0 <= l.power
    && MinRadius <= l.radius
    && 0.0 <= l.angle <= PI
    && 0.0 <= l.penumbra <= 1.0
    && RayKinds <= l.rayVisibility.Keys
    && (l.shape.Some? <==> l.kind == Area)
  }

  /** `createDefaultLight(type)`, with the uuid passed in as `id`. */
  function CreateDefaultLight(kind: LightType, id: LightId): (l: Light)
    ensures l.id == id && l.kind == kind && l.name == ""
    ensures l.position == [0.0, 5.0, 0.0] && l.rotation == [0.0, 0.0, 0.0] && l.scale == [1.0, 1.0, 1.0]
    ensures l.power == 1000.0 && l.color == "#ffffff" && l.radius == 5.0
    ensures l.softFalloff && l.shadow && l.shadowBias == -0.001 && l.shadowRadius == 1.0
    ensures l.angle == PI / 3.0 && l.penumbra == 0.5
    ensures WellFormed(l)
    ensures l.shape.Some? <==> kind == Area
    ensures l.shape.Some? ==> l.shape.value == "rectangle"
    ensures l.rayVisibility.Keys == RayKinds
    ensures forall k :: k in RayKinds ==> l.rayVisibility[k]
  {
    Light(
      id := id,
      name := "",
      kind := kind,
      position := [0.0, 5.0, 0.0],
      rotation := [0.0, 0.0, 0.0],
      scale := [1.0, 1.0, 1.0],
      power := 1000.0,
      color := "#ffffff",
      radius := 5.0,
      softFalloff := true,
      shadow := true,
      shadowBias := -0.001,
      shadowRadius := 1.0,
      angle := PI / 3.0,
      penumbra := 0.5,
      rayVisibility := DefaultRayVisibility,
      shape := if kind == Area then Some("rectangle") else None)
  }

  // ---------------------------------------------------------------- vectors

  /** The input is an array of exactly three entries. */
  predicate IsTriple(arr: JsArray) {
    arr.ArrayOf? && |arr.items| == 3
  }

  /** One entry of `validateArray`: a non-finite entry becomes the default,
      a finite one is raised to the floor when there is one. */
  function ValidateEntry(v: Num, default: real, minValue: Option<real>): (r: real)
    ensures !IsFinite(v) ==> r == default
    ensures IsFinite(v) && minValue.None? ==> r == v.value
    ensures IsFinite(v) && minValue.Some? ==> minValue.value <= r && v.value <= r
    ensures IsFinite(v) && minValue.Some? ==> r == v.value || r == minValue.value
  {
    if !IsFinite(v) then default
    else if minValue.Some? then Max(minValue.value, v.value)
    else v.value
  }

  /** `validateArray(arr, defaultValue, minValue)`. */
  function ValidateArray(arr: JsArray, default: real, minValue: Option<real>): (r: seq<real>)
    ensures |r| == 3
    ensures !IsTriple(arr) ==> r == [default, default, default]
    ensures IsTriple(arr) ==> forall i :: 0 <= i < 3 && !IsFinite(arr.items[i]) ==> r[i] == default
    ensures IsTriple(arr) ==> forall i :: 0 <= i < 3 && IsFinite(arr.items[i]) ==>
      if minValue.Some? && arr.items[i].value < minValue.value then r[i] == minValue.value
      else r[i] == arr.items[i].value
    ensures minValue.Some? && minValue.value <= default ==>
      forall i :: 0 <= i < 3 ==> minValue.value <= r[i]
  {
    if !IsTriple(arr) then [default, default, default]
    else seq(3, i requires 0 <= i < 3 => ValidateEntry(arr.items[i], default, minValue))
  }

  /** Validating an already validated vector changes nothing. */
  lemma ValidateArrayIdempotent(arr: JsArray, default: real, minValue: Option<real>)
    requires minValue.Some? ==> minValue.value <= default
    ensures ValidateArray(ArrayOf(Lift(ValidateArray(arr, default, minValue))), default, minValue)
         == ValidateArray(arr, default, minValue)
  {
  }

  /** One entry of `normalizeRotation`: `((v + Math.PI) % (Math.PI * 2)) - Math.PI`
      with JavaScript's truncating `%`, and 0 for a non-finite entry. */
  function NormalizeAngle(v: Num): (r: real)
    ensures InRotationRange(r)
    ensures !IsFinite(v) ==> r == 0.0
    ensures IsFinite(v) && -PI <= v.value ==> -PI <= r < PI
    ensures IsFinite(v) && v.value < -PI ==> r <= -PI
    ensures IsFinite(v) ==> Congruent(r, v.value, 2.0 * PI)
  {
    if !IsFinite(v) then 0.0
    else
      TruncRemBounds(v.value + PI, 2.0 * PI);
      TruncRem(v.value + PI, 2.0 * PI) - PI
  }

  /** Wrapping leaves every angle it can produce where it is; in particular
      it is the identity on [-pi, pi). */
  lemma NormalizeAngleIdentity(x: real)
    requires InRotationRange(x)
    ensures NormalizeAngle(Finite(x)) == x
  {
    TruncRemSmall(x + PI, 2.0 * PI);
  }

  /** Wrapping twice is wrapping once. */
  lemma NormalizeAngleIdempotent(v: Num)
    ensures NormalizeAngle(Finite(NormalizeAngle(v))) == NormalizeAngle(v)
  {
    NormalizeAngleIdentity(NormalizeAngle(v));
  }

  /** An angle below -pi is not brought into [-pi, pi): -2 pi stays -2 pi. */
  lemma NormalizeAngleBelowRange()
    ensures NormalizeAngle(Finite(-2.0 * PI)) == -2.0 * PI < -PI
  {
    NormalizeAngleIdentity(-2.0 * PI);
  }

  /** `normalizeRotation(rotation)`. */
  function NormalizeRotation(rotation: seq<Num>): (r: seq<real>)
    ensures |r| == |rotation|
    ensures forall i :: 0 <= i < |r| ==> r[i] == NormalizeAngle(rotation[i])
  {
    seq(|rotation|, i requires 0 <= i < |rotation| => NormalizeAngle(rotation[i]))
  }

  // ------------------------------------------------------ transform update

  /** The partial update of `updateLightTransform`; `None` is an absent key. */
  datatype TransformPatch = TransformPatch(
    position: Option<JsArray>,
    rotation: Option<JsArray>,
    scale: Option<JsArray>)

  /** Reading a key of a partial update: an absent key reads as `undefined`,
      which is not an array. */
  function Field(key: Option<JsArray>): (arr: JsArray)
    ensures key.None? ==> arr.NotArray?
  {
    if key.Some? then key.value else NotArray
  }

  /** The record that `updateLightTransform` puts in place of `l`. All three
      vectors are rebuilt, so a key absent from the update resets its vector. */
  function WithTransform(l: Light, t: TransformPatch): (r: Light)
    ensures r.(position := l.position, rotation := l.rotation, scale := l.scale) == l
    ensures |r.position| == 3 && |r.rotation| == 3 && |r.scale| == 3
    ensures forall i :: 0 <= i < 3 ==> MinScale <= r.scale[i]
    ensures forall i :: 0 <= i < 3 ==> InRotationRange(r.rotation[i])
    ensures !IsTriple(Field(t.position)) ==> r.position == [0.0, 0.0, 0.0]
    ensures !IsTriple(Field(t.rotation)) ==> r.rotation == [0.0, 0.0, 0.0]
    ensures !IsTriple(Field(t.scale)) ==> r.scale == [1.0, 1.0, 1.0]
    ensures r.position == ValidateArray(Field(t.position), 0.0, None)
    ensures r.scale == ValidateArray(Field(t.scale), 1.0, Some(MinScale))
    ensures IsTriple(Field(t.rotation)) ==>
      forall i :: 0 <= i < 3 ==> r.rotation[i] == NormalizeAngle(Field(t.rotation).items[i])
    ensures WellFormed(l) ==> WellFormed(r)
  {
    NormalizeAngleIdentity(0.0);
    l.(position := ValidateArray(Field(t.position), 0.0, None),
       rotation := NormalizeRotation(Lift(ValidateArray(Field(t.rotation), 0.0, None))),
       scale := ValidateArray(Field(t.scale), 1.0, Some(MinScale)))
  }

  /** Sending `{rotation: [0, 0, 0]}` stores `[0, 0, 0]`. */
  lemma ZeroRotationRoundTrip(l: Light)
    ensures WithTransform(l, TransformPatch(None, Some(ArrayOf([Finite(0.0), Finite(0.0), Finite(0.0)])), None)).rotation
         == [0.0, 0.0, 0.0]
  {
    NormalizeAngleIdentity(0.0);
  }

  /** A stored rotation sent back unchanged is stored unchanged: wrapping is
      the identity on every entry a record can hold. */
  lemma RotationRoundTrip(l: Light)
    requires WellFormed(l)
    ensures WithTransform(l, TransformPatch(None, Some(ArrayOf(Lift(l.rotation))), None)).rotation == l.rotation
  {
    forall i | 0 <= i < 3
      ensures NormalizeAngle(Finite(l.rotation[i])) == l.rotation[i]
    {
      NormalizeAngleIdentity(l.rotation[i]);
    }
  }

  /** Sending back all three stored vectors of a well-formed record leaves
      it as it is. */
  lemma TransformRoundTrip(l: Light)
    requires WellFormed(l)
    ensures WithTransform(l, TransformPatch(Some(ArrayOf(Lift(l.position))),
                                            Some(ArrayOf(Lift(l.rotation))),
                                            Some(ArrayOf(Lift(l.scale))))) == l
  {
    var r := WithTransform(l, TransformPatch(Some(ArrayOf(Lift(l.position))),
                                             Some(ArrayOf(Lift(l.rotation))),
                                             Some(ArrayOf(Lift(l.scale)))));
    RotationRoundTrip(l);
    assert r.rotation == l.rotation;
    assert r.position == l.position;
    assert r.scale == l.scale;
  }

  // ----------------------------------------------------- property update

  /** The partial update of `updateLightProperties`. A numeric key is `Some`
      when `typeof` gives `'number'`, a boolean key when it gives `'boolean'`;
      `rayVisibility` is `Some` when it is an object. */
  datatype PropertiesPatch = PropertiesPatch(
    name: Option<string>,
    power: Option<real>,
    radius: Option<real>,
    angle: Option<real>,
    penumbra: Option<real>,
    color: Option<string>,
    softFalloff: Option<bool>,
    shadow: Option<bool>,
    shadowBias: Option<real>,
    shadowRadius: Option<real>,
    rayVisibility: Option<map<string, bool>>,
    shape: Option<string>)

  /** A string key is truthy when it is present and not empty. */
  predicate Truthy(s: Option<string>) {
    s.Some? && s.value != ""
  }

  /** `{...defaultRayVisibility, ...given}`: later keys win. */
  function MergeRays(given: map<string, bool>): (r: map<string, bool>)
    ensures r.Keys == RayKinds + given.Keys
    ensures forall k :: k in given ==> r[k] == given[k]
    ensures forall k :: k in RayKinds && k !in given ==> r[k]
  {
    DefaultRayVisibility + given
  }

  /** `Math.max(lo, Math.min(hi, x))` */
  function Clamp(lo: real, hi: real, x: real): (r: real)
    requires lo <= hi
    ensures lo <= r <= hi
    ensures lo <= x <= hi ==> r == x
    ensures x < lo ==> r == lo
    ensures hi < x ==> r == hi
  {
    Max(lo, Min(hi, x))
  }

  /** A numeric key raised to `floor` (`Math.max(floor, value)`), or
      `current` when the key is not a number. */
  function FloorKey(floor: real, key: Option<real>, current: real): (r: real)
    ensures key.None? ==> r == current
    ensures key.Some? ==> floor <= r && (floor <= key.value ==> r == key.value)
    ensures key.Some? && key.value < floor ==> r == floor
  {
    if key.Some? then Max(floor, key.value) else current
  }

  /** A numeric key clamped to [lo, hi], or `current` when the key is not a
      number. */
  function ClampKey(lo: real, hi: real, key: Option<real>, current: real): (r: real)
    requires lo <= hi
    ensures key.None? ==> r == current
    ensures key.Some? ==> r == Clamp(lo, hi, key.value)
  {
    if key.Some? then Clamp(lo, hi, key.value) else current
  }

  /** A string key when it is truthy, `current` otherwise. */
  function TruthyKey(key: Option<string>, current: string): (r: string)
    ensures Truthy(key) ==> r == key.value
    ensures !Truthy(key) ==> r == current
  {
    if Truthy(key) then key.value else current
  }

  /** The ray visibility after an update: merged over the defaults when the
      update carries one, `current` otherwise. */
  function RaysKey(key: Option<map<string, bool>>, current: map<string, bool>): (r: map<string, bool>)
    ensures key.None? ==> r == current
    ensures key.Some? ==> r == MergeRays(key.value)
  {
    if key.Some? then MergeRays(key.value) else current
  }

  /** The shape after an update: taken from a truthy key for an area light
      only. */
  function ShapeKey(kind: LightType, key: Option<string>, current: Option<string>): (r: Option<string>)
    ensures r == if Truthy(key) && kind == Area then key else current
  {
    if Truthy(key) && kind == Area then key else current
  }

  /** The record that `updateLightProperties` puts in place of `l`: a copy
      of `l` in which each key the update carries (a number for the numeric
      keys, a boolean for the flags, a truthy value for `color`,
      `rayVisibility` and `shape`, anything but `undefined` for `name`) is
      assigned after validation. `id`, `type` and the transform are never
      touched. */
  function Patched(l: Light, p: PropertiesPatch): (r: Light)
    ensures r.id == l.id && r.kind == l.kind
    ensures r.position == l.position && r.rotation == l.rotation && r.scale == l.scale
    ensures r.name == p.name.GetOr(l.name)
    ensures p.power.None? ==> r.power == l.power
    ensures p.power.Some? ==> r.power == Max(0.0, p.power.value)
    ensures p.radius.None? ==> r.radius == l.radius
    ensures p.radius.Some? ==> r.radius == Max(MinRadius, p.radius.value)
    ensures p.angle.None? ==> r.angle == l.angle
    ensures p.angle.Some? ==> r.angle == Clamp(0.0, PI, p.angle.value)
    ensures p.penumbra.None? ==> r.penumbra == l.penumbra
    ensures p.penumbra.Some? ==> r.penumbra == Clamp(0.0, 1.0, p.penumbra.value)
    ensures r.color == if Truthy(p.color) then p.color.value else l.color
    ensures r.softFalloff == p.softFalloff.GetOr(l.softFalloff)
    ensures r.shadow == p.shadow.GetOr(l.shadow)
    ensures r.shadowBias == p.shadowBias.GetOr(l.shadowBias)
    ensures r.shadowRadius == p.shadowRadius.GetOr(l.shadowRadius)
    ensures p.rayVisibility.None? ==> r.rayVisibility == l.rayVisibility
    ensures p.rayVisibility.Some? ==> r.rayVisibility == MergeRays(p.rayVisibility.value)
    ensures r.shape == if Truthy(p.shape) && l.kind == Area then p.shape else l.shape
  {
    l.(name := p.name.GetOr(l.name),
       power := FloorKey(0.0, p.power, l.power),
       radius := FloorKey(MinRadius, p.radius, l.radius),
       angle := ClampKey(0.0, PI, p.angle, l.angle),
       penumbra := ClampKey(0.0, 1.0, p.penumbra, l.penumbra),
       color := TruthyKey(p.color, l.color),
       softFalloff := p.softFalloff.GetOr(l.softFalloff),
       shadow := p.shadow.GetOr(l.shadow),
       shadowBias := p.shadowBias.GetOr(l.shadowBias),
       shadowRadius := p.shadowRadius.GetOr(l.shadowRadius),
       rayVisibility := RaysKey(p.rayVisibility, l.rayVisibility),
       shape := ShapeKey(l.kind, p.shape, l.shape))
  }

  /** A property update keeps a well-formed record well formed. */
  lemma PatchedWellFormed(l: Light, p: PropertiesPatch)
    requires WellFormed(l)
    ensures WellFormed(Patched(l, p))
  {
  }

  /** An update that carries no key leaves the record as it is. */
  lemma EmptyPatchKeepsLight(l: Light)
    ensures Patched(l, PropertiesPatch(None, None, None, None, None, None, None, None, None, None, None, None)) == l
  {
  }

  /** Applying the same property update twice is applying it once. */
  lemma PatchedIdempotent(l: Light, p: PropertiesPatch)
    ensures Patched(Patched(l, p), p) == Patched(l, p)
  {
  }

  // ----------------------------------------------------------- duplication

  /** The copy `duplicateLight` appends, with the uuid passed in as `freshId`. */
  function Duplicate(l: Light, freshId: LightId): (c: Light)
    requires |l.position| == 3
    ensures c.id == freshId
    ensures c.name == (if l.name == "" then TypeName(l.kind) else l.name) + " Copy"
    ensures c.position == [l.position[0] + 1.0, l.position[1], l.position[2]]
    ensures c.(id := l.id, name := l.name, position := l.position) == l
    ensures WellFormed(l) ==> WellFormed(c)
  {
    l.(id := freshId,
       name := (if l.name == "" then TypeName(l.kind) else l.name) + " Copy",
       position := [l.position[0] + 1.0, l.position[1], l.position[2]])
  }

  // ------------------------------------------------------------ the list

  predicate HasLight(lights: seq<Light>, id: LightId) {
    exists i :: 0 <= i < |lights| && lights[i].id == id
  }

  /** No two records share an id. */
  ghost predicate UniqueIds(lights: seq<Light>) {
    forall i, j :: 0 <= i < |lights| && 0 <= j < |lights| && lights[i].id == lights[j].id ==> i == j
  }

  ghost predicate AllWellFormed(lights: seq<Light>) {
    forall i :: 0 <= i < |lights| ==> WellFormed(lights[i])
  }

  /** `lights.findIndex(l => l.id === id)`. */
  function FindIndex(lights: seq<Light>, id: LightId): (r: int)
    ensures -1 <= r < |lights|
    ensures r == -1 <==> !HasLight(lights, id)
    ensures 0 <= r ==> lights[r].id == id && forall j :: 0 <= j < r ==> lights[j].id != id
  {
    if |lights| == 0 then -1
    else if lights[0].id == id then 0
    else
      var k := FindIndex(lights[1..], id);
      assert forall j :: 1 <= j < |lights| ==> lights[j] == lights[1..][j - 1];
      if k == -1 then -1 else k + 1
  }

  /** `lights.find(l => l.id === id)`. */
  function Find(lights: seq<Light>, id: LightId): (r: Option<Light>)
    ensures r.None? <==> !HasLight(lights, id)
    ensures r.Some? ==> r.value == lights[FindIndex(lights, id)]
  {
    var i := FindIndex(lights, id);
    if i < 0 then None else Some(lights[i])
  }

  /** In a list with unique ids, the record found is the only one with that id. */
  lemma FindIndexOnly(lights: seq<Light>, id: LightId, k: int)
    requires UniqueIds(lights) && 0 <= k < |lights| && lights[k].id == id
    ensures FindIndex(lights, id) == k
  {
  }

  /** `lights.filter(light => light.id !== id)`. */
  function Without(lights: seq<Light>, id: LightId): (r: seq<Light>)
    ensures forall l :: l in r <==> l in lights && l.id != id
    ensures |r| <= |lights|
    ensures !HasLight(lights, id) ==> r == lights
  {
    if |lights| == 0 then []
    else if lights[0].id == id then Without(lights[1..], id)
    else
      assert !HasLight(lights, id) ==> !HasLight(lights[1..], id) by {
        if HasLight(lights[1..], id) {
          var j :| 0 <= j < |lights[1..]| && lights[1..][j].id == id;
          assert lights[j + 1].id == id;
        }
      }
      [lights[0]] + Without(lights[1..], id)
  }

  /** Filtering keeps the original order: it distributes over concatenation. */
  lemma {:induction false} WithoutConcat(a: seq<Light>, b: seq<Light>, id: LightId)
    ensures Without(a + b, id) == Without(a, id) + Without(b, id)
  {
    if |a| == 0 {
      assert a + b == b;
    } else {
      assert (a + b)[1..] == a[1..] + b;
      WithoutConcat(a[1..], b, id);
    }
  }

  /** Filtering keeps ids unique. */
  lemma {:induction false} WithoutUnique(lights: seq<Light>, id: LightId)
    requires UniqueIds(lights)
    ensures UniqueIds(Without(lights, id))
  {
    if |lights| > 0 {
      var rest := lights[1..];
      assert UniqueIds(rest) by {
        forall i, j | 0 <= i < |rest| && 0 <= j < |rest| && rest[i].id == rest[j].id
          ensures i == j
        {
          assert lights[i + 1].id == lights[j + 1].id;
        }
      }
      WithoutUnique(rest, id);
      if lights[0].id != id {
        var r := Without(rest, id);
        forall l | l in r ensures l.id != lights[0].id {
          var j :| 0 <= j < |rest| && rest[j] == l;
          assert lights[j + 1] == l;
        }
        var s := [lights[0]] + r;
        forall i, j | 0 <= i < |s| && 0 <= j < |s| && s[i].id == s[j].id
          ensures i == j
        {
          if i > 0 { assert s[i] == r[i - 1] && s[i] in r; }
          if j > 0 { assert s[j] == r[j - 1] && s[j] in r; }
        }
      }
    }
  }

  /** Filtering keeps every record well formed. */
  lemma WithoutWellFormed(lights: seq<Light>, id: LightId)
    requires AllWellFormed(lights)
    ensures AllWellFormed(Without(lights, id))
  {
    var r := Without(lights, id);
    forall i | 0 <= i < |r| ensures WellFormed(r[i]) {
      assert r[i] in lights;
    }
  }

  /** With unique ids, removing a present id removes exactly one record. */
  lemma {:induction false} WithoutRemovesOne(lights: seq<Light>, id: LightId)
    requires UniqueIds(lights) && HasLight(lights, id)
    ensures |Without(lights, id)| == |lights| - 1
  {
    var rest := lights[1..];
    assert UniqueIds(rest) by {
      forall i, j | 0 <= i < |rest| && 0 <= j < |rest| && rest[i].id == rest[j].id
        ensures i == j
      {
        assert lights[i + 1].id == lights[j + 1].id;
      }
    }
    if lights[0].id == id {
      forall j | 0 <= j < |rest| ensures rest[j].id != id {
        assert rest[j] == lights[j + 1];
      }
    } else {
      var j :| 0 <= j < |lights| && lights[j].id == id;
      assert rest[j - 1].id == id;
      WithoutRemovesOne(rest, id);
    }
  }

  /** Appending a record whose id is not in use keeps ids unique. */
  lemma AppendFresh(lights: seq<Light>, l: Light)
    requires UniqueIds(lights) && !HasLight(lights, l.id)
    ensures UniqueIds(lights + [l])
  {
    var s := lights + [l];
    forall i, j | 0 <= i < |s| && 0 <= j < |s| && s[i].id == s[j].id
      ensures i == j
    {
    }
  }

  /** Removing the id of a record just appended with a fresh id gives back
      the list as it was. */
  lemma {:induction false} WithoutAppended(lights: seq<Light>, l: Light)
    requires !HasLight(lights, l.id)
    ensures Without(lights + [l], l.id) == lights
  {
    WithoutConcat(lights, [l], l.id);
    assert [l][1..] == [];
  }

  // ------------------------------------------------------------ selection

  /** `state.selectedLight === id ? null : id`. */
  function Toggled(current: Option<LightId>, id: Option<LightId>): (r: Option<LightId>)
    ensures r.None? <==> current == id || id.None?
    ensures r.Some? ==> r == id
  {
    if current == id then None else id
  }

  /** Selecting the same id twice comes back to no selection only when it
      was not selected to begin with. */
  lemma ToggleTwice(current: Option<LightId>, id: Option<LightId>)
    ensures Toggled(Toggled(current, id), id) == if current == id then id else None
  {
  }
}
