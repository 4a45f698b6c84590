/** Drag-and-drop reordering of the light list (`handleDrop` of the light
    panel): copy the list, splice the dragged record out, splice it back in
    at the index the drop target had, and write the list back to the store. */
module UI {
  import opened LightRecords
  import opened LightStore

  /** The list without its entry at `i`. */
  function RemoveAt(s: seq<Light>, i: nat): (r: seq<Light>)
    requires i < |s|
    ensures |r| == |s| - 1
  {
    s[..i] + s[i + 1..]
  }

  /** The list with `x` inserted so that it ends up at index `i`. */
  function Insert(s: seq<Light>, i: nat, x: Light): (r: seq<Light>)
    requires i <= |s|
    ensures |r| == |s| + 1
  {
    s[..i] + [x] + s[i..]
  }

  /** The entry at `from` taken out and put back in at `to`, the index
      counted in the list after the removal. */
  function Moved(s: seq<Light>, from: nat, to: nat): (r: seq<Light>)
    requires from < |s| && to < |s|
    ensures |r| == |s|
  {
    Insert(RemoveAt(s, from), to, s[from])
  }

  /** Where the entry at `k` of `Moved(s, from, to)` comes from in `s`. */
  function MovedSource(from: nat, to: nat, k: nat): nat {
    if k == to then from
    else
      var j := if k < to then k else k - 1;
      if j < from then j else j + 1
  }

  /** Every entry of the moved list is an entry of the original list, at the
      index `MovedSource` gives. */
  lemma MovedAt(s: seq<Light>, from: nat, to: nat, k: nat)
    requires from < |s| && to < |s| && k < |s|
    ensures MovedSource(from, to, k) < |s|
    ensures Moved(s, from, to)[k] == s[MovedSource(from, to, k)]
  {
  }

  /** Distinct positions of the moved list come from distinct positions of
      the original. */
  lemma MovedSourceInjective(from: nat, to: nat, k1: nat, k2: nat)
    requires k1 != k2
    ensures MovedSource(from, to, k1) != MovedSource(from, to, k2)
  {
  }

  /** Moving is a permutation: the same records, each as often as before. */
  lemma MovedPermutation(s: seq<Light>, from: nat, to: nat)
    requires from < |s| && to < |s|
    ensures multiset(Moved(s, from, to)) == multiset(s)
  {
    var rest := RemoveAt(s, from);
    assert s == s[..from] + [s[from]] + s[from + 1..];
    assert multiset(s) == multiset(s[..from]) + multiset{s[from]} + multiset(s[from + 1..]);
    assert multiset(rest) == multiset(s[..from]) + multiset(s[from + 1..]);
    assert rest == rest[..to] + rest[to..];
    assert multiset(rest) == multiset(rest[..to]) + multiset(rest[to..]);
    assert Moved(s, from, to) == rest[..to] + [s[from]] + rest[to..];
    assert multiset(Moved(s, from, to)) == multiset(rest[..to]) + multiset{s[from]} + multiset(rest[to..]);
    assert multiset(Moved(s, from, to)) == multiset(rest) + multiset{s[from]};
  }

  /** The moved record lands at `to`, the index its drop target had. */
  lemma MovedLandsAtTarget(s: seq<Light>, from: nat, to: nat)
    requires from < |s| && to < |s|
    ensures Moved(s, from, to)[to] == s[from]
  {
  }

  /** Dragged down the list, the record lands right after its target;
      dragged up, right before it. */
  lemma MovedNextToTarget(s: seq<Light>, from: nat, to: nat)
    requires from < |s| && to < |s|
    ensures from < to ==> Moved(s, from, to)[to - 1] == s[to]
    ensures to < from ==> Moved(s, from, to)[to + 1] == s[to]
  {
    if from < to {
      MovedAt(s, from, to, to - 1);
    }
    if to < from {
      MovedAt(s, from, to, to + 1);
    }
  }

  /** All other records keep their relative order. */
  lemma MovedKeepsOthersInOrder(s: seq<Light>, from: nat, to: nat)
    requires from < |s| && to < |s|
    ensures RemoveAt(Moved(s, from, to), to) == RemoveAt(s, from)
  {
    var rest := RemoveAt(s, from);
    var m := Moved(s, from, to);
    assert m[..to] == rest[..to];
    assert m[to + 1..] == rest[to..];
  }

  /** Moving keeps ids unique and records well formed. */
  lemma MovedValid(s: seq<Light>, from: nat, to: nat)
    requires from < |s| && to < |s|
    requires UniqueIds(s) && AllWellFormed(s)
    ensures UniqueIds(Moved(s, from, to)) && AllWellFormed(Moved(s, from, to))
  {
    var m := Moved(s, from, to);
    forall k1, k2 | 0 <= k1 < |m| && 0 <= k2 < |m| && m[k1].id == m[k2].id
      ensures k1 == k2
    {
      MovedAt(s, from, to, k1);
      MovedAt(s, from, to, k2);
      if k1 != k2 {
        MovedSourceInjective(from, to, k1, k2);
      }
    }
    forall k | 0 <= k < |m| ensures WellFormed(m[k]) {
      MovedAt(s, from, to, k);
    }
  }

  /** The list `handleDrop` leaves in the store when `sourceId` is dropped on
      `targetId`. */
  function Reordered(lights: seq<Light>, sourceId: LightId, targetId: LightId): (r: seq<Light>)
    ensures |r| == |lights|
    ensures sourceId == targetId ==> r == lights
    ensures !HasLight(lights, sourceId) || !HasLight(lights, targetId) ==> r == lights
  {
    if sourceId == targetId then lights
    else
      var sourceIndex := FindIndex(lights, sourceId);
      var targetIndex := FindIndex(lights, targetId);
      if sourceIndex == -1 || targetIndex == -1 then lights
      else Moved(lights, sourceIndex, targetIndex)
  }

  /** A drop of one listed record on another: the dragged record now sits
      where its target was, and the list is a permutation of the old one. */
  lemma ReorderedMoves(lights: seq<Light>, sourceId: LightId, targetId: LightId)
    requires sourceId != targetId && HasLight(lights, sourceId) && HasLight(lights, targetId)
    ensures multiset(Reordered(lights, sourceId, targetId)) == multiset(lights)
    ensures Reordered(lights, sourceId, targetId)[FindIndex(lights, targetId)] == lights[FindIndex(lights, sourceId)]
    ensures Reordered(lights, sourceId, targetId)[FindIndex(lights, targetId)].id == sourceId
  {
    var sourceIndex := FindIndex(lights, sourceId);
    var targetIndex := FindIndex(lights, targetId);
    MovedPermutation(lights, sourceIndex, targetIndex);
    MovedLandsAtTarget(lights, sourceIndex, targetIndex);
  }

  /** `newLights.splice(index, 1)` on a buffer that keeps its length: the
      entries after `index` move one slot down; the last slot is no longer
      part of the list. */
  method SpliceOut(a: array<Light>, index: nat) returns (removed: Light)
    requires index < a.Length
    modifies a
    ensures removed == old(a[index])
    ensures a[..a.Length - 1] == RemoveAt(old(a[..]), index)
  {
    ghost var s := a[..];
    removed := a[index];
    var k := index;
    while k < a.Length - 1
      invariant index <= k <= a.Length - 1
      invariant forall j :: 0 <= j < index ==> a[j] == s[j]
      invariant forall j :: index <= j < k ==> a[j] == s[j + 1]
      invariant forall j :: k <= j < a.Length ==> a[j] == s[j]
    {
      a[k] := a[k + 1];
      k := k + 1;
    }
    ghost var r := RemoveAt(s, index);
    forall j | 0 <= j < a.Length - 1 ensures a[j] == r[j] {
      if j < index {
        assert r[j] == s[..index][j];
      } else {
        assert r[j] == s[index + 1..][j - index];
      }
    }
    assert a[..a.Length - 1] == r;
  }

  /** `newLights.splice(index, 0, x)` on a buffer whose first `len` slots
      hold the list: the entries from `index` on move one slot up and `x`
      takes slot `index`. */
  method SpliceIn(a: array<Light>, len: nat, index: nat, x: Light)
    requires len < a.Length && index <= len
    modifies a
    ensures a[..len + 1] == Insert(old(a[..len]), index, x)
  {
    ghost var s := a[..len];
    var k := len;
    while k > index
      invariant index <= k <= len
      invariant forall j :: 0 <= j < k ==> a[j] == s[j]
      invariant forall j :: k < j <= len ==> a[j] == s[j - 1]
    {
      a[k] := a[k - 1];
      k := k - 1;
    }
    a[index] := x;
    ghost var r := Insert(s, index, x);
    forall j | 0 <= j <= len ensures a[j] == r[j] {
      if j < index {
        assert r[j] == s[..index][j];
      } else if j > index {
        assert r[j] == s[index..][j - index - 1];
      }
    }
    assert a[..len + 1] == r;
  }

  /** `handleDrop` with the dragged record's id `sourceId`, as read from the
      drag data, dropped on the record `targetId`. */
  method HandleDrop(store: Store, sourceId: LightId, targetId: LightId)
    requires store.Valid()
    modifies store
    ensures store.Valid()
    ensures store.lights == Reordered(old(store.lights), sourceId, targetId)
    ensures store.selectedLight == old(store.selectedLight)
  {
    if sourceId == targetId {
      return;
    }
    var lights := store.lights;
    var sourceIndex := FindIndex(lights, sourceId);
    var targetIndex := FindIndex(lights, targetId);
    if sourceIndex != -1 && targetIndex != -1 {
      var newLights := new Light[|lights|](i requires 0 <= i < |lights| => lights[i]);
      assert newLights[..] == lights;
      var removed := SpliceOut(newLights, sourceIndex);
      SpliceIn(newLights, |lights| - 1, targetIndex, removed);
      assert newLights[..] == newLights[..|lights|];
      MovedValid(lights, sourceIndex, targetIndex);
      store.SetLights(newLights[..]);
    }
  }
}
