/**
  The point store of main.js: the `points` array and the `selectedPoint`
  reference, changed by addPoint, deletePoint, selectPoint and the data
  half of onControlsChange.

  Each operation is specified by a function on the store's abstract
  state (State); the lemmas below prove what the operations promise and
  that they keep the store invariant Inv. The class PointStore holds the
  state in fields and implements the operations as methods.
*/
module Store {

  import opened Wrappers
  import opened Projection
  import opened Names

  /** Stands in for the UUIDs of generateUUID: a counter hands out fresh ids. */
  type PointId = nat

  /** The three predefined geometries of the `geometries` table. */
  datatype Shape = Sphere | Cone | Octahedron

  /**
    The material a point's mesh shows: the clone of the default material
    it gets at creation, the shared default material selectPoint puts
    back, or the shared "selected" material.
  */
  datatype Material = OwnDefault | SharedDefault | Highlight

  /**
    The part of a three.js mesh the store touches: its position, its
    geometry (None for a logic other than the three the select offers),
    whether it was turned so that a cone points up, and its material.
  */
  datatype Mesh = Mesh(position: Vec3, geometry: Option<Shape>, tiltedUp: bool, material: Material)

  datatype SemioticPoint = SemioticPoint(id: PointId, name: string, values: Values, mesh: Mesh)

  /** The module-level `points` and `selectedPoint`, and the id counter. */
  datatype State = State(points: seq<SemioticPoint>, selected: Option<PointId>, nextId: PointId)

  /** The lookup `geometries[logic]` for the three logics the select offers. */
  function GeometryFor(logic: string): (g: Option<Shape>)
    ensures g == Some(Sphere) <==> logic == "Rheme"
    ensures g == Some(Cone) <==> logic == "Dicent"
    ensures g == Some(Octahedron) <==> logic == "Argument"
    ensures g == None <==> logic != "Rheme" && logic != "Dicent" && logic != "Argument"
  {
    if logic == "Rheme" then Some(Sphere)
    else if logic == "Dicent" then Some(Cone)
    else if logic == "Argument" then Some(Octahedron)
    else None
  }

  function Ids(ps: seq<SemioticPoint>): set<PointId>
  {
    set p | p in ps :: p.id
  }

  predicate UniqueIds(ps: seq<SemioticPoint>)
  {
    forall i, j :: 0 <= i < j < |ps| ==> ps[i].id != ps[j].id
  }

  predicate IsHighlighted(p: SemioticPoint)
  {
    p.mesh.material == Highlight
  }

  /** The mesh shows what the values say: the projected position and the logic's geometry. */
  predicate InSync(a: Anchors, p: SemioticPoint)
  {
    p.mesh.position == ValuesToPosition(a, p.values) && p.mesh.geometry == GeometryFor(p.values.logic)
  }

  /**
    The store invariant: ids are unique and below the counter, the
    selection is null or the id of a stored point, exactly the selected
    point shows the selected material, and every mesh is in sync with
    its values.
  */
  predicate Inv(a: Anchors, s: State)
  {
    && UniqueIds(s.points)
    && (forall p :: p in s.points ==> p.id < s.nextId)
    && (s.selected.Some? ==> s.selected.value in Ids(s.points))
    && (forall p :: p in s.points ==> (IsHighlighted(p) <==> s.selected == Some(p.id)))
    && (forall p :: p in s.points ==> InSync(a, p))
  }

  function WithMaterial(p: SemioticPoint, m: Material): SemioticPoint
  {
    p.(mesh := p.mesh.(material := m))
  }

  /** The point addPoint builds: a mesh of the logic's geometry at the projected position. */
  function NewPoint(a: Anchors, id: PointId, name: string, v: Values): (p: SemioticPoint)
    ensures p.id == id && p.name == name && p.values == v
    ensures InSync(a, p) && !IsHighlighted(p)
    ensures p.mesh.tiltedUp <==> v.logic == "Dicent"
  {
    SemioticPoint(id, name, v, Mesh(ValuesToPosition(a, v), GeometryFor(v.logic), v.logic == "Dicent", OwnDefault))
  }

  /**
    One point after selectPoint(id) with previous selection `prev`: the
    previous selection gets the default material, then the new one gets
    the selected material.
  */
  function Reselect(p: SemioticPoint, prev: Option<PointId>, id: PointId): SemioticPoint
  {
    if p.id == id then WithMaterial(p, Highlight)
    else if prev == Some(p.id) then WithMaterial(p, SharedDefault)
    else p
  }

  function ReselectAll(ps: seq<SemioticPoint>, prev: Option<PointId>, id: PointId): (r: seq<SemioticPoint>)
  {
    seq(|ps|, i requires 0 <= i < |ps| => Reselect(ps[i], prev, id))
  }

  /** The points other than the one with id `id`, in their order. */
  function Without(ps: seq<SemioticPoint>, id: PointId): (r: seq<SemioticPoint>)
    ensures |r| <= |ps|
    ensures forall p :: p in r <==> p in ps && p.id != id
  {
    if ps == [] then []
    else if ps[0].id == id then Without(ps[1..], id)
    else [ps[0]] + Without(ps[1..], id)
  }

  /**
    The selected point after onControlsChange with values `v`: the values
    are overwritten, the position recomputed, and the geometry replaced
    when it is not the one of the new logic.
  */
  function Edited(a: Anchors, p: SemioticPoint, v: Values): (q: SemioticPoint)
    ensures q.id == p.id && q.name == p.name && q.values == v
    ensures InSync(a, q)
    ensures q.mesh.material == p.mesh.material && q.mesh.tiltedUp == p.mesh.tiltedUp
  {
    var g := GeometryFor(v.logic);
    p.(values := v,
       mesh := p.mesh.(position := ValuesToPosition(a, v),
                       geometry := if p.mesh.geometry != g then g else p.mesh.geometry))
  }

  function EditAll(a: Anchors, ps: seq<SemioticPoint>, sid: PointId, v: Values): seq<SemioticPoint>
  {
    seq(|ps|, i requires 0 <= i < |ps| => if ps[i].id == sid then Edited(a, ps[i], v) else ps[i])
  }

  /** selectPoint. */
  function AfterSelect(s: State, id: PointId): (t: State)
    ensures t.selected == Some(id) && t.nextId == s.nextId && |t.points| == |s.points|
    ensures forall i :: 0 <= i < |t.points| ==>
      t.points[i].id == s.points[i].id && t.points[i].values == s.points[i].values
      && (t.points[i].id == id ==> IsHighlighted(t.points[i]))
  {
    State(ReselectAll(s.points, s.selected, id), Some(id), s.nextId)
  }

  /** addPoint: refuse a blank name, otherwise append a fresh point and select it. */
  function AfterAdd(a: Anchors, s: State, name: Option<string>, v: Values): (t: State)
    ensures IsRejectedName(name) ==> t == s
    ensures !IsRejectedName(name) ==>
      && |t.points| == |s.points| + 1 && t.nextId == s.nextId + 1
      && t.points[|s.points|].id == s.nextId && t.points[|s.points|].values == v
      && t.selected == Some(s.nextId) && IsHighlighted(t.points[|s.points|])
  {
    if IsRejectedName(name) then s
    else AfterSelect(State(s.points + [NewPoint(a, s.nextId, name.value, v)], s.selected, s.nextId + 1), s.nextId)
  }

  /** deletePoint: remove the point with that id, clearing the selection if it was selected. */
  function AfterDelete(s: State, id: PointId): (t: State)
    ensures id !in Ids(s.points) ==> t == s
    ensures id !in Ids(t.points) && Ids(t.points) == Ids(s.points) - {id}
    ensures id in Ids(s.points) ==> t.selected != Some(id)
    ensures t.nextId == s.nextId
    ensures s.selected != Some(id) ==> t.selected == s.selected
  {
    if id !in Ids(s.points) then s
    else State(Without(s.points, id), if s.selected == Some(id) then None else s.selected, s.nextId)
  }

  /** The data half of onControlsChange. */
  function AfterControls(a: Anchors, s: State, v: Values): (t: State)
    ensures t.selected == s.selected && t.nextId == s.nextId && |t.points| == |s.points|
    ensures forall i :: 0 <= i < |t.points| && t.points[i] != s.points[i] ==>
      s.selected == Some(s.points[i].id) && t.points[i] == Edited(a, s.points[i], v)
  {
    match s.selected
    case None => s
    case Some(sid) => s.(points := EditAll(a, s.points, sid, v))
  }

  /** findIndex on the id: the first index holding that id, or -1. */
  method FindIndex(ps: seq<SemioticPoint>, id: PointId) returns (index: int)
    ensures -1 <= index < |ps|
    ensures index == -1 <==> id !in Ids(ps)
    ensures 0 <= index ==> ps[index].id == id && forall j :: 0 <= j < index ==> ps[j].id != id
  {
    index := 0;
    while index < |ps|
      invariant 0 <= index <= |ps|
      invariant forall j :: 0 <= j < index ==> ps[j].id != id
    {
      if ps[index].id == id {
        return;
      }
      index := index + 1;
    }
    index := -1;
  }

  lemma IdAt(ps: seq<SemioticPoint>, id: PointId) returns (k: nat)
    requires id in Ids(ps)
    ensures k < |ps| && ps[k].id == id
  {
    var p :| p in ps && p.id == id;
    k :| 0 <= k < |ps| && ps[k] == p;
  }

  lemma {:induction false} WithoutAbsent(ps: seq<SemioticPoint>, id: PointId)
    requires id !in Ids(ps)
    ensures Without(ps, id) == ps
  {
    if ps != [] {
      assert ps[0] in ps;
      assert Ids(ps[1..]) <= Ids(ps) by {
        forall q | q in Ids(ps[1..]) ensures q in Ids(ps) {
          var p :| p in ps[1..] && p.id == q;
          assert p in ps;
        }
      }
      WithoutAbsent(ps[1..], id);
    }
  }

  lemma TailUnique(ps: seq<SemioticPoint>)
    requires UniqueIds(ps) && ps != []
    ensures UniqueIds(ps[1..]) && ps[0].id !in Ids(ps[1..])
  {
    var tail := ps[1..];
    forall i, j | 0 <= i < j < |tail| ensures tail[i].id != tail[j].id {
      assert tail[i] == ps[i + 1] && tail[j] == ps[j + 1];
    }
  }

  /** Splicing out the point at index k removes exactly the point with its id. */
  lemma {:induction false} SpliceIsWithout(ps: seq<SemioticPoint>, k: nat)
    requires UniqueIds(ps) && k < |ps|
    ensures ps[..k] + ps[k + 1..] == Without(ps, ps[k].id)
  {
    var id := ps[k].id;
    var tail := ps[1..];
    TailUnique(ps);
    if k == 0 {
      WithoutAbsent(tail, id);
      assert ps[..k] + ps[k + 1..] == tail;
    } else {
      assert tail[k - 1] == ps[k];
      SpliceIsWithout(tail, k - 1);
      assert ps[0].id != id;
      assert ps[..k] + ps[k + 1..] == [ps[0]] + (tail[..k - 1] + tail[k..]);
    }
  }

  /** Under the invariant, at most one point shows the selected material. */
  lemma AtMostOneHighlighted(a: Anchors, s: State)
    requires Inv(a, s)
    ensures forall i, j :: 0 <= i < |s.points| && 0 <= j < |s.points| && IsHighlighted(s.points[i]) && IsHighlighted(s.points[j]) ==> i == j
  {
    forall i, j | 0 <= i < |s.points| && 0 <= j < |s.points| && IsHighlighted(s.points[i]) && IsHighlighted(s.points[j])
      ensures i == j
    {
      assert s.points[i] in s.points && s.points[j] in s.points;
    }
  }

  /**
    After selectPoint(id) the selection is `id`, only the selected
    material changes, exactly the point with id `id` shows it, and the
    previously selected point gets the default material back.
  */
  lemma SelectEffect(a: Anchors, s: State, id: PointId)
    requires Inv(a, s) && id in Ids(s.points)
    ensures var t := AfterSelect(s, id);
      && t.selected == Some(id) && t.nextId == s.nextId && |t.points| == |s.points|
      && (forall i :: 0 <= i < |s.points| ==>
            && t.points[i] == WithMaterial(s.points[i], t.points[i].mesh.material)
            && (IsHighlighted(t.points[i]) <==> s.points[i].id == id)
            && (s.points[i].id != id && IsHighlighted(s.points[i]) ==> t.points[i].mesh.material == SharedDefault)
            && (s.points[i].id != id && !IsHighlighted(s.points[i]) ==> t.points[i] == s.points[i]))
  {
    forall i | 0 <= i < |s.points|
      ensures s.points[i].id != id && !IsHighlighted(s.points[i]) ==> AfterSelect(s, id).points[i] == s.points[i]
    {
      assert s.points[i] in s.points;
    }
    forall i | 0 <= i < |s.points|
      ensures s.points[i].id != id && IsHighlighted(s.points[i]) ==> AfterSelect(s, id).points[i].mesh.material == SharedDefault
    {
      assert s.points[i] in s.points;
    }
  }

  /**
    The two assignments of selectPoint, the default material on the
    record of the previous selection and then the selected material on
    the record of `id`, give ReselectAll.
  */
  lemma SelectSteps(ps: seq<SemioticPoint>, prev: Option<PointId>, id: PointId, k: int, j: int)
    requires UniqueIds(ps)
    requires prev.Some? ==> prev.value in Ids(ps)
    requires prev.Some? ==> 0 <= k < |ps| && ps[k].id == prev.value
    requires prev.None? ==> k == -1
    requires -1 <= j < |ps| && (j == -1 <==> id !in Ids(ps)) && (0 <= j ==> ps[j].id == id)
    requires id in Ids(ps)
    ensures 0 <= j && k < |ps|
    ensures var ps1 := if k >= 0 then ps[k := WithMaterial(ps[k], SharedDefault)] else ps;
      ps1[j := WithMaterial(ps1[j], Highlight)] == ReselectAll(ps, prev, id)
  {
    var ps1 := if k >= 0 then ps[k := WithMaterial(ps[k], SharedDefault)] else ps;
    var ps2 := ps1[j := WithMaterial(ps1[j], Highlight)];
    forall i | 0 <= i < |ps| ensures ps2[i] == Reselect(ps[i], prev, id) {
      if i == j {
      } else if i == k {
        assert ps[i].id != id;
      } else {
        assert ps[i].id != id;
        assert prev.Some? ==> ps[i].id != prev.value;
      }
    }
  }

  lemma SelectPreservesInv(a: Anchors, s: State, id: PointId)
    requires Inv(a, s) && id in Ids(s.points)
    ensures Inv(a, AfterSelect(s, id))
  {
    var t := AfterSelect(s, id);
    assert forall i :: 0 <= i < |t.points| ==> t.points[i].id == s.points[i].id;
    forall p | p in t.points
      ensures p.id < t.nextId && InSync(a, p) && (IsHighlighted(p) <==> t.selected == Some(p.id))
    {
      var i :| 0 <= i < |t.points| && t.points[i] == p;
      assert s.points[i] in s.points;
    }
    var k := IdAt(s.points, id);
    assert t.points[k] in t.points;
  }

  /** Selecting the point that is already selected changes nothing: there is no toggle. */
  lemma SelectIdempotent(a: Anchors, s: State, id: PointId)
    requires Inv(a, s) && s.selected == Some(id)
    ensures AfterSelect(s, id) == s
  {
    var t := AfterSelect(s, id);
    forall i | 0 <= i < |s.points| ensures t.points[i] == s.points[i] {
      assert s.points[i] in s.points;
    }
  }

  /**
    addPoint with a null, empty or blank name changes nothing. Otherwise
    the points grow by one record, appended at the end, with an id no
    stored point has, its values, and the projected position; it is the
    new selection and the only one with the selected material, and the
    earlier points keep everything but the material of the previous
    selection, which reverts to the default.
  */
  lemma AddEffect(a: Anchors, s: State, name: Option<string>, v: Values)
    requires Inv(a, s)
    ensures IsRejectedName(name) ==> AfterAdd(a, s, name, v) == s
    ensures !IsRejectedName(name) ==> var t := AfterAdd(a, s, name, v);
      && |t.points| == |s.points| + 1
      && s.nextId !in Ids(s.points)
      && t.points[|s.points|] == WithMaterial(NewPoint(a, s.nextId, name.value, v), Highlight)
      && t.points[|s.points|].mesh.position == ValuesToPosition(a, v)
      && t.selected == Some(s.nextId)
      && (forall i :: 0 <= i < |s.points| ==>
            t.points[i] == if s.selected == Some(s.points[i].id) then WithMaterial(s.points[i], SharedDefault) else s.points[i])
  {
    if !IsRejectedName(name) {
      assert s.nextId !in Ids(s.points);
      var u := State(s.points + [NewPoint(a, s.nextId, name.value, v)], s.selected, s.nextId + 1);
      var t := AfterAdd(a, s, name, v);
      forall i | 0 <= i < |s.points|
        ensures t.points[i] == if s.selected == Some(s.points[i].id) then WithMaterial(s.points[i], SharedDefault) else s.points[i]
      {
        assert s.points[i] in s.points;
        assert u.points[i] == s.points[i];
      }
    }
  }

  /** The state addPoint pushes onto before it selects: the new point is appended, nothing selected yet changes. */
  lemma PushPreservesInv(a: Anchors, s: State, name: string, v: Values)
    requires Inv(a, s)
    ensures var u := State(s.points + [NewPoint(a, s.nextId, name, v)], s.selected, s.nextId + 1);
      Inv(a, u) && s.nextId in Ids(u.points)
  {
    var p := NewPoint(a, s.nextId, name, v);
    var u := State(s.points + [p], s.selected, s.nextId + 1);
    assert s.nextId !in Ids(s.points);
    assert p in u.points;
    forall i, j | 0 <= i < j < |u.points| ensures u.points[i].id != u.points[j].id {
      assert u.points[i] in s.points;
      if j < |s.points| { assert u.points[j] == s.points[j]; }
    }
    if s.selected.Some? {
      var k := IdAt(s.points, s.selected.value);
      assert u.points[k] in u.points;
    }
  }

  lemma AddPreservesInv(a: Anchors, s: State, name: Option<string>, v: Values)
    requires Inv(a, s)
    ensures Inv(a, AfterAdd(a, s, name, v))
  {
    if !IsRejectedName(name) {
      PushPreservesInv(a, s, name.value, v);
      var u := State(s.points + [NewPoint(a, s.nextId, name.value, v)], s.selected, s.nextId + 1);
      SelectPreservesInv(a, u, s.nextId);
    }
  }

  /**
    deletePoint with an unknown id changes nothing. With a known id it
    removes exactly that point and keeps the others in order, and the
    selection becomes null exactly when the removed point was selected.
  */
  lemma DeleteEffect(a: Anchors, s: State, id: PointId)
    requires Inv(a, s)
    ensures id !in Ids(s.points) ==> AfterDelete(s, id) == s
    ensures forall k :: 0 <= k < |s.points| && s.points[k].id == id ==>
      var t := AfterDelete(s, id);
      && t.points == s.points[..k] + s.points[k + 1..]
      && |t.points| == |s.points| - 1
      && id !in Ids(t.points)
      && t.nextId == s.nextId
      && (t.selected == None <==> s.selected == Some(id) || s.selected == None)
      && (s.selected != Some(id) ==> t.selected == s.selected)
  {
    forall k | 0 <= k < |s.points| && s.points[k].id == id
      ensures AfterDelete(s, id).points == s.points[..k] + s.points[k + 1..]
    {
      assert s.points[k] in s.points;
      SpliceIsWithout(s.points, k);
    }
  }

  lemma SpliceUnique(ps: seq<SemioticPoint>, k: nat)
    requires UniqueIds(ps) && k < |ps|
    ensures UniqueIds(ps[..k] + ps[k + 1..])
  {
    var rest := ps[..k] + ps[k + 1..];
    forall i, j | 0 <= i < j < |rest| ensures rest[i].id != rest[j].id {
      var i' := if i < k then i else i + 1;
      var j' := if j < k then j else j + 1;
      assert rest[i] == ps[i'] && rest[j] == ps[j'];
    }
  }

  lemma DeletePreservesInv(a: Anchors, s: State, id: PointId)
    requires Inv(a, s)
    ensures Inv(a, AfterDelete(s, id))
  {
    if id in Ids(s.points) {
      var k := IdAt(s.points, id);
      SpliceIsWithout(s.points, k);
      SpliceUnique(s.points, k);
      var t := AfterDelete(s, id);
      assert UniqueIds(t.points);
      if t.selected.Some? {
        var m := IdAt(s.points, t.selected.value);
        assert s.points[m] in t.points;
      }
    }
  }

  /**
    onControlsChange with no selection changes nothing. With a selection
    only the selected point changes: its values become the new ones, its
    position is their projection, and its geometry is the new logic's,
    replaced exactly when it differed; the selection stays.
  */
  lemma ControlsEffect(a: Anchors, s: State, v: Values)
    requires Inv(a, s)
    ensures s.selected == None ==> AfterControls(a, s, v) == s
    ensures var t := AfterControls(a, s, v);
      && t.selected == s.selected && t.nextId == s.nextId && |t.points| == |s.points|
      && (forall i :: 0 <= i < |s.points| && s.selected != Some(s.points[i].id) ==> t.points[i] == s.points[i])
      && (forall i :: 0 <= i < |s.points| && s.selected == Some(s.points[i].id) ==>
            var p, q := s.points[i], t.points[i];
            && q.id == p.id && q.name == p.name && q.values == v
            && q.mesh.position == ValuesToPosition(a, v)
            && q.mesh.geometry == GeometryFor(v.logic)
            && (q.mesh.geometry != p.mesh.geometry <==> p.mesh.geometry != GeometryFor(v.logic))
            && q.mesh.material == p.mesh.material && q.mesh.tiltedUp == p.mesh.tiltedUp)
  {
  }

  lemma ControlsPreservesInv(a: Anchors, s: State, v: Values)
    requires Inv(a, s)
    ensures Inv(a, AfterControls(a, s, v))
  {
    var t := AfterControls(a, s, v);
    forall p | p in t.points
      ensures p.id < t.nextId && InSync(a, p) && (IsHighlighted(p) <==> t.selected == Some(p.id))
    {
      var i :| 0 <= i < |t.points| && t.points[i] == p;
      assert s.points[i] in s.points;
    }
    if t.selected.Some? {
      var m := IdAt(s.points, t.selected.value);
      assert t.points[m] in t.points;
    }
  }

  /** onControlsChange with the selected point's own values leaves the store unchanged. */
  lemma ControlsUnchangedValues(a: Anchors, s: State, k: nat)
    requires Inv(a, s) && k < |s.points| && s.selected == Some(s.points[k].id)
    ensures AfterControls(a, s, s.points[k].values) == s
  {
    var t := AfterControls(a, s, s.points[k].values);
    forall i | 0 <= i < |s.points| ensures t.points[i] == s.points[i] {
      assert s.points[i] in s.points;
    }
  }

  /** The points and the selection of main.js, with the anchors fixed at creation. */
  class PointStore {
    const anchors: Anchors
    var points: seq<SemioticPoint>
    var selected: Option<PointId>
    var nextId: PointId

    function Current(): State
      reads this
    {
      State(points, selected, nextId)
    }

    predicate Valid()
      reads this
    {
      Inv(anchors, Current())
    }

    constructor (anchors: Anchors)
      ensures this.anchors == anchors && Valid() && Current() == State([], None, 0)
    {
      this.anchors := anchors;
      points, selected, nextId := [], None, 0;
    }

    /** addPoint, with the prompted name and the control values as parameters. */
    method AddPoint(name: Option<string>, v: Values)
      requires Valid()
      modifies this
      ensures Valid() && Current() == AfterAdd(anchors, old(Current()), name, v)
    {
      if name.None? || Trim(name.value) == "" {
        return;
      }
      ghost var s := Current();
      AddPreservesInv(anchors, s, name, v);
      var id := nextId;
      var point := NewPoint(anchors, id, name.value, v);
      points := points + [point];
      nextId := nextId + 1;
      PushPreservesInv(anchors, s, name.value, v);
      SelectPoint(id);
    }

    /** deletePoint. */
    method DeletePoint(id: PointId)
      requires Valid()
      modifies this
      ensures Valid() && Current() == AfterDelete(old(Current()), id)
    {
      ghost var s := Current();
      DeletePreservesInv(anchors, s, id);
      var index := FindIndex(points, id);
      if index > -1 {
        SpliceIsWithout(points, index);
        points := points[..index] + points[index + 1..];
        if selected.Some? && selected.value == id {
          selected := None;
        }
      }
    }

    /** selectPoint, on the id of a stored point. */
    method SelectPoint(id: PointId)
      requires Valid() && id in Ids(points)
      modifies this
      ensures Valid() && Current() == AfterSelect(old(Current()), id)
    {
      ghost var s := Current();
      SelectPreservesInv(anchors, s, id);
      var k := -1;
      if selected.Some? {
        k := FindIndex(points, selected.value);
      }
      var j := FindIndex(points, id);
      SelectSteps(points, selected, id, k, j);
      if k >= 0 {
        points := points[k := WithMaterial(points[k], SharedDefault)];
      }
      selected := Some(id);
      points := points[j := WithMaterial(points[j], Highlight)];
    }

    /** The data half of onControlsChange, with the five control values as parameters. */
    method OnControlsChange(v: Values)
      requires Valid()
      modifies this
      ensures Valid() && Current() == AfterControls(anchors, old(Current()), v)
    {
      ghost var s := Current();
      ControlsPreservesInv(anchors, s, v);
      if selected.Some? {
        var k := FindIndex(points, selected.value);
        if k >= 0 {
          var point := points[k];
          var g := GeometryFor(v.logic);
          var mesh := point.mesh.(position := ValuesToPosition(anchors, v));
          if mesh.geometry != g {
            mesh := mesh.(geometry := g);
          }
          points := points[k := point.(values := v, mesh := mesh)];
          assert points[k] == Edited(anchors, s.points[k], v);
        }
        forall i | 0 <= i < |points|
          ensures points[i] == if s.points[i].id == s.selected.value then Edited(anchors, s.points[i], v) else s.points[i]
        {
          assert s.points[i] in s.points;
        }
        assert points == EditAll(anchors, s.points, s.selected.value, v);
      }
    }
  }
}
