/**
 * The mesh manipulator: which tool (move, rotate, scale, animate) and which
 * of its three axes is selected, and what a mouse drag asks of the selected
 * mesh. Changes to the mesh come out as a list of commands rather than being
 * applied, since the mesh itself is not part of this model; neither is the
 * drawing of the tool, nor the projection of the mouse direction that turns
 * a drag into a signed speed, which is taken as given.
 */
module Manipulation {
  import opened Wrappers
  import V = Vectors
  import C = Collision

  /** How far a mesh moves, turns and grows per unit of drag speed. */
  const TranslationSpeed: real := 13.0
  const RotationSpeed: real := 5.0
  const ScaleSpeed: real := 10.0
  /** Every tool has one handle per axis. */
  const MaxAxis: nat := 3

  datatype ToolType = Move | Rotate | Scale | Animate | NoTool
  datatype ToolAxis = XAxis | YAxis | ZAxis | NoAxis

  datatype Manipulator = Manipulator(selectedTool: ToolType, selectedAxis: ToolAxis, saveAnimation: bool)

  /** The mesh's own axes, about which a rotation is made. */
  datatype MeshAxis = Up | Forward | Right

  /** What the manipulator asks the selected mesh to do. */
  datatype MeshCommand =
    | Translate(offset: V.Vec3)
    | RotateAroundAxis(angle: real, axis: MeshAxis)
    | ScaleBy(amount: V.Vec3)
    | SavePosition

  /** Position of an axis handle in its tool's list of handles. */
  function AxisIndex(a: ToolAxis): (k: nat)
    requires a != NoAxis
    ensures k < MaxAxis && AxisOf(k) == a
  {
    match a
    case XAxis => 0
    case YAxis => 1
    case ZAxis => 2
  }

  /** The axis whose handle sits at position k. */
  function AxisOf(k: nat): (a: ToolAxis)
    requires k < MaxAxis
    ensures a != NoAxis
  {
    if k == 0 then XAxis else if k == 1 then YAxis else ZAxis
  }

  /** The unit vector along a tool axis. */
  function Unit(a: ToolAxis): (u: V.Vec3)
    requires a != NoAxis
    ensures V.Component(u, AxisIndex(a)) == 1.0
    ensures forall k :: 0 <= k < MaxAxis && k != AxisIndex(a) ==> V.Component(u, k) == 0.0
  {
    match a
    case XAxis => V.Vec3(1.0, 0.0, 0.0)
    case YAxis => V.Vec3(0.0, 1.0, 0.0)
    case ZAxis => V.Vec3(0.0, 0.0, 1.0)
  }

  /**
   * A new manipulator has no tool, no axis, and nothing to save. Selecting
   * a tool resets the axis, and only the animate tool records a position.
   */
  predicate Consistent(m: Manipulator) {
    && (m.saveAnimation ==> m.selectedTool == Animate)
    && (m.selectedTool == NoTool ==> m.selectedAxis == NoAxis)
  }

  function NewManipulator(): (m: Manipulator)
    ensures Consistent(m) && m.selectedTool == NoTool && m.selectedAxis == NoAxis && !m.saveAnimation
  {
    Manipulator(NoTool, NoAxis, false)
  }

  /**
   * Selects a tool, or deselects it when it is already selected; either way
   * no axis stays selected, and an animation is to be saved exactly when the
   * animate tool is now selected.
   */
  function ChangeTool(m: Manipulator, t: ToolType): (r: Manipulator)
    ensures r.selectedTool == (if m.selectedTool == t then NoTool else t)
    ensures r.selectedAxis == NoAxis
    ensures r.saveAnimation <==> r.selectedTool == Animate
    ensures Consistent(r)
  {
    var tool := if m.selectedTool == t then NoTool else t;
    Manipulator(tool, NoAxis, tool == Animate)
  }

  /**
   * Choosing a tool other than the current one twice in a row deselects it
   * again and leaves the manipulator as new; choosing the current one twice
   * gives it back, with the axis cleared.
   */
  lemma ChangeToolTwice(m: Manipulator, t: ToolType)
    ensures m.selectedTool != t ==> ChangeTool(ChangeTool(m, t), t) == NewManipulator()
    ensures m.selectedTool == t ==> ChangeTool(ChangeTool(m, t), t) == ChangeTool(NewManipulator(), t)
  {
  }

  function AxisDescription(a: ToolAxis): (s: string)
    ensures s == "None" <==> a == NoAxis
  {
    match a
    case XAxis => "X Axis"
    case YAxis => "Y Axis"
    case ZAxis => "Z Axis"
    case NoAxis => "None"
  }

  function ToolDescription(t: ToolType): (s: string)
    ensures s == "None" <==> t == NoTool
  {
    match t
    case Move => "Move"
    case Rotate => "Rotate"
    case Scale => "Scale"
    case Animate => "Animate"
    case NoTool => "None"
  }

  /** Different axes and different tools are told apart by their labels. */
  lemma DescriptionsDistinguish(a: ToolAxis, b: ToolAxis, s: ToolType, t: ToolType)
    ensures AxisDescription(a) == AxisDescription(b) ==> a == b
    ensures ToolDescription(s) == ToolDescription(t) ==> s == t
  {
  }

  /**
   * Picks the handle under the mouse: `hits[k]` says whether the pick ray
   * meets the handle of axis k. With no tool selected nothing happens and
   * the mesh lock is left alone (`lock` is None). Otherwise the axis chosen
   * is the last one hit, or none, and the mesh is locked exactly when an
   * axis was chosen.
   */
  method MousePickTest(m: Manipulator, hits: seq<bool>) returns (r: Manipulator, lock: Option<bool>)
    requires |hits| == MaxAxis
    ensures m.selectedTool == NoTool ==> r == m && lock == None
    ensures m.selectedTool != NoTool ==> lock == Some(r.selectedAxis != NoAxis)
    ensures r.selectedTool == m.selectedTool && r.saveAnimation == m.saveAnimation
    ensures m.selectedTool != NoTool ==>
      && (r.selectedAxis == NoAxis <==> forall k :: 0 <= k < MaxAxis ==> !hits[k])
      && (r.selectedAxis != NoAxis ==>
            hits[AxisIndex(r.selectedAxis)] && forall k :: AxisIndex(r.selectedAxis) < k < MaxAxis ==> !hits[k])
    ensures Consistent(m) ==> Consistent(r)
  {
    if m.selectedTool == NoTool {
      return m, None;
    }
    var selected := NoAxis;
    var i := 0;
    while i < |hits|
      invariant 0 <= i <= |hits|
      invariant selected == NoAxis <==> forall k :: 0 <= k < i ==> !hits[k]
      invariant selected != NoAxis ==>
        AxisIndex(selected) < i && hits[AxisIndex(selected)] && forall k :: AxisIndex(selected) < k < i ==> !hits[k]
    {
      if hits[i] {
        selected := AxisOf(i);
      }
      i := i + 1;
    }
    r := m.(selectedAxis := selected);
    lock := Some(selected != NoAxis);
  }

  /** Moves the mesh along the selected axis only; with no axis, not at all. */
  function TranslateMesh(m: Manipulator, value: real): (c: Option<MeshCommand>)
    ensures c.None? <==> m.selectedAxis == NoAxis
    ensures c.Some? ==>
      && c.value.Translate?
      && V.Component(c.value.offset, AxisIndex(m.selectedAxis)) == value
      && forall k :: 0 <= k < MaxAxis && k != AxisIndex(m.selectedAxis) ==> V.Component(c.value.offset, k) == 0.0
  {
    match m.selectedAxis
    case XAxis => Some(Translate(V.Vec3(value, 0.0, 0.0)))
    case YAxis => Some(Translate(V.Vec3(0.0, value, 0.0)))
    case ZAxis => Some(Translate(V.Vec3(0.0, 0.0, value)))
    case NoAxis => None
  }

  /** The translation is the axis's unit vector stretched by the value. */
  lemma TranslationAlongUnit(m: Manipulator, value: real)
    requires m.selectedAxis != NoAxis
    ensures TranslateMesh(m, value) == Some(Translate(V.Scale(Unit(m.selectedAxis), value)))
  {
  }

  /**
   * Turns the mesh about one of its own axes: the X handle about Up, the Y
   * handle about Forward, the Z handle about Right; with no axis, not at all.
   */
  function RotateMesh(m: Manipulator, value: real): (c: Option<MeshCommand>)
    ensures c.None? <==> m.selectedAxis == NoAxis
    ensures c.Some? ==> c.value.RotateAroundAxis? && c.value.angle == value
    ensures m.selectedAxis == XAxis ==> c == Some(RotateAroundAxis(value, Up))
    ensures m.selectedAxis == YAxis ==> c == Some(RotateAroundAxis(value, Forward))
    ensures m.selectedAxis == ZAxis ==> c == Some(RotateAroundAxis(value, Right))
  {
    match m.selectedAxis
    case XAxis => Some(RotateAroundAxis(value, Up))
    case YAxis => Some(RotateAroundAxis(value, Forward))
    case ZAxis => Some(RotateAroundAxis(value, Right))
    case NoAxis => None
  }

  /** Each handle turns the mesh about a different axis. */
  lemma RotationAxesDistinct(m: Manipulator, n: Manipulator, value: real)
    requires m.selectedAxis != NoAxis && n.selectedAxis != NoAxis
    ensures RotateMesh(m, value).value.axis == RotateMesh(n, value).value.axis ==> m.selectedAxis == n.selectedAxis
  {
  }

  /**
   * Grows the mesh: a sphere grows evenly in every direction whatever the
   * axis (even with none selected); a cylinder grows along its length for
   * the Z handle and evenly across its cross-section otherwise (again even
   * with none selected); any other shape grows along the selected axis only,
   * and not at all with no axis.
   */
  function ScaleMesh(m: Manipulator, shape: C.Shape, value: real): (c: Option<MeshCommand>)
    ensures shape == C.Sphere ==> c == Some(ScaleBy(V.Vec3(value, value, value)))
    ensures shape == C.Cylinder ==> c == Some(ScaleBy(
      if m.selectedAxis == ZAxis then V.Vec3(0.0, 0.0, value) else V.Vec3(value, value, 0.0)))
    ensures c.None? <==> shape != C.Sphere && shape != C.Cylinder && m.selectedAxis == NoAxis
    ensures c.Some? ==> c.value.ScaleBy?
  {
    if shape == C.Sphere then Some(ScaleBy(V.Vec3(value, value, value)))
    else if shape == C.Cylinder then
      if m.selectedAxis == ZAxis then Some(ScaleBy(V.Vec3(0.0, 0.0, value)))
      else Some(ScaleBy(V.Vec3(value, value, 0.0)))
    else
      match m.selectedAxis
      case XAxis => Some(ScaleBy(V.Vec3(value, 0.0, 0.0)))
      case YAxis => Some(ScaleBy(V.Vec3(0.0, value, 0.0)))
      case ZAxis => Some(ScaleBy(V.Vec3(0.0, 0.0, value)))
      case NoAxis => None
  }

  /**
   * A box, or a mesh with no collision shape, is scaled by exactly the
   * vector it would be moved by, so only the selected component changes.
   */
  lemma BoxScalesLikeTranslation(m: Manipulator, shape: C.Shape, value: real)
    requires shape != C.Sphere && shape != C.Cylinder
    ensures ScaleMesh(m, shape, value).None? <==> TranslateMesh(m, value).None?
    ensures ScaleMesh(m, shape, value).Some? ==>
      ScaleMesh(m, shape, value).value.amount == TranslateMesh(m, value).value.offset
  {
  }

  /** A cylinder always keeps a circular cross-section: x and y grow together. */
  lemma CylinderKeepsCrossSection(m: Manipulator, value: real)
    ensures var a := ScaleMesh(m, C.Cylinder, value).value.amount;
      a.x == a.y && (a.z == 0.0 || a.x == 0.0)
  {
  }

  /** Animating is translating, and marks the animation as to be saved. */
  function AnimateMesh(m: Manipulator, value: real): (res: (Manipulator, Option<MeshCommand>))
    ensures res.0 == m.(saveAnimation := true)
    ensures res.1 == TranslateMesh(m, value)
  {
    (m.(saveAnimation := true), TranslateMesh(m, value))
  }

  /** The command the selected tool makes of a drag at the given speed. */
  function Drag(m: Manipulator, shape: C.Shape, speed: real): (res: (Manipulator, Option<MeshCommand>))
    requires m.selectedTool != NoTool
    ensures m.selectedTool == Move ==> res == (m, TranslateMesh(m, speed * TranslationSpeed))
    ensures m.selectedTool == Rotate ==> res == (m, RotateMesh(m, speed * RotationSpeed))
    ensures m.selectedTool == Scale ==> res == (m, ScaleMesh(m, shape, speed * ScaleSpeed))
    ensures m.selectedTool == Animate ==> res == AnimateMesh(m, speed * TranslationSpeed)
  {
    match m.selectedTool
    case Rotate => (m, RotateMesh(m, speed * RotationSpeed))
    case Move => (m, TranslateMesh(m, speed * TranslationSpeed))
    case Scale => (m, ScaleMesh(m, shape, speed * ScaleSpeed))
    case Animate => AnimateMesh(m, speed * TranslationSpeed)
  }

  function Commands(c: Option<MeshCommand>): (s: seq<MeshCommand>)
    ensures c.None? ==> s == []
    ensures c.Some? ==> s == [c.value]
  {
    if c.Some? then [c.value] else []
  }

  /**
   * One frame of mouse input for the selected mesh. `direction` is the mouse
   * movement on screen, `speed` the signed drag speed derived from it and
   * the frame time, and `hasAnimationPoints` whether the mesh already holds
   * recorded positions. With no tool selected nothing happens. A press that
   * moves the mouse while an axis is selected applies the tool; then, for
   * the animate tool, the position is recorded when the mesh holds none yet
   * or when the button is up and a recording is due, which clears the due
   * flag.
   */
  function UpdateState(m: Manipulator, shape: C.Shape, direction: V.Vec2, pressed: bool,
                       speed: real, hasAnimationPoints: bool): (res: (Manipulator, seq<MeshCommand>))
    ensures m.selectedTool == NoTool ==> res == (m, [])
    ensures res.0.selectedTool == m.selectedTool && res.0.selectedAxis == m.selectedAxis
    ensures var dragged := pressed && m.selectedTool != NoTool && m.selectedAxis != NoAxis
                           && V.LengthSquared2(direction) > 0.0;
      var save := m.selectedTool == Animate && (!hasAnimationPoints || (!pressed && m.saveAnimation));
      && (save <==> SavePosition in res.1)
      && (res.0.saveAnimation <==> !save && (m.saveAnimation || (dragged && m.selectedTool == Animate)))
      && (!dragged ==> res.1 == (if save then [SavePosition] else []))
      && (dragged ==> res.1 == Commands(Drag(m, shape, speed).1) + (if save then [SavePosition] else []))
    ensures Consistent(m) ==> Consistent(res.0)
  {
    if m.selectedTool == NoTool then (m, [])
    else
      var (dragged, moves) :=
        if pressed && m.selectedAxis != NoAxis && V.LengthSquared2(direction) > 0.0
        then var d := Drag(m, shape, speed); (d.0, Commands(d.1))
        else (m, []);
      if m.selectedTool == Animate && (!hasAnimationPoints || (!pressed && dragged.saveAnimation))
      then (dragged.(saveAnimation := false), moves + [SavePosition])
      else (dragged, moves)
  }

  /**
   * Recording an animated drag: once the mesh holds recorded positions, a
   * drag along an axis records nothing yet but marks a recording as due;
   * releasing the button records the position exactly once, and a further
   * frame with the button up records nothing more.
   */
  lemma AnimatedDragRecordsOnRelease(m: Manipulator, shape: C.Shape, direction: V.Vec2, speed: real, still: V.Vec2)
    requires m.selectedTool == Animate && m.selectedAxis != NoAxis && V.LengthSquared2(direction) > 0.0
    ensures var drag := UpdateState(m, shape, direction, true, speed, true);
      var release := UpdateState(drag.0, shape, still, false, speed, true);
      var idle := UpdateState(release.0, shape, still, false, speed, true);
      && drag.0.saveAnimation && SavePosition !in drag.1
      && release.1 == [SavePosition] && !release.0.saveAnimation
      && idle.1 == [] && idle.0 == release.0
  {
  }
}
