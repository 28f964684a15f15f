/**
 * The component model: src/base.py's BaseComponent, the four concrete
 * components of src/components.py, src/gameobject.py's GameObject, and
 * RequireComponent.
 *
 * The component classes form a closed variant: one class `Component` whose
 * `kind` says which of Transform, VelocityControl, Controls or Model it is.
 * Python's `isinstance(c, T)` becomes `Matches(c.kind, T)`, where the type
 * BaseComponent matches every kind.
 */
module Ecs {
  import opened Wrappers
  import opened Utils
  import opened Events
  import opened Motion

  datatype Kind = TransformKind | VelocityControlKind | ControlsKind | ModelKind

  /** A component class as passed to `GetComponent`: BaseComponent or one of the concrete kinds. */
  datatype ComponentType = BaseComponentType | KindType(kind: Kind)

  /** `MatchComponent` / `isinstance`: every component is a BaseComponent, and a kind matches itself. */
  predicate Matches(k: Kind, t: ComponentType) {
    t.BaseComponentType? || t.kind == k
  }

  /** The Python class name of a kind. */
  function KindName(k: Kind): string {
    match k
    case TransformKind => "Transform"
    case VelocityControlKind => "VelocityControl"
    case ControlsKind => "Controls"
    case ModelKind => "Model"
  }

  /** A value held in a component's `_state` dictionary. */
  datatype StateValue = Number(n: real) | Vel(v: Velocity)

  /** The `_state` of a new `VelocityControl` with starting speed `velocity`. */
  function VelocityControlState(velocity: real): map<string, StateValue> {
    map["velocity" := Number(velocity),
        "currentvelocity" := Vel(NewVelocity(velocity, 0.0)),
        "last90vel" := Vel(NewVelocity(0.0, 0.0))]
  }

  /** The `_state` of a new `Controls`: speed 1. */
  const ControlsState: map<string, StateValue> := map["speed" := Number(1.0)]

  class Component {
    const kind: Kind
    /** Every component owns its event manager, made when the component is. */
    const eventmanager: EventManager
    /** `_state`, the dictionary that `state()` hands out. */
    var state: map<string, StateValue>
    /** The `pos` attribute of a Transform; no other kind reads or writes it. */
    var pos: Position2d
    /** The `length` of a Model's sprite, the size it is culled with; 0 for the other kinds. */
    const spriteLength: real
    /** The Transform a Model found on its object when it was made; none for the other kinds. */
    const transform: Option<Component>

    /** What each kind keeps in its state: a VelocityControl a normal current velocity, Controls a speed. */
    ghost predicate Valid()
      reads this
    {
      && (kind == VelocityControlKind ==>
            "currentvelocity" in state && state["currentvelocity"].Vel? && NormalVelocity(state["currentvelocity"].v))
      && (kind == ControlsKind ==> "speed" in state && state["speed"].Number?)
    }

    /** `state()`: the component's own map. */
    function State(): map<string, StateValue>
      reads this
    {
      state
    }

    /** `_state["currentvelocity"]` of a VelocityControl. */
    function CurrentVelocity(): Velocity
      reads this
      requires Valid() && kind == VelocityControlKind
    {
      state["currentvelocity"].v
    }

    /** `state()["speed"]` of a Controls. */
    function Speed(): real
      reads this
      requires Valid() && kind == ControlsKind
    {
      state["speed"].n
    }

    /** `Transform(initial_pos)`: an empty state map, a fresh event manager, the given position. */
    constructor Transform(initial: Position2d := Origin)
      ensures kind == TransformKind && state == map[] && pos == initial && Valid()
      ensures fresh(eventmanager) && fresh(eventmanager.inputmanager)
      ensures eventmanager.events == [] && eventmanager.inputmanager.events == []
    {
      kind := TransformKind;
      eventmanager := new EventManager();
      spriteLength := 0.0;
      transform := None;
      state := map[];
      pos := initial;
    }

    /**
     * `VelocityControl(obj, velocity)`: fills the state, then attaches a new
     * Transform to `obj` if it has none.
     */
    constructor VelocityControl(obj: GameObject, velocity: real := 0.0)
      modifies obj
      ensures kind == VelocityControlKind && state == VelocityControlState(velocity) && Valid()
      ensures fresh(eventmanager) && fresh(eventmanager.inputmanager)
      ensures eventmanager.events == [] && eventmanager.inputmanager.events == []
      ensures old(obj.components) <= obj.components
      ensures Kinds(obj.components) == Kinds(old(obj.components)) + TransformAttaches(Kinds(old(obj.components)))
      ensures forall c :: c in obj.components && c !in old(obj.components) ==>
        && fresh(c) && fresh(c.eventmanager) && fresh(c.eventmanager.inputmanager)
        && c.eventmanager.events == [] && c.eventmanager.inputmanager.events == []
        && c.kind == TransformKind && c.state == map[] && c.pos == Origin && c.Valid()
    {
      kind := VelocityControlKind;
      eventmanager := new EventManager();
      spriteLength := 0.0;
      transform := None;
      state := VelocityControlState(velocity);
      new;
      var t := new Component.Transform();
      var present := RequireComponent(obj, KindType(TransformKind), Some(t));
      AttachKinds(old(obj.components), t, TransformKind);
    }

    /**
     * `Controls(obj)`: speed 1; builds a VelocityControl for `obj` eagerly,
     * which attaches a Transform if missing, and attaches that VelocityControl
     * only if `obj` has none. The Controls itself is not attached.
     */
    constructor Controls(obj: GameObject)
      modifies obj
      ensures kind == ControlsKind && state == ControlsState && Valid()
      ensures fresh(eventmanager) && fresh(eventmanager.inputmanager)
      ensures eventmanager.events == [] && eventmanager.inputmanager.events == []
      ensures old(obj.components) <= obj.components
      ensures Kinds(obj.components) == Kinds(old(obj.components)) + ControlsAttaches(Kinds(old(obj.components)))
      ensures forall c :: c in obj.components && c !in old(obj.components) ==>
        && fresh(c) && fresh(c.eventmanager) && fresh(c.eventmanager.inputmanager)
        && c.eventmanager.events == [] && c.eventmanager.inputmanager.events == [] && c.Valid()
        && c.eventmanager != eventmanager
        && (c.kind == TransformKind ==> c.state == map[] && c.pos == Origin)
        && (c.kind == VelocityControlKind ==> c.state == VelocityControlState(0.0))
        && (c.kind == TransformKind || c.kind == VelocityControlKind)
    {
      kind := ControlsKind;
      eventmanager := new EventManager();
      spriteLength := 0.0;
      transform := None;
      state := ControlsState;
      new;
      ghost var before := obj.components;
      var vc := new Component.VelocityControl(obj);
      ghost var middle := obj.components;
      var present := RequireComponent(obj, KindType(VelocityControlKind), Some(vc));
      AttachKinds(middle, vc, VelocityControlKind);
      assert VelocityControlKind in Kinds(middle) <==> VelocityControlKind in Kinds(before);
    }

    /**
     * `Model(obj, sprite)`: attach a new Transform to `obj` if it has none, keep
     * the sprite's length, and keep the Transform `obj` then has. The sprite
     * itself is not modelled.
     */
    constructor Model(obj: GameObject, spriteLength: real := 0.0)
      modifies obj
      ensures kind == ModelKind && state == map[] && Valid() && this.spriteLength == spriteLength
      ensures transform == FirstMatch(obj.components, KindType(TransformKind)) && transform.Some?
      ensures fresh(eventmanager) && fresh(eventmanager.inputmanager)
      ensures eventmanager.events == [] && eventmanager.inputmanager.events == []
      ensures old(obj.components) <= obj.components
      ensures Kinds(obj.components) == Kinds(old(obj.components)) + TransformAttaches(Kinds(old(obj.components)))
      ensures forall c :: c in obj.components && c !in old(obj.components) ==>
        && fresh(c) && fresh(c.eventmanager) && fresh(c.eventmanager.inputmanager)
        && c.eventmanager.events == [] && c.eventmanager.inputmanager.events == []
        && c.kind == TransformKind && c.state == map[] && c.pos == Origin && c.Valid()
    {
      kind := ModelKind;
      eventmanager := new EventManager();
      state := map[];
      this.spriteLength := spriteLength;
      var t := new Component.Transform();
      var present := RequireComponent(obj, KindType(TransformKind), Some(t));
      RequireIdempotent(old(obj.components), KindType(TransformKind), t, None);
      var found := obj.GetComponent(KindType(TransformKind));
      transform := if found.Some? && found.value.kind == TransformKind then found else None;
      AttachKinds(old(obj.components), t, TransformKind);
      new;
    }

    /**
     * `VelocityControl.SetVelocity(vel, combine_angle)`: overwrite
     * `_state["currentvelocity"]` by the combine-or-replace rule.
     */
    method SetVelocity(v: Velocity, combineAngle: bool := true)
      requires Valid() && kind == VelocityControlKind
      modifies this
      ensures state == old(state)["currentvelocity" := Vel(Motion.SetVelocity(old(CurrentVelocity()), v, combineAngle))]
      ensures pos == old(pos)
      ensures combineAngle || NormalVelocity(v) ==> Valid()
    {
      var current := state["currentvelocity"].v;
      if combineAngle {
        state := state["currentvelocity" := Vel(NewVelocity(current.magnitude, Mod360((current.direction + v.direction) / 2.0)))];
      } else {
        state := state["currentvelocity" := Vel(v)];
      }
    }

    /** `Transform.SetPosition`: replace the position. */
    method SetPosition(newPos: Position2d)
      requires kind == TransformKind
      modifies this
      ensures pos == newPos && state == old(state)
    {
      pos := newPos;
    }

    /** `Transform.AddPosition`: add x, y and the rotation in place, then renormalise. */
    method AddPosition(delta: Position2d)
      requires kind == TransformKind
      modifies this
      ensures pos == PositionPlus(old(pos), delta) && Normalized(pos.rot)
      ensures state == old(state)
    {
      pos := pos.(x := pos.x + delta.x);
      pos := pos.(y := pos.y + delta.y);
      pos := pos.(rot := RotationPlus(pos.rot, delta.rot));
      pos := NewPosition(pos.x, pos.y, pos.rot);
    }

    /**
     * `BaseComponent.OnTick(entity)`: drain this component's event manager and
     * hand the batch to the kind's tick. Only a Controls tick does anything: it
     * updates the first VelocityControl of `entity`, if there is one.
     */
    method OnTick(entity: GameObject)
      requires Valid() && entity.Valid()
      modifies eventmanager, entity.ComponentSet()
      ensures eventmanager.events == []
      ensures entity.Valid()
      ensures forall c :: c in entity.components ==> c.pos == old(c.pos)
      ensures var f := FirstMatch(entity.components, KindType(VelocityControlKind));
        forall c :: c in entity.components && (kind != ControlsKind || f != Some(c)) ==> c.state == old(c.state)
      ensures kind == ControlsKind && FirstMatch(entity.components, KindType(VelocityControlKind)).Some? ==>
        var vc := FirstMatch(entity.components, KindType(VelocityControlKind)).value;
        vc.state == old(vc.state)["currentvelocity" := Vel(ControlsTick(old(vc.CurrentVelocity()),
          old(eventmanager.inputmanager.events) + old(eventmanager.events), Speed()))]
    {
      var events := eventmanager.Get();
      if kind == ControlsKind {
        TickControls(entity, events);
      }
    }

    /**
     * `Controls._tick(entity, events)`: look up the entity's first
     * VelocityControl and, if there is one, steer it by `events`.
     */
    method TickControls(entity: GameObject, events: seq<Event>)
      requires Valid() && kind == ControlsKind && entity.Valid()
      modifies entity.ComponentSet()
      ensures entity.Valid()
      ensures forall c :: c in entity.components ==> c.pos == old(c.pos)
      ensures var f := FirstMatch(entity.components, KindType(VelocityControlKind));
        forall c :: c in entity.components && f != Some(c) ==> c.state == old(c.state)
      ensures FirstMatch(entity.components, KindType(VelocityControlKind)).Some? ==>
        var vc := FirstMatch(entity.components, KindType(VelocityControlKind)).value;
        vc.state == old(vc.state)["currentvelocity" := Vel(ControlsTick(old(vc.CurrentVelocity()), events, Speed()))]
    {
      var found := entity.GetComponent(KindType(VelocityControlKind));
      if found.Some? {
        Drive(found.value, events);
      }
    }

    /**
     * The body of `Controls._tick` once a VelocityControl `vc` is found:
     * collect the keydowns, zero the velocity when there are none, collect the
     * directions, then set the velocity to this component's speed along their
     * mean, or to zero when no direction key was pressed.
     */
    method Drive(vc: Component, events: seq<Event>)
      requires Valid() && kind == ControlsKind && vc.Valid() && vc.kind == VelocityControlKind
      modifies vc
      ensures vc.Valid() && vc.pos == old(vc.pos)
      ensures vc.state == old(vc.state)["currentvelocity" := Vel(ControlsTick(old(vc.CurrentVelocity()), events, Speed()))]
    {
      ghost var start := vc.CurrentVelocity();
      var ks := CollectKeydowns(events);
      if |ks| == 0 {
        vc.SetVelocity(NewVelocity(0.0, 0.0));
      }
      var v := CollectDirections(ks);
      if |v| != 0 {
        MeanBounds(v);
        vc.SetVelocity(NewVelocity(Speed(), Mean(v)), false);
      } else {
        vc.SetVelocity(NewVelocity(0.0, 0.0));
      }
      assert vc.CurrentVelocity() == ControlsTick(start, events, Speed());
    }
  }

  /** The kinds of a component list, in order. */
  function Kinds(cs: seq<Component>): (ks: seq<Kind>)
  {
    seq(|cs|, i requires 0 <= i < |cs| => cs[i].kind)
  }

  /** The kinds `RequireComponent(obj, Transform, Transform())` attaches to a list of these kinds. */
  function TransformAttaches(ks: seq<Kind>): seq<Kind> {
    if TransformKind in ks then [] else [TransformKind]
  }

  /** The kinds `Controls(obj)` attaches: a Transform if missing, then a VelocityControl if missing. */
  function ControlsAttaches(ks: seq<Kind>): seq<Kind> {
    TransformAttaches(ks) + (if VelocityControlKind in ks then [] else [VelocityControlKind])
  }

  /** `Controls(g)` on an empty entity leaves it with a Transform and then a VelocityControl. */
  lemma ControlsOnEmptyEntity()
    ensures ControlsAttaches(Kinds([])) == [TransformKind, VelocityControlKind]
  {
  }

  /** The first component of `cs` in insertion order that matches `t`, as `GetComponent` finds it. */
  function FirstMatch(cs: seq<Component>, t: ComponentType): (r: Option<Component>)
    ensures r.None? <==> forall c :: c in cs ==> !Matches(c.kind, t)
    ensures r.Some? ==> r.value in cs && Matches(r.value.kind, t)
    ensures r.Some? ==> exists i :: 0 <= i < |cs| && cs[i] == r.value && forall j :: 0 <= j < i ==> !Matches(cs[j].kind, t)
  {
    if cs == [] then None
    else if Matches(cs[0].kind, t) then Some(cs[0])
    else
      var r := FirstMatch(cs[1..], t);
      assert forall c :: c in cs ==> c == cs[0] || c in cs[1..];
      if r.Some? then
        var i :| 0 <= i < |cs[1..]| && cs[1..][i] == r.value && forall j :: 0 <= j < i ==> !Matches(cs[1..][j].kind, t);
        assert cs[i + 1] == r.value && forall j :: 0 <= j < i + 1 ==> !Matches(cs[j].kind, t);
        r
      else r
  }

  /** A kind is found exactly when it occurs in the list. */
  lemma FirstMatchKind(cs: seq<Component>, k: Kind)
    ensures FirstMatch(cs, KindType(k)).Some? <==> k in Kinds(cs)
  {
    var r := FirstMatch(cs, KindType(k));
    if r.Some? {
      var i :| 0 <= i < |cs| && cs[i] == r.value;
      assert Kinds(cs)[i] == k;
    }
    if k in Kinds(cs) {
      var i :| 0 <= i < |cs| && Kinds(cs)[i] == k;
      assert cs[i] in cs;
    }
  }

  /** Appending never changes what an earlier match finds, and after a miss the appended component is found. */
  lemma {:induction false} FirstMatchAppend(cs: seq<Component>, c: Component, t: ComponentType)
    ensures FirstMatch(cs, t).Some? ==> FirstMatch(cs + [c], t) == FirstMatch(cs, t)
    ensures FirstMatch(cs, t).None? && Matches(c.kind, t) ==> FirstMatch(cs + [c], t) == Some(c)
  {
    if cs != [] {
      assert (cs + [c])[0] == cs[0] && (cs + [c])[1..] == cs[1..] + [c];
      FirstMatchAppend(cs[1..], c, t);
    }
  }

  /** The component list after `RequireComponent(obj, t, toAdd)`. */
  function AfterRequire(cs: seq<Component>, t: ComponentType, toAdd: Option<Component>): seq<Component> {
    if FirstMatch(cs, t).None? && toAdd.Some? then cs + [toAdd.value] else cs
  }

  /** Requiring a component that matches its own type makes it present, and requiring again changes nothing. */
  lemma RequireIdempotent(cs: seq<Component>, t: ComponentType, c: Component, again: Option<Component>)
    requires Matches(c.kind, t)
    ensures FirstMatch(AfterRequire(cs, t, Some(c)), t).Some?
    ensures AfterRequire(AfterRequire(cs, t, Some(c)), t, again) == AfterRequire(cs, t, Some(c))
  {
    FirstMatchAppend(cs, c, t);
  }

  /** How attaching `c` of kind `k` when `k` is missing changes the kinds of the list. */
  lemma AttachKinds(cs: seq<Component>, c: Component, k: Kind)
    requires c.kind == k
    ensures Kinds(AfterRequire(cs, KindType(k), Some(c))) == Kinds(cs) + (if k in Kinds(cs) then [] else [k])
  {
    FirstMatchKind(cs, k);
    if k !in Kinds(cs) {
      assert Kinds(cs + [c]) == Kinds(cs) + [k];
    }
  }

  /**
   * `RequireComponent(obj, component, to_add)`: if no component of that type is
   * present, attach `to_add` (when given) and return False; otherwise return True.
   */
  method RequireComponent(obj: GameObject, t: ComponentType, toAdd: Option<Component>) returns (present: bool)
    modifies obj
    ensures present <==> FirstMatch(old(obj.components), t).Some?
    ensures obj.components == AfterRequire(old(obj.components), t, toAdd)
  {
    var found := obj.GetComponent(t);
    if found.None? {
      if toAdd.Some? {
        obj.AddComponent(toAdd.value);
      }
      return false;
    }
    return true;
  }

  /** Names joined by ", ", as `", ".join` does. */
  function Join(names: seq<string>): string {
    if |names| == 0 then ""
    else if |names| == 1 then names[0]
    else Join(names[..|names| - 1]) + ", " + names[|names| - 1]
  }

  /** The class names of a component list. */
  function Names(cs: seq<Component>): (ns: seq<string>)
    ensures |ns| == |cs| && forall i :: 0 <= i < |cs| ==> ns[i] == KindName(cs[i].kind)
  {
    if cs == [] then [] else [KindName(cs[0].kind)] + Names(cs[1..])
  }

  /** The intended string form of a GameObject. */
  function Describe(cs: seq<Component>): string {
    if cs == [] then "GameObject()" else "GameObject(components=[" + Join(Names(cs)) + "])"
  }

  /** The listing `__str__` has built after the first `i` components: each name, then ", " unless it is the last. */
  function ListingUpTo(cs: seq<Component>, i: nat): string
    requires i <= |cs|
  {
    if i == 0 then ""
    else ListingUpTo(cs, i - 1) + KindName(cs[i - 1].kind) + (if i - 1 != |cs| - 1 then ", " else "")
  }

  /** The listing so far is the joined names, with a separator still to come while names remain. */
  lemma {:induction false} ListingUpToJoins(cs: seq<Component>, i: nat)
    requires 0 < i <= |cs|
    ensures ListingUpTo(cs, i) == Join(Names(cs)[..i]) + (if i != |cs| then ", " else "")
  {
    var ns := Names(cs)[..i];
    if i == 1 {
      assert ListingUpTo(cs, 0) == "";
      assert ns == [KindName(cs[0].kind)];
    } else {
      ListingUpToJoins(cs, i - 1);
      assert ns[..i - 1] == Names(cs)[..i - 1];
    }
  }

  /** The full listing is the joined names. */
  lemma ListingJoins(cs: seq<Component>)
    requires cs != []
    ensures ListingUpTo(cs, |cs|) == Join(Names(cs))
  {
    ListingUpToJoins(cs, |cs|);
    assert Names(cs)[..|cs|] == Names(cs);
  }

  /** No component instance occurs twice. */
  predicate DistinctInstances(cs: seq<Component>) {
    forall i, j :: 0 <= i < j < |cs| ==> cs[i] != cs[j]
  }

  /** `list.index`: the first position of `c` in `cs`. */
  function IndexOf(cs: seq<Component>, c: Component): (i: nat)
    requires c in cs
    ensures i < |cs| && cs[i] == c && forall j :: 0 <= j < i ==> cs[j] != c
  {
    if cs[0] == c then 0 else 1 + IndexOf(cs[1..], c)
  }

  /**
   * The listing `__str__` builds AS WRITTEN after the first `i` components: a
   * ", " follows a component when `components.index(comp)` is not the last
   * position.
   */
  function AsWrittenUpTo(cs: seq<Component>, i: nat): string
    requires i <= |cs|
  {
    if i == 0 then ""
    else AsWrittenUpTo(cs, i - 1) + KindName(cs[i - 1].kind) + (if IndexOf(cs, cs[i - 1]) != |cs| - 1 then ", " else "")
  }

  /** `GameObject.__str__` as written. */
  function DescribeAsWritten(cs: seq<Component>): string {
    if cs == [] then "GameObject()" else "GameObject(components=[" + AsWrittenUpTo(cs, |cs|) + "])"
  }

  lemma {:induction false} AsWrittenUpToDistinct(cs: seq<Component>, i: nat)
    requires DistinctInstances(cs) && i <= |cs|
    ensures AsWrittenUpTo(cs, i) == ListingUpTo(cs, i)
  {
    if i > 0 {
      AsWrittenUpToDistinct(cs, i - 1);
      assert IndexOf(cs, cs[i - 1]) == i - 1;
    }
  }

  /** With distinct component instances the source's `__str__` gives the intended form. */
  lemma AsWrittenAgreesWhenDistinct(cs: seq<Component>)
    requires DistinctInstances(cs)
    ensures DescribeAsWritten(cs) == Describe(cs)
  {
    if cs != [] {
      AsWrittenUpToDistinct(cs, |cs|);
      ListingJoins(cs);
    }
  }

  /**
   * The same instance attached twice: `index` finds position 0 both times, so
   * the as-written listing has a ", " after the last name as well.
   */
  lemma AsWrittenRepeatedInstance(c: Component)
    ensures AsWrittenUpTo([c, c], 2) == KindName(c.kind) + ", " + KindName(c.kind) + ", "
    ensures Join(Names([c, c])) == KindName(c.kind) + ", " + KindName(c.kind)
    ensures DescribeAsWritten([c, c]) != Describe([c, c])
  {
    var n := KindName(c.kind);
    assert IndexOf([c, c], c) == 0;
    assert AsWrittenUpTo([c, c], 1) == "" + n + ", ";
    assert "" + n == n;
    assert Names([c, c]) == [n, n] && [n, n][..1] == [n];
    assert |AsWrittenUpTo([c, c], 2)| == 2 * |n| + 4;
    assert |Join(Names([c, c]))| == 2 * |n| + 2;
    assert |DescribeAsWritten([c, c])| == |Describe([c, c])| + 2;
  }

  /**
   * The velocity the first VelocityControl of an entity holds after one entity
   * tick: the Controls components, in list order, each apply `ControlsTick` with
   * their own batch and speed; every other kind leaves it alone.
   */
  function TickedVelocity(v: Velocity, kinds: seq<Kind>, speeds: seq<real>, batches: seq<seq<Event>>): Velocity
    requires |kinds| == |speeds| == |batches|
    decreases |kinds|
  {
    if |kinds| == 0 then v
    else
      var n := |kinds| - 1;
      var before := TickedVelocity(v, kinds[..n], speeds[..n], batches[..n]);
      if kinds[n] == ControlsKind then ControlsTick(before, batches[n], speeds[n]) else before
  }

  /** Components that are not Controls never change the entity's velocity. */
  lemma {:induction false} TickedVelocityWithoutControls(v: Velocity, kinds: seq<Kind>, speeds: seq<real>, batches: seq<seq<Event>>)
    requires |kinds| == |speeds| == |batches| && ControlsKind !in kinds
    ensures TickedVelocity(v, kinds, speeds, batches) == v
  {
    if |kinds| > 0 {
      var n := |kinds| - 1;
      assert ControlsKind !in kinds[..n];
      TickedVelocityWithoutControls(v, kinds[..n], speeds[..n], batches[..n]);
    }
  }

  /** Two Controls ticks compose in list order: the second sees the velocity the first left. */
  lemma TickedVelocityTwoControls(v: Velocity, s1: real, s2: real, b1: seq<Event>, b2: seq<Event>)
    ensures TickedVelocity(v, [ControlsKind, ControlsKind], [s1, s2], [b1, b2]) == ControlsTick(ControlsTick(v, b1, s1), b2, s2)
  {
    assert [ControlsKind, ControlsKind][..1] == [ControlsKind] && [s1, s2][..1] == [s1] && [b1, b2][..1] == [b1];
    assert [ControlsKind][..0] == [] && [s1][..0] == [] && [b1][..0] == [];
  }

  /**
   * The batch each entry sees in one entity tick: its held keys, then its
   * queue unless an earlier entry shares its manager (and so drained it first).
   */
  function Batches(held: seq<seq<Event>>, queued: seq<seq<Event>>, ems: seq<EventManager>): (b: seq<seq<Event>>)
    requires |held| == |queued| == |ems|
  {
    seq(|ems|, i requires 0 <= i < |ems| => held[i] + (if ems[i] in ems[..i] then [] else queued[i]))
  }

  function EventManagersOf(cs: seq<Component>): (ems: seq<EventManager>)
  {
    seq(|cs|, i requires 0 <= i < |cs| => cs[i].eventmanager)
  }

  /** The keys each input manager holds down. */
  ghost function HeldOf(ims: seq<InputManager>): (r: seq<seq<Event>>)
    reads ims
  {
    seq(|ims|, i requires 0 <= i < |ims| reads ims => ims[i].events)
  }

  /** The events each event manager has queued. */
  ghost function QueuedOf(ems: seq<EventManager>): (r: seq<seq<Event>>)
    reads ems
  {
    seq(|ems|, i requires 0 <= i < |ems| reads ems => ems[i].events)
  }

  ghost function StatesOf(cs: seq<Component>): (r: seq<map<string, StateValue>>)
    reads cs
  {
    seq(|cs|, i requires 0 <= i < |cs| reads cs => cs[i].state)
  }

  ghost function PositionsOf(cs: seq<Component>): (r: seq<Position2d>)
    reads cs
  {
    seq(|cs|, i requires 0 <= i < |cs| reads cs => cs[i].pos)
  }

  ghost function SpeedsOf(cs: seq<Component>): (r: seq<real>)
    requires forall c :: c in cs ==> c.Valid()
    reads cs
  {
    seq(|cs|, i requires 0 <= i < |cs| && cs[i].Valid() reads cs => if cs[i].kind == ControlsKind then cs[i].Speed() else 0.0)
  }

  /** The batch each entry of `cs` sees during one entity tick, taken from the queues and held keys before it starts. */
  ghost function EntityBatches(cs: seq<Component>): seq<seq<Event>>
    reads EventManagersOf(cs), InputManagersOf(EventManagersOf(cs))
  {
    var ems := EventManagersOf(cs);
    Batches(HeldOf(InputManagersOf(ems)), QueuedOf(ems), ems)
  }

  class GameObject {
    /** The components in insertion order; the list is only ever appended to. */
    var components: seq<Component>

    /** A new GameObject has no components. */
    constructor()
      ensures components == []
    {
      components := [];
    }

    ghost function ComponentSet(): set<Component>
      reads this
    {
      set c | c in components
    }

    ghost function EventManagerSet(): set<EventManager>
      reads this
    {
      set c | c in components :: c.eventmanager
    }

    ghost predicate Valid()
      reads this, ComponentSet()
    {
      forall c :: c in components ==> c.Valid()
    }

    /** `AddComponent`: append, with no check for a component of the same type. */
    method AddComponent(c: Component)
      modifies this
      ensures components == old(components) + [c]
    {
      components := components + [c];
    }

    /** `GetComponent(T)`: the first component matching T in insertion order, or None. */
    method GetComponent(t: ComponentType) returns (r: Option<Component>)
      ensures r == FirstMatch(components, t)
    {
      for i := 0 to |components|
        invariant FirstMatch(components, t) == FirstMatch(components[i..], t)
      {
        assert components[i..][1..] == components[i + 1..];
        if Matches(components[i].kind, t) {
          return Some(components[i]);
        }
      }
      return None;
    }

    /**
     * `OnTick`: every component's `OnTick(self)` once, in insertion order. Every
     * event queue ends up empty, and the first VelocityControl holds the
     * velocity the Controls ticks produce in turn.
     */
    method OnTick()
      requires Valid()
      modifies ComponentSet(), EventManagerSet()
      ensures Valid() && components == old(components)
      ensures forall j :: 0 <= j < |components| ==>
        components[j].eventmanager.events == [] && components[j].pos == old(components[j].pos)
      ensures forall j :: 0 <= j < |components| && FirstMatch(components, KindType(VelocityControlKind)) != Some(components[j]) ==>
        components[j].state == old(components[j].state)
      ensures FirstMatch(components, KindType(VelocityControlKind)).Some? ==>
        var vc := FirstMatch(components, KindType(VelocityControlKind)).value;
        vc.state == old(vc.state)["currentvelocity" := Vel(TickedVelocity(old(vc.CurrentVelocity()), Kinds(components),
          old(SpeedsOf(components)), old(EntityBatches(components))))]
    {
      ghost var plan := PlanOf(this);
      PlanStarts(this);
      PlanRecords(this);
      var n, vel := TickEntries(this, plan, plan.vels[0]);
      TickDone(this, plan, n, vel);
    }

    /** `__str__`: `GameObject()`, or the class names in `components=[...]`. */
    method ToString() returns (s: string)
      ensures s == Describe(components)
    {
      s := "GameObject(";
      if components != [] {
        s := s + "components=[";
        var listing := "";
        var i := 0;
        while i < |components|
          invariant 0 <= i <= |components|
          invariant listing == ListingUpTo(components, i)
        {
          listing := listing + KindName(components[i].kind);
          if i != |components| - 1 {
            listing := listing + ", ";
          }
          i := i + 1;
        }
        ListingJoins(components);
        s := s + listing + "]";
      }
      s := s + ")";
    }
  }


  lemma MapUpdateTwice<K, V>(m: map<K, V>, k: K, a: V, b: V)
    ensures m[k := a][k := b] == m[k := b]
  {
  }

  lemma MapUpdateSame<K, V>(m: map<K, V>, k: K)
    requires k in m
    ensures m[k := m[k]] == m
  {
  }

  /** The entity fold advances by one entry: a Controls entry applies its tick, any other kind passes the velocity on. */
  lemma TickedVelocityStep(v: Velocity, kinds: seq<Kind>, speeds: seq<real>, batches: seq<seq<Event>>, i: nat)
    requires |kinds| == |speeds| == |batches| && i < |kinds|
    ensures TickedVelocity(v, kinds[..i + 1], speeds[..i + 1], batches[..i + 1]) ==
      if kinds[i] == ControlsKind then ControlsTick(TickedVelocity(v, kinds[..i], speeds[..i], batches[..i]), batches[i], speeds[i])
      else TickedVelocity(v, kinds[..i], speeds[..i], batches[..i])
  {
    assert kinds[..i + 1][..i] == kinds[..i] && speeds[..i + 1][..i] == speeds[..i] && batches[..i + 1][..i] == batches[..i];
  }

  /** What one entry of the fold does to the velocity. */
  function TickStepVelocity(v: Velocity, k: Kind, batch: seq<Event>, speed: real): Velocity {
    if k == ControlsKind then ControlsTick(v, batch, speed) else v
  }

  /** The velocities after each prefix of the fold: entry `k` is `TickedVelocity` over the first `k` entries. */
  ghost function TickedPrefixes(v: Velocity, kinds: seq<Kind>, speeds: seq<real>, batches: seq<seq<Event>>): (r: seq<Velocity>)
    requires |kinds| == |speeds| == |batches|
    ensures |r| == |kinds| + 1 && r[0] == v && r[|kinds|] == TickedVelocity(v, kinds, speeds, batches)
    ensures forall k {:trigger TickStepVelocity(r[k], kinds[k], batches[k], speeds[k])} :: 0 <= k < |kinds| ==>
      r[k + 1] == TickStepVelocity(r[k], kinds[k], batches[k], speeds[k])
    decreases |kinds|
  {
    if |kinds| == 0 then [v]
    else
      var n := |kinds| - 1;
      var r := TickedPrefixes(v, kinds[..n], speeds[..n], batches[..n]);
      TickedVelocityStep(v, kinds, speeds, batches, n);
      assert kinds[..n + 1] == kinds && speeds[..n + 1] == speeds && batches[..n + 1] == batches;
      r + [TickStepVelocity(r[n], kinds[n], batches[n], speeds[n])]
  }

  /**
   * What one entity tick works from, taken before it starts: the components,
   * their kinds, speeds, event managers and input managers, held keys, queues,
   * states and positions, the batch each entry will see, the first
   * VelocityControl, and the velocity after each prefix of the fold.
   */
  datatype TickPlan = TickPlan(
    cs: seq<Component>, kinds: seq<Kind>, speeds: seq<real>, batches: seq<seq<Event>>,
    ems: seq<EventManager>, ims: seq<InputManager>, held: seq<seq<Event>>, queued: seq<seq<Event>>,
    states: seq<map<string, StateValue>>, positions: seq<Position2d>,
    found: Option<Component>, foundState: map<string, StateValue>, vels: seq<Velocity>)

  function InputManagersOf(ems: seq<EventManager>): (ims: seq<InputManager>)
  {
    seq(|ems|, i requires 0 <= i < |ems| => ems[i].inputmanager)
  }

  /** The plan of an entity tick of `g`, taken in the current state. */
  ghost function PlanOf(g: GameObject): TickPlan
    requires g.Valid()
    reads g, g.components, EventManagersOf(g.components), InputManagersOf(EventManagersOf(g.components))
  {
    var cs := g.components;
    var found := FirstMatch(cs, KindType(VelocityControlKind));
    var v0 := if found.Some? then found.value.CurrentVelocity() else Velocity(0.0, 0.0);
    var kinds := Kinds(cs);
    var speeds := SpeedsOf(cs);
    var ems := EventManagersOf(cs);
    var ims := InputManagersOf(ems);
    var batches := Batches(HeldOf(ims), QueuedOf(ems), ems);
    TickPlan(cs, kinds, speeds, batches, ems, ims, HeldOf(ims), QueuedOf(ems), StatesOf(cs), PositionsOf(cs),
             found, if found.Some? then found.value.state else map[], TickedPrefixes(v0, kinds, speeds, batches))
  }

  /** The facts of a plan that no tick changes. */
  ghost predicate PlanFits(p: TickPlan) {
    var cs := p.cs;
    && |p.speeds| == |p.held| == |p.queued| == |p.states| == |p.positions| == |cs| && |p.vels| == |cs| + 1
    && p.kinds == Kinds(cs) && p.ems == EventManagersOf(cs) && p.ims == InputManagersOf(p.ems)
    && p.batches == Batches(p.held, p.queued, p.ems)
    && p.found == FirstMatch(cs, KindType(VelocityControlKind))
    && (forall j :: 0 <= j < |cs| && p.kinds[j] == ControlsKind ==>
          "speed" in p.states[j] && p.states[j]["speed"].Number? && p.speeds[j] == p.states[j]["speed"].n)
    && (forall k {:trigger TickStepVelocity(p.vels[k], p.kinds[k], p.batches[k], p.speeds[k])} :: 0 <= k < |cs| ==>
          p.vels[k + 1] == TickStepVelocity(p.vels[k], p.kinds[k], p.batches[k], p.speeds[k]))
  }

  /** The queues after the first `i` entries ticked: a manager one of them has is empty, any other still holds what it held. */
  function DrainedQueues(ems: seq<EventManager>, queued: seq<seq<Event>>, i: nat): (r: seq<seq<Event>>)
    requires |queued| == |ems| && i <= |ems|
  {
    seq(|ems|, j requires 0 <= j < |ems| => if ems[j] in ems[..i] then [] else queued[j])
  }

  /** The states while the tick is under way: only the first VelocityControl has moved on, to `vel`. */
  function StatesWith(cs: seq<Component>, states: seq<map<string, StateValue>>, found: Option<Component>,
                      vcState: map<string, StateValue>): (r: seq<map<string, StateValue>>)
    requires |states| == |cs|
  {
    seq(|cs|, j requires 0 <= j < |cs| => if found == Some(cs[j]) then vcState else states[j])
  }

  /** The queues after the manager `m` is drained: every entry whose manager is `m` is empty, the others are kept. */
  function Cleared(queues: seq<seq<Event>>, ems: seq<EventManager>, m: EventManager): seq<seq<Event>>
    requires |queues| == |ems|
  {
    seq(|queues|, j requires 0 <= j < |queues| => if ems[j] == m then [] else queues[j])
  }

  /** Draining the manager of entry `i` after the first `i` entries is the drain after `i + 1` entries. */
  lemma DrainOne(ems: seq<EventManager>, queued: seq<seq<Event>>, i: nat)
    requires |queued| == |ems| && i < |ems|
    ensures Cleared(DrainedQueues(ems, queued, i), ems, ems[i]) == DrainedQueues(ems, queued, i + 1)
  {
    assert ems[..i + 1] == ems[..i] + [ems[i]];
  }

  /** Moving the first VelocityControl on twice is moving it on once, to the later state. */
  lemma StatesWithTwice(cs: seq<Component>, states: seq<map<string, StateValue>>, found: Option<Component>,
                        a: map<string, StateValue>, b: map<string, StateValue>)
    requires |states| == |cs|
    ensures StatesWith(cs, StatesWith(cs, states, found, a), found, b) == StatesWith(cs, states, found, b)
  {
  }

  /** What an entity tick changes or must leave alone, per entry: queues, held keys, positions and states. */
  datatype TickView = TickView(queued: seq<seq<Event>>, held: seq<seq<Event>>,
                               positions: seq<Position2d>, states: seq<map<string, StateValue>>)

  /** The view of a plan's components and managers in the current state. */
  ghost function ViewOf(p: TickPlan): TickView
    reads p.cs, p.ems, p.ims
  {
    TickView(QueuedOf(p.ems), HeldOf(p.ims), PositionsOf(p.cs), StatesOf(p.cs))
  }

  /** The view a plan expects once the first `i` entries ticked and the first VelocityControl holds `vel`. */
  function Expected(p: TickPlan, i: nat, vel: Velocity): TickView
    requires |p.queued| == |p.ems| && i <= |p.ems| && |p.states| == |p.cs|
  {
    TickView(DrainedQueues(p.ems, p.queued, i), p.held, p.positions,
             StatesWith(p.cs, p.states, p.found, p.foundState["currentvelocity" := Vel(vel)]))
  }

  /** The state of the entity while its tick is under way, after the first `i` entries. */
  ghost predicate TickState(g: GameObject, p: TickPlan, i: nat, vel: Velocity)
    reads g, p.cs, p.ems, p.ims
  {
    && g.components == p.cs && |p.queued| == |p.ems| && i <= |p.ems| && |p.states| == |p.cs|
    && ViewOf(p) == Expected(p, i, vel)
  }

  /** The facts the entity tick loop keeps after `i` entries. */
  ghost predicate TickInvariant(g: GameObject, p: TickPlan, i: nat, vel: Velocity)
    reads g, g.ComponentSet(), p.cs, p.ems, p.ims
  {
    g.Valid() && TickState(g, p, i, vel) && i < |p.vels| && vel == p.vels[i]
  }

  /** A plan taken from an entity fits it. */
  lemma PlanOfFits(g: GameObject)
    requires g.Valid()
    ensures PlanFits(PlanOf(g))
  {
    var p := PlanOf(g);
    var cs := p.cs;
    forall j | 0 <= j < |cs| && p.kinds[j] == ControlsKind
      ensures "speed" in p.states[j] && p.states[j]["speed"].Number? && p.speeds[j] == p.states[j]["speed"].n
    {
      assert cs[j] in g.components;
      assert cs[j].Valid();
      assert p.states[j] == cs[j].state;
      assert p.speeds[j] == cs[j].Speed();
    }
  }

  /** The state a plan records is the state it was taken in. */
  lemma PlanOfState(g: GameObject)
    requires g.Valid()
    ensures |PlanOf(g).vels| > 0 && TickState(g, PlanOf(g), 0, PlanOf(g).vels[0])
  {
    var p := PlanOf(g);
    var cs := p.cs;
    assert QueuedOf(p.ems) == DrainedQueues(p.ems, p.queued, 0);
    if p.found.Some? {
      assert p.found.value in g.components;
      assert p.found.value.Valid();
      assert p.vels[0] == p.found.value.CurrentVelocity();
      assert p.foundState["currentvelocity"] == Vel(p.vels[0]);
      MapUpdateSame(p.foundState, "currentvelocity");
    }
    assert StatesOf(cs) == StatesWith(cs, p.states, p.found, p.foundState["currentvelocity" := Vel(p.vels[0])]);
  }

  /** Before the first entry the loop facts hold with nothing drained. */
  lemma PlanStarts(g: GameObject)
    requires g.Valid()
    ensures PlanFits(PlanOf(g)) && TickInvariant(g, PlanOf(g), 0, PlanOf(g).vels[0])
  {
    PlanOfFits(g);
    PlanOfState(g);
  }

  /** What a plan records about the state it is taken in. */
  lemma PlanRecords(g: GameObject)
    requires g.Valid()
    ensures var p := PlanOf(g);
      && p.cs == g.components && |p.positions| == |p.states| == |p.cs|
      && (forall j :: 0 <= j < |p.cs| ==> p.positions[j] == p.cs[j].pos && p.states[j] == p.cs[j].state)
      && p.found == FirstMatch(g.components, KindType(VelocityControlKind))
      && (p.found.Some? ==>
            && p.foundState == p.found.value.state && |p.vels| == |p.cs| + 1
            && p.vels[|p.cs|] == TickedVelocity(p.found.value.CurrentVelocity(), Kinds(p.cs), SpeedsOf(p.cs), EntityBatches(p.cs)))
  {
  }

  /** While the tick is under way the first VelocityControl holds the velocity reached so far. */
  lemma FoundHolds(g: GameObject, p: TickPlan, i: nat, vel: Velocity)
    requires PlanFits(p) && TickState(g, p, i, vel) && p.found.Some?
    ensures p.found.value.state == p.foundState["currentvelocity" := Vel(vel)]
  {
    var k :| 0 <= k < |p.cs| && p.cs[k] == p.found.value;
    assert StatesOf(p.cs)[k] == p.cs[k].state;
  }

  /** After the last entry every queue is empty, and the rest of the state is as the plan says. */
  lemma TickDone(g: GameObject, p: TickPlan, i: nat, vel: Velocity)
    requires PlanFits(p) && TickInvariant(g, p, i, vel) && i >= |g.components|
    ensures g.Valid() && g.components == p.cs && |p.positions| == |p.states| == |p.cs| && |p.vels| == |p.cs| + 1
    ensures forall j :: 0 <= j < |p.cs| ==> p.cs[j].eventmanager.events == [] && p.cs[j].pos == p.positions[j]
    ensures forall j :: 0 <= j < |p.cs| && p.found != Some(p.cs[j]) ==> p.cs[j].state == p.states[j]
    ensures p.found.Some? ==> p.found.value.state == p.foundState["currentvelocity" := Vel(p.vels[|p.cs|])]
  {
    assert i == |p.cs| && p.ems[..i] == p.ems;
    forall j | 0 <= j < |p.cs|
      ensures p.cs[j].eventmanager.events == [] && p.cs[j].pos == p.positions[j]
    {
      assert p.ems[j] in p.ems[..i];
      assert QueuedOf(p.ems)[j] == p.ems[j].events;
      assert PositionsOf(p.cs)[j] == p.cs[j].pos;
    }
    forall j | 0 <= j < |p.cs| && p.found != Some(p.cs[j]) ensures p.cs[j].state == p.states[j] {
      assert StatesOf(p.cs)[j] == p.cs[j].state;
    }
    if p.found.Some? {
      FoundHolds(g, p, i, vel);
    }
  }

  /** The entity tick loop: every entry ticks, in insertion order. */
  method TickEntries(g: GameObject, ghost p: TickPlan, ghost v0: Velocity)
    returns (n: nat, ghost vel: Velocity)
    requires PlanFits(p) && g.components == p.cs && TickInvariant(g, p, 0, v0)
    modifies g.ComponentSet(), g.EventManagerSet()
    ensures n == |p.cs| && TickInvariant(g, p, n, vel)
  {
    n, vel := 0, v0;
    while n < |g.components|
      invariant n <= |p.cs| == |g.components|
      invariant TickInvariant(g, p, n, vel)
    {
      vel := TickEntry(g, p, n, vel);
      n := n + 1;
    }
  }

  /** What entry `i` of a running tick works with: its batch, its speed, and the velocity the first VelocityControl holds. */
  lemma EntryReady(g: GameObject, p: TickPlan, i: nat, vel: Velocity)
    requires PlanFits(p) && TickInvariant(g, p, i, vel) && i < |p.cs|
    ensures g.Valid() && g.components == p.cs
    ensures p.ems == EventManagersOf(g.components) && p.ims == InputManagersOf(p.ems)
    ensures p.found == FirstMatch(g.components, KindType(VelocityControlKind))
    ensures p.batches[i] == p.cs[i].eventmanager.inputmanager.events + p.cs[i].eventmanager.events
    ensures p.cs[i].Valid() && (p.cs[i].kind == ControlsKind ==> p.speeds[i] == p.cs[i].Speed())
    ensures p.found.Some? ==> p.found.value.state == p.foundState["currentvelocity" := Vel(vel)]
    ensures p.vels[i + 1] == TickStepVelocity(vel, p.cs[i].kind, p.batches[i], p.speeds[i])
  {
    EntryBatch(g, p, i, vel);
    EntrySpeed(g, p, i, vel);
    assert TickStepVelocity(p.vels[i], p.kinds[i], p.batches[i], p.speeds[i]) == p.vels[i + 1];
    if p.found.Some? {
      FoundHolds(g, p, i, vel);
    }
  }

  /** Entry `i` sees the keys its input manager holds and whatever its event manager still has queued. */
  lemma EntryBatch(g: GameObject, p: TickPlan, i: nat, vel: Velocity)
    requires PlanFits(p) && TickInvariant(g, p, i, vel) && i < |p.cs|
    ensures p.batches[i] == p.cs[i].eventmanager.inputmanager.events + p.cs[i].eventmanager.events
  {
    assert HeldOf(p.ims)[i] == p.held[i];
    assert QueuedOf(p.ems)[i] == DrainedQueues(p.ems, p.queued, i)[i];
  }

  /** A Controls entry still has the speed the plan recorded: only the first VelocityControl's state has moved. */
  lemma EntrySpeed(g: GameObject, p: TickPlan, i: nat, vel: Velocity)
    requires PlanFits(p) && TickInvariant(g, p, i, vel) && i < |p.cs|
    ensures p.cs[i].Valid() && (p.cs[i].kind == ControlsKind ==> p.speeds[i] == p.cs[i].Speed())
  {
    var c := p.cs[i];
    assert c in g.components && c.Valid();
    assert p.kinds[i] == c.kind;
    if c.kind == ControlsKind {
      assert p.found != Some(c);
      assert StatesOf(p.cs)[i] == c.state;
      assert c.state == p.states[i];
    }
  }

  /** One pass of the entity tick loop: entry `i` ticks, and the loop facts move from `i` to `i + 1`. */
  method TickEntry(g: GameObject, ghost p: TickPlan, i: nat, ghost vel: Velocity)
    returns (ghost vel': Velocity)
    requires PlanFits(p) && TickInvariant(g, p, i, vel) && i < |p.cs|
    modifies g.ComponentSet(), g.EventManagerSet()
    ensures TickInvariant(g, p, i + 1, vel')
  {
    EntryReady(g, p, i, vel);
    vel' := p.vels[i + 1];
    TickStep(g, i, p.ems, p.ims, p.found, vel, p.batches[i], p.speeds[i]);
    DrainOne(p.ems, p.queued, i);
    if p.found.Some? {
      MapUpdateTwice(p.foundState, "currentvelocity", Vel(vel), Vel(vel'));
      StatesWithTwice(p.cs, p.states, p.found, p.foundState["currentvelocity" := Vel(vel)], p.foundState["currentvelocity" := Vel(vel')]);
    }
  }

  /**
   * One step of the entity tick loop: component `i` ticks with its batch and
   * speed. Its manager's queue empties, and only the first VelocityControl's
   * state can change.
   */
  method TickStep(g: GameObject, i: nat, ghost ems: seq<EventManager>, ghost ims: seq<InputManager>,
                  ghost found: Option<Component>, ghost vBefore: Velocity, ghost batch: seq<Event>, ghost speed: real)
    requires i < |g.components| && g.Valid()
    requires ems == EventManagersOf(g.components) && ims == InputManagersOf(ems)
    requires found == FirstMatch(g.components, KindType(VelocityControlKind))
    requires batch == g.components[i].eventmanager.inputmanager.events + g.components[i].eventmanager.events
    requires g.components[i].kind == ControlsKind ==> speed == g.components[i].Speed()
    requires found.Some? ==> found.value.state["currentvelocity"] == Vel(vBefore)
    modifies g.ComponentSet(), g.EventManagerSet()
    ensures g.Valid() && g.components == old(g.components)
    ensures QueuedOf(ems) == Cleared(old(QueuedOf(ems)), ems, ems[i])
    ensures HeldOf(ims) == old(HeldOf(ims))
    ensures PositionsOf(g.components) == old(PositionsOf(g.components))
    ensures found.None? ==> StatesOf(g.components) == old(StatesOf(g.components))
    ensures found.Some? ==>
      StatesOf(g.components) == StatesWith(g.components, old(StatesOf(g.components)), found,
        old(found.value.state)["currentvelocity" := Vel(TickStepVelocity(vBefore, g.components[i].kind, batch, speed))])
  {
    TickEffects(g, i, ems, ims, found, vBefore, batch, speed);
  }

  /** Component `i` ticks: the queues and held keys as whole sequences, positions and states still component by component. */
  method TickEffects(g: GameObject, i: nat, ghost ems: seq<EventManager>, ghost ims: seq<InputManager>,
                     ghost found: Option<Component>, ghost vBefore: Velocity, ghost batch: seq<Event>, ghost speed: real)
    requires i < |g.components| && g.Valid()
    requires ems == EventManagersOf(g.components) && ims == InputManagersOf(ems)
    requires found == FirstMatch(g.components, KindType(VelocityControlKind))
    requires batch == g.components[i].eventmanager.inputmanager.events + g.components[i].eventmanager.events
    requires g.components[i].kind == ControlsKind ==> speed == g.components[i].Speed()
    requires found.Some? ==> found.value.state["currentvelocity"] == Vel(vBefore)
    modifies g.ComponentSet(), g.EventManagerSet()
    ensures g.Valid() && g.components == old(g.components)
    ensures QueuedOf(ems) == Cleared(old(QueuedOf(ems)), ems, ems[i])
    ensures HeldOf(ims) == old(HeldOf(ims))
    ensures forall c :: c in g.components ==> c.pos == old(c.pos)
    ensures forall c :: c in g.components && found != Some(c) ==> c.state == old(c.state)
    ensures found.Some? ==>
      found.value.state == old(found.value.state)["currentvelocity" :=
        Vel(TickStepVelocity(vBefore, g.components[i].kind, batch, speed))]
  {
    ComponentTick(g, i, found, vBefore, batch, speed);
  }

  /** Component `i` ticks, stated component by component. */
  method ComponentTick(g: GameObject, i: nat, ghost found: Option<Component>, ghost vBefore: Velocity,
                       ghost batch: seq<Event>, ghost speed: real)
    requires i < |g.components| && g.Valid()
    requires found == FirstMatch(g.components, KindType(VelocityControlKind))
    requires batch == g.components[i].eventmanager.inputmanager.events + g.components[i].eventmanager.events
    requires g.components[i].kind == ControlsKind ==> speed == g.components[i].Speed()
    requires found.Some? ==> found.value.state["currentvelocity"] == Vel(vBefore)
    modifies g.ComponentSet(), g.EventManagerSet()
    ensures g.Valid()
    ensures g.components == old(g.components)
    ensures forall j :: 0 <= j < |g.components| ==>
      g.components[j].eventmanager.inputmanager.events == old(g.components[j].eventmanager.inputmanager.events)
    ensures g.components[i].eventmanager.events == []
    ensures forall j :: 0 <= j < |g.components| && g.components[j].eventmanager != g.components[i].eventmanager ==>
      g.components[j].eventmanager.events == old(g.components[j].eventmanager.events)
    ensures forall c :: c in g.components ==> c.pos == old(c.pos)
    ensures forall c :: c in g.components && found != Some(c) ==> c.state == old(c.state)
    ensures found.Some? ==>
      found.value.state == old(found.value.state)["currentvelocity" :=
        Vel(if g.components[i].kind == ControlsKind then ControlsTick(vBefore, batch, speed) else vBefore)]
  {
    var c := g.components[i];
    assert c in g.components && c.Valid();
    c.OnTick(g);
    assert found.Some? && c.kind != ControlsKind ==> found.value.state == old(found.value.state)["currentvelocity" := Vel(vBefore)];
  }

  /** `GetComponent` changes nothing, so asking twice gives the same instance. */
  method GetComponentTwice(g: GameObject, t: ComponentType) returns (first: Option<Component>, second: Option<Component>)
    ensures first == second == FirstMatch(g.components, t)
  {
    first := g.GetComponent(t);
    second := g.GetComponent(t);
  }

  /** A tick in which only the last entry is a Controls is that one Controls tick. */
  lemma TickedVelocityLastControls(v: Velocity, kinds: seq<Kind>, speeds: seq<real>, batches: seq<seq<Event>>)
    requires |kinds| == |speeds| == |batches| > 0
    requires kinds[|kinds| - 1] == ControlsKind && ControlsKind !in kinds[..|kinds| - 1]
    ensures TickedVelocity(v, kinds, speeds, batches) == ControlsTick(v, batches[|kinds| - 1], speeds[|kinds| - 1])
  {
    var n := |kinds| - 1;
    TickedVelocityWithoutControls(v, kinds[..n], speeds[..n], batches[..n]);
  }

  /**
   * An entity built as src/main.py builds one: a new GameObject, a Controls
   * made for it and then attached, and "w" queued on the Controls.
   */
  method SteeredEntity() returns (g: GameObject)
    ensures fresh(g) && fresh(g.ComponentSet()) && fresh(g.EventManagerSet())
    ensures g.Valid()
    ensures Kinds(g.components) == [TransformKind, VelocityControlKind, ControlsKind]
    ensures SpeedsOf(g.components)[2] == 1.0
    ensures EntityBatches(g.components)[2] == [Keydown("w")]
    ensures FirstMatch(g.components, KindType(VelocityControlKind)) == Some(g.components[1])
    ensures g.components[1].CurrentVelocity() == Velocity(0.0, 0.0)
  {
    g := new GameObject();
    var c := new Component.Controls(g);
    ControlsOnEmptyEntity();
    ghost var attached := g.components;
    assert |attached| == 2 && attached[0].kind == TransformKind && attached[1].kind == VelocityControlKind by {
      assert Kinds(attached) == [TransformKind, VelocityControlKind];
      assert Kinds(attached)[0] == attached[0].kind && Kinds(attached)[1] == attached[1].kind;
    }
    g.AddComponent(c);
    c.eventmanager.AddEvent(Keydown("w"));
    ghost var cs := g.components;
    assert cs == attached + [c];
    assert cs[0].kind == TransformKind && cs[1].kind == VelocityControlKind && cs[2].kind == ControlsKind;
    ghost var ems := EventManagersOf(cs);
    assert ems[2] == c.eventmanager && ems[2] !in ems[..2];
  }

  /** With "w" queued on the Controls of `SteeredEntity`, one tick leaves its VelocityControl moving at speed 1 in direction 0. */
  method SteerNorth() returns (kinds: seq<Kind>, v: Option<Velocity>)
    ensures kinds == [TransformKind, VelocityControlKind, ControlsKind]
    ensures v == Some(Velocity(1.0, 0.0))
  {
    var g := SteeredEntity();
    ghost var cs := g.components;
    assert ControlsTick(Velocity(0.0, 0.0), [Keydown("w")], 1.0) == Velocity(1.0, 0.0) by {
      DirectionOfCases(Keydown("w"));
      assert Directions(Keydowns([Keydown("w")])) == [0];
      ControlsMapped(Velocity(0.0, 0.0), [Keydown("w")], 1.0);
    }
    TickedVelocityLastControls(Velocity(0.0, 0.0), Kinds(cs), SpeedsOf(cs), EntityBatches(cs));
    g.OnTick();
    assert cs[1].state["currentvelocity"] == Vel(Velocity(1.0, 0.0));
    kinds := Kinds(g.components);
    var found := g.GetComponent(KindType(VelocityControlKind));
    v := None;
    if found.Some? && "currentvelocity" in found.value.state && found.value.state["currentvelocity"].Vel? {
      v := Some(found.value.state["currentvelocity"].v);
    }
  }

  /** Two new components have managers of their own: an event added to one is not delivered to the other. */
  method SeparateQueues(e: Event) returns (delivered: seq<Event>, other: seq<Event>)
    ensures delivered == [e] && other == []
  {
    var a := new Component.Transform();
    var b := new Component.Transform();
    a.eventmanager.AddEvent(e);
    delivered := a.eventmanager.Get();
    other := b.eventmanager.Get();
  }
}
