/**
 * The engine bookkeeping of src/renderer.py: the game object list with
 * Python's `list.insert`, the render pass that culls each object's Model
 * against the camera, and one iteration of the engine loop with its tick
 * counter and rate choice.
 *
 * The screen, the pygame clock and event queue, and the optional extra tick
 * callback are outside the model: the callback is recorded as called or not.
 */
module Renderer {
  import opened Wrappers
  import opened Utils
  import opened Ecs
  import opened Camera
  import opened Events

  /** Where `list.insert(i, x)` puts `x` in a list of length `n`: negative `i` counts from the end, and both ends clamp. */
  function InsertIndex(n: nat, i: int): (k: nat)
    ensures k <= n
  {
    if i < 0 then (if n + i < 0 then 0 else n + i) else (if i > n then n else i)
  }

  /** `list.insert`: `x` goes in before position `InsertIndex(|xs|, i)`. */
  function Insert<T>(xs: seq<T>, i: int, x: T): (r: seq<T>)
    ensures |r| == |xs| + 1 && r[InsertIndex(|xs|, i)] == x
  {
    var k := InsertIndex(|xs|, i);
    xs[..k] + [x] + xs[k..]
  }

  /** An insert adds exactly one entry, `x`, and loses none. */
  lemma InsertMultiset<T>(xs: seq<T>, i: int, x: T)
    ensures multiset(Insert(xs, i, x)) == multiset(xs) + multiset{x}
  {
    var k := InsertIndex(|xs|, i);
    assert xs == xs[..k] + xs[k..];
  }

  /** The list without its entry at `k`. */
  function RemoveAt<T>(s: seq<T>, k: nat): (r: seq<T>)
    requires k < |s|
    ensures |r| == |s| - 1
  {
    s[..k] + s[k + 1..]
  }

  /** Taking the new entry out again gives the old list: an insert keeps every other entry, in order. */
  lemma InsertThenRemove<T>(xs: seq<T>, i: int, x: T)
    ensures RemoveAt(Insert(xs, i, x), InsertIndex(|xs|, i)) == xs
  {
    var k := InsertIndex(|xs|, i);
    var r := Insert(xs, i, x);
    assert r[..k] == xs[..k];
    assert r[k + 1..] == xs[k..];
  }

  /** The four cases of `list.insert`'s index. */
  lemma InsertIndexCases(n: nat, i: int)
    ensures 0 <= i <= n ==> InsertIndex(n, i) == i
    ensures i > n ==> InsertIndex(n, i) == n
    ensures -(n as int) <= i < 0 ==> InsertIndex(n, i) == n + i
    ensures i < -(n as int) ==> InsertIndex(n, i) == 0
  {
  }

  /** Adding B at layer 0 after A at layer 0 gives [B, A]. */
  lemma InsertFrontTwice<T>(a: T, b: T)
    ensures Insert(Insert([], 0, a), 0, b) == [b, a]
  {
    assert Insert([], 0, a) == [a];
  }

  /** Layer -1 inserts before the last entry. */
  lemma InsertBeforeLast<T>(a: T, b: T, c: T, x: T)
    ensures Insert([a, b, c], -1, x) == [a, b, x, c]
  {
    assert InsertIndex(3, -1) == 2;
    assert [a, b, c][..2] == [a, b] && [a, b, c][2..] == [c];
  }

  /** A layer past the end appends. */
  lemma InsertPastEnd<T>(a: T, b: T, x: T)
    ensures Insert([a, b], 7, x) == [a, b, x]
  {
    assert InsertIndex(2, 7) == 2;
    assert [a, b][..2] == [a, b] && [a, b][2..] == [];
  }

  /** The first Model of `g`, if any: what `Renderer.Render` draws for it. */
  function ModelOf(g: GameObject): (m: Option<Component>)
    reads g
    ensures m.Some? ==> m.value in g.components && m.value.kind == ModelKind
    ensures m.None? <==> forall c :: c in g.components ==> c.kind != ModelKind
  {
    FirstMatch(g.components, KindType(ModelKind))
  }

  /** The Models one render pass draws, in list order: one per object that has a Model. */
  function ModelsOf(gos: seq<GameObject>): seq<Component>
    reads gos
    decreases |gos|
  {
    if gos == [] then []
    else
      var n := |gos| - 1;
      ModelsOf(gos[..n]) + (if ModelOf(gos[n]).Some? then [ModelOf(gos[n]).value] else [])
  }

  /**
   * A render pass draws only Models, each the first Model of some object, and
   * draws the first Model of every object that has one; it draws at most one
   * per object.
   */
  lemma {:induction false} ModelsOfSpec(gos: seq<GameObject>)
    ensures |ModelsOf(gos)| <= |gos|
    ensures forall m :: m in ModelsOf(gos) ==> m.kind == ModelKind && exists g :: g in gos && ModelOf(g) == Some(m)
    ensures forall g :: g in gos && ModelOf(g).Some? ==> ModelOf(g).value in ModelsOf(gos)
  {
    if gos != [] {
      var n := |gos| - 1;
      ModelsOfSpec(gos[..n]);
      assert gos == gos[..n] + [gos[n]];
      forall m | m in ModelsOf(gos) ensures m.kind == ModelKind && exists g :: g in gos && ModelOf(g) == Some(m) {
        if m in ModelsOf(gos[..n]) {
          var g :| g in gos[..n] && ModelOf(g) == Some(m);
          assert g in gos;
        } else {
          assert ModelOf(gos[n]) == Some(m);
        }
      }
    }
  }

  /** Objects without a Model contribute nothing to a render pass. */
  lemma {:induction false} ModelsOfNone(gos: seq<GameObject>)
    requires forall g :: g in gos ==> ModelOf(g).None?
    ensures ModelsOf(gos) == []
  {
    if gos != [] {
      var n := |gos| - 1;
      assert gos[n] in gos;
      ModelsOfNone(gos[..n]);
    }
  }

  /** The Transform a Model found its position by, if it found one. */
  function TransformOf(m: Component): set<Component> {
    if m.transform.Some? then {m.transform.value} else {}
  }

  /** The Transforms the components of `gos` refer to. */
  function TransformsOf(gos: seq<GameObject>): set<Component>
    reads gos
  {
    set g, m | g in gos && m in g.components && m.transform.Some? :: m.transform.value
  }

  /**
   * `Model.Render` as evidently intended: the sprite is drawn when the camera
   * sees a box of the sprite's length around the Transform's position, which
   * `Transform.GetPos` returns and is read here as its `pos` field.
   */
  predicate Shows(m: Component, cam: Camera2d)
    reads cam, TransformOf(m)
  {
    m.transform.Some? && cam.IsVisible(m.transform.value.pos, m.spriteLength)
  }

  /** The Transforms of `gos[..n]` are Transforms of `gos`. */
  lemma TransformsOfPrefix(gos: seq<GameObject>, n: nat)
    requires n <= |gos|
    ensures TransformsOf(gos[..n]) <= TransformsOf(gos)
  {
    forall t | t in TransformsOf(gos[..n]) ensures t in TransformsOf(gos) {
      var g, c :| g in gos[..n] && c in g.components && c.transform.Some? && c.transform.value == t;
      assert g in gos;
    }
  }

  /**
   * The Models of `gos` that a camera-culled render draws, in list order,
   * reading the Transforms through `ts`, any set that holds them.
   */
  function DrawnAmong(gos: seq<GameObject>, cam: Camera2d, ts: set<Component>): seq<Component>
    requires TransformsOf(gos) <= ts
    reads cam, gos, ts
    decreases |gos|
  {
    if gos == [] then []
    else
      var n := |gos| - 1;
      var m := ModelOf(gos[n]);
      TransformsOfPrefix(gos, n);
      assert m.Some? && m.value.transform.Some? ==> m.value.transform.value in TransformsOf(gos);
      DrawnAmong(gos[..n], cam, ts) + (if m.Some? && Shows(m.value, cam) then [m.value] else [])
  }

  /** The Models of `gos` that a camera-culled render draws, in list order. */
  function Drawn(gos: seq<GameObject>, cam: Camera2d): seq<Component>
    reads cam, gos, TransformsOf(gos)
  {
    DrawnAmong(gos, cam, TransformsOf(gos))
  }

  /** Which set the Transforms are read through makes no difference. */
  lemma {:induction false} DrawnAmongAny(gos: seq<GameObject>, cam: Camera2d, ts: set<Component>, us: set<Component>)
    requires TransformsOf(gos) <= ts && TransformsOf(gos) <= us
    ensures DrawnAmong(gos, cam, ts) == DrawnAmong(gos, cam, us)
  {
    if gos != [] {
      var n := |gos| - 1;
      TransformsOfPrefix(gos, n);
      DrawnAmongAny(gos[..n], cam, ts, us);
    }
  }

  /** `Drawn` of all but the last object, then the last object's Model if the camera sees it. */
  lemma DrawnLast(gos: seq<GameObject>, cam: Camera2d)
    requires gos != []
    ensures var n := |gos| - 1; var m := ModelOf(gos[n]);
      Drawn(gos, cam) == Drawn(gos[..n], cam) + (if m.Some? && Shows(m.value, cam) then [m.value] else [])
  {
    var n := |gos| - 1;
    TransformsOfPrefix(gos, n);
    DrawnAmongAny(gos[..n], cam, TransformsOf(gos), TransformsOf(gos[..n]));
  }

  /**
   * A culled render draws exactly the selected Models the camera sees, in the
   * order of the objects, and at most one per object.
   */
  lemma {:induction false} DrawnSpec(gos: seq<GameObject>, cam: Camera2d)
    ensures |Drawn(gos, cam)| <= |ModelsOf(gos)|
    ensures forall m :: m in Drawn(gos, cam) <==> m in ModelsOf(gos) && Shows(m, cam)
  {
    if gos != [] {
      var n := |gos| - 1;
      DrawnLast(gos, cam);
      DrawnSpec(gos[..n], cam);
    }
  }

  /** With the camera seeing none of the Models, nothing is drawn. */
  lemma {:induction false} DrawnNone(gos: seq<GameObject>, cam: Camera2d)
    requires forall g :: g in gos && ModelOf(g).Some? ==> !Shows(ModelOf(g).value, cam)
    ensures Drawn(gos, cam) == []
  {
    if gos != [] {
      var n := |gos| - 1;
      assert gos[n] in gos;
      DrawnLast(gos, cam);
      DrawnNone(gos[..n], cam);
    }
  }

  /** Drawing from one more object draws what was drawn before, then that object's Model if the camera sees it. */
  lemma DrawnSnoc(gos: seq<GameObject>, i: nat, cam: Camera2d)
    requires i < |gos|
    ensures Drawn(gos[..i + 1], cam) == Drawn(gos[..i], cam) + (if ModelOf(gos[i]).Some? && Shows(ModelOf(gos[i]).value, cam) then [ModelOf(gos[i]).value] else [])
  {
    DrawnLast(gos[..i + 1], cam);
    assert gos[..i + 1][..i] == gos[..i];
  }

  /** Extending the listed objects by one extends the selected Models by that object's Model, if any. */
  lemma ModelsOfSnoc(gos: seq<GameObject>, i: nat)
    requires i < |gos|
    ensures ModelsOf(gos[..i + 1]) == ModelsOf(gos[..i]) + (if ModelOf(gos[i]).Some? then [ModelOf(gos[i]).value] else [])
  {
    assert gos[..i + 1][..i] == gos[..i];
  }

  /**
   * `Renderer.Render(gameobjects, camera)` with `Model.Render` as evidently
   * intended: visit the objects in order and draw each one's Model when the
   * camera sees it. Filling the screen, the draw call and the display update
   * are not modelled.
   */
  method RenderPass(gos: seq<GameObject>, cam: Camera2d) returns (drawn: seq<Component>)
    ensures drawn == Drawn(gos, cam)
  {
    drawn := [];
    for i := 0 to |gos|
      invariant drawn == Drawn(gos[..i], cam)
    {
      var comp := gos[i].GetComponent(KindType(ModelKind));
      assert comp == ModelOf(gos[i]) && drawn == Drawn(gos[..i], cam);
      DrawnSnoc(gos, i, cam);
      if comp.Some? {
        if comp.value.kind == ModelKind {
          var model := comp.value;
          var visible := model.transform.Some? && cam.IsVisible(model.transform.value.pos, model.spriteLength);
          assert visible == Shows(model, cam);
          if visible {
            drawn := drawn + [model];
          }
        }
      }
    }
    assert gos[..|gos|] == gos;
  }

  /** The Models selected from a prefix of the objects start the Models selected from all of them. */
  lemma {:induction false} ModelsOfPrefix(gos: seq<GameObject>, k: nat)
    requires k <= |gos|
    ensures ModelsOf(gos[..k]) <= ModelsOf(gos)
    decreases |gos| - k
  {
    if k == |gos| {
      assert gos[..k] == gos;
    } else {
      ModelsOfPrefix(gos, k + 1);
      ModelsOfSnoc(gos, k);
    }
  }

  /**
   * `Renderer.Render` as written: the first Model it reaches has its `Render`
   * called, which calls `IsVisible` with one argument too few and raises a
   * TypeError. The result is the Model whose `Render` raised, if any.
   */
  method RenderPassAsWritten(gos: seq<GameObject>) returns (raisedAt: Option<Component>)
    ensures raisedAt.None? <==> forall g :: g in gos ==> ModelOf(g).None?
    ensures raisedAt.Some? ==> ModelsOf(gos) != [] && raisedAt.value == ModelsOf(gos)[0]
  {
    for i := 0 to |gos|
      invariant forall g :: g in gos[..i] ==> ModelOf(g).None?
    {
      var comp := gos[i].GetComponent(KindType(ModelKind));
      if comp.Some? {
        if comp.value.kind == ModelKind {
          ModelsOfNone(gos[..i]);
          ModelsOfSnoc(gos, i);
          ModelsOfPrefix(gos, i + 1);
          assert ModelsOf(gos[..i + 1]) == [comp.value];
          return Some(comp.value);
        }
      }
      assert gos[..i + 1] == gos[..i] + [gos[i]];
    }
    assert gos[..|gos|] == gos;
    ModelsOfNone(gos);
    return None;
  }

  /** Every component of the objects `gos`. */
  ghost function ComponentsOf(gos: seq<GameObject>): set<Component>
    reads gos
  {
    set g, c | g in gos && c in g.components :: c
  }

  /** Every event manager of a component of the objects `gos`. */
  ghost function ManagersOf(gos: seq<GameObject>): set<EventManager>
    reads gos
  {
    set g, c | g in gos && c in g.components :: c.eventmanager
  }

  /** Every object of `gos` has well-formed components. */
  ghost predicate AllValid(gos: seq<GameObject>)
    reads gos, ComponentsOf(gos)
  {
    forall g :: g in gos ==> g.Valid()
  }

  /**
   * The `for g in self.gameobjects: g.OnTick()` loop of the engine: each
   * object ticks once, in list order. Objects may share components, so the
   * later ticks see what the earlier ones left; at the end every queue of
   * every object is empty and no component has moved.
   */
  method TickObjects(gos: seq<GameObject>)
    requires AllValid(gos)
    modifies ComponentsOf(gos), ManagersOf(gos)
    ensures AllValid(gos)
    ensures forall g, c :: g in gos && c in g.components ==> c.eventmanager.events == [] && c.pos == old(c.pos)
  {
    for i := 0 to |gos|
      invariant AllValid(gos)
      invariant forall k, c :: 0 <= k < i && c in gos[k].components ==> c.eventmanager.events == []
      invariant forall g, c :: g in gos && c in g.components ==> c.pos == old(c.pos)
    {
      TickOne(gos, i);
    }
  }

  /** One object's tick inside `TickObjects`: what it leaves for the others. */
  method TickOne(gos: seq<GameObject>, i: nat)
    requires i < |gos| && AllValid(gos)
    modifies ComponentsOf(gos), ManagersOf(gos)
    ensures AllValid(gos)
    ensures forall c :: c in gos[i].components ==> c.eventmanager.events == []
    ensures forall g, c :: g in gos && c in g.components && c.eventmanager.events != [] ==>
      c.eventmanager.events == old(c.eventmanager.events)
    ensures forall g, c :: g in gos && c in g.components ==> c.pos == old(c.pos)
  {
    var g := gos[i];
    assert g.Valid();
    g.OnTick();
    forall h | h in gos ensures h.Valid() {
      forall c | c in h.components ensures c.Valid() {
        if c !in g.components {
          assert old(c.Valid());
        }
      }
    }
    forall c | c in g.components ensures c.eventmanager.events == [] {
      var j :| 0 <= j < |g.components| && g.components[j] == c;
    }
  }

  /** The steps of one engine iteration, in the order they run. */
  datatype Step = TickObjectsStep | RenderStep | CheckNativeStep | ExtraTickStep | CountStep

  class Engine {
    /** The game objects, ticked and drawn in this order. */
    var gameobjects: seq<GameObject>
    var camera: Camera2d
    /** Ticks per refresh: the `tpr` argument (1 by default) times the display's refresh rate. */
    var tpr: int
    /** Overrides `tpr` when present. */
    var rawTpr: Option<real>
    /** Whether an extra tick callback was given. */
    var hasExtraTick: bool
    /** The number of finished loop iterations. */
    var tick: int

    /**
     * `Engine(renderer, color, camera, tpr, raw_tpr, tick)`: a missing camera
     * becomes an 800 by 600 camera at the origin and a missing `tpr` becomes
     * 1; the display's refresh rate is a parameter.
     */
    constructor(camera: Option<Camera2d>, tpr: Option<int>, rawTpr: Option<real>, hasExtraTick: bool, refreshRate: int)
      ensures gameobjects == [] && tick == 0
      ensures this.tpr == (if tpr.Some? then tpr.value else 1) * refreshRate
      ensures this.rawTpr == rawTpr && this.hasExtraTick == hasExtraTick
      ensures camera.Some? ==> this.camera == camera.value
      ensures camera.None? ==>
                && fresh(this.camera)
                && this.camera.realsize == Viewport(800.0, 600.0)
                && this.camera.pos == Origin
                && this.camera.size == ViewportSize2d(805.0, 605.0, DefaultBuffer)
      ensures Valid()
    {
      var cam: Camera2d;
      if camera.None? {
        cam := new Camera2d(Viewport(800.0, 600.0));
      } else {
        cam := camera.value;
      }
      var t := if tpr.None? then 1 else tpr.value;
      gameobjects := [];
      this.camera := cam;
      this.tpr := t * refreshRate;
      tick := 0;
      this.hasExtraTick := hasExtraTick;
      this.rawTpr := rawTpr;
    }

    /** Every object's components are well-formed. */
    ghost predicate Valid()
      reads this, gameobjects, ComponentsOf(gameobjects)
    {
      AllValid(gameobjects)
    }

    /** `AddObject(obj, layer)`: `gameobjects.insert(layer, obj)`. */
    method AddObject(obj: GameObject, layer: int := 0)
      modifies this
      ensures gameobjects == Insert(old(gameobjects), layer, obj)
      ensures camera == old(camera) && tpr == old(tpr) && rawTpr == old(rawTpr)
      ensures hasExtraTick == old(hasExtraTick) && tick == old(tick)
      ensures old(Valid()) && obj.Valid() ==> Valid()
    {
      var gos := Insert(gameobjects, layer, obj);
      InsertMultiset(gameobjects, layer, obj);
      assert forall g :: g in gos ==> g in multiset(gameobjects) + multiset{obj};
      assert AllValid(gameobjects) && obj.Valid() ==> AllValid(gos);
      gameobjects := gos;
    }

    /**
     * One iteration of `_run`: tick every object in order, render, check the
     * native event queue, call the extra tick if there is one, count the
     * iteration, and throttle the clock with `raw_tpr` if given, else `tpr`.
     * The render is the camera-culled one `Model.Render` was evidently meant to
     * do; `steps` records each step as it runs.
     */
    method RunOnce() returns (rendered: seq<Component>, rate: real, ghost steps: seq<Step>)
      requires Valid()
      modifies this, ComponentsOf(gameobjects), ManagersOf(gameobjects)
      ensures Valid() && gameobjects == old(gameobjects) && tick == old(tick) + 1
      ensures camera == old(camera) && tpr == old(tpr) && rawTpr == old(rawTpr) && hasExtraTick == old(hasExtraTick)
      ensures forall g, c :: g in gameobjects && c in g.components ==> c.eventmanager.events == [] && c.pos == old(c.pos)
      ensures rendered == Drawn(gameobjects, camera)
      ensures rawTpr.Some? ==> rate == rawTpr.value
      ensures rawTpr.None? ==> rate == tpr as real
      ensures steps == [TickObjectsStep, RenderStep, CheckNativeStep] + (if hasExtraTick then [ExtraTickStep] else []) + [CountStep]
    {
      var gos := gameobjects;
      var cam := camera;
      TickObjects(gos);
      steps := [TickObjectsStep];
      rendered := RenderPass(gos, cam);
      steps := steps + [RenderStep];
      steps := steps + [CheckNativeStep];
      if hasExtraTick {
        steps := steps + [ExtraTickStep];
      }
      tick := tick + 1;
      steps := steps + [CountStep];
      if rawTpr.Some? {
        rate := rawTpr.value;
      } else {
        rate := tpr as real;
      }
    }

    /** The first `n` iterations of `_run`, whose loop never ends on its own. */
    method RunFor(n: nat)
      requires Valid()
      modifies this, ComponentsOf(gameobjects), ManagersOf(gameobjects)
      ensures Valid() && gameobjects == old(gameobjects) && tick == old(tick) + n
    {
      for k := 0 to n
        invariant Valid() && gameobjects == old(gameobjects) && tick == old(tick) + k
      {
        var rendered, rate, steps := RunOnce();
      }
    }
  }
}
