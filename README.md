# python-engine in Dafny

This project models the sequential core of python-engine, a small pygame game
engine built from game objects that carry components:

- **Geometry values** (`utils.dfy`): `Rotation2d` with its `% 360`
  normalisation, `Position2d` with `+` and `Rotate`, and the equality and
  refused operators of `BaseObject`.
- **Events** (`events.dfy`): the `Event` id check, `match_key`, the held-key
  list that the keyboard press and release callbacks maintain
  (`InputManager`), and the per-component queue (`EventManager`).
- **Motion** (`motion.dfy`): the `Velocity` record, the combine or replace
  rule of `VelocityControl.SetVelocity`, and the way a `Controls` tick turns
  held keys into a velocity. This part is pure; its two collecting loops are
  methods.
- **Components and game objects** (`ecs.dfy`):
  - `BaseComponent` and the four concrete components are one class
    `Component` with a closed `kind`;
  - `GameObject` with its append-only component list, first-match lookup,
    in-order tick dispatch and string form;
  - `RequireComponent`.
- **Camera** (`camera.dfy`): `Camera2d` with its buffered size, strict box
  overlap culling, `Move` and `GlobalToLocal`.
- **Engine** (`renderer.dfy`):
  - `AddObject` with Python `list.insert` semantics;
  - the render pass that culls each object's Model against the camera;
  - one iteration of the engine loop: order of steps, tick counter and rate
    choice.

Numbers are exact reals. Python `x % 360` is the floored remainder
`x - 360 * floor(x / 360)`, which is never negative. Floating-point rounding
is not modelled (see "Left out").

Pressing and releasing keys are plain methods that receive the key name the
listener resolved. The display refresh rate is a constructor parameter of
`Engine`.

A `Controls` tick with no Keydown at all takes the code's path:
`SetVelocity(Velocity(0, 0))` runs twice in combine mode. The magnitude is
kept and the direction ends at a quarter of what it was. The model follows
this code, not the prose description that such a tick sets the velocity to
`(0, 0)`.

## Model

| member | source | states |
|---|---|---|
| Utils.Mod360 | src/utils.py:24-25 | `x % 360` lies in [0, 360), differs from `x` by whole turns, and leaves angles already in range alone |
| Utils.Mod360Unique | src/utils.py:24-25 | the remainder is the only angle in [0, 360) that equals `x` up to whole turns |
| Utils.Mod360Shift | src/utils.py:24-25 | adding whole turns does not change the normalised angle |
| Utils.NewRotation | src/utils.py:24-25 | a constructed rotation is normalised, names the same angle, and keeps an in-range angle |
| Utils.RotationPlus | src/utils.py:19-21 | the sum of two rotations is normalised and equals `a.x + b.x` up to whole turns |
| Utils.AddRotation | src/utils.py:19-22 | `+` succeeds exactly when the right operand is a rotation, and otherwise raises with the source's message |
| Utils.RotationWrapExample | src/utils.py:19-25 | 350 + 20 gives 10 |
| Utils.RotationPlusCommutes | src/utils.py:19-21 | rotation addition is commutative |
| Utils.RotationPlusAssociative | src/utils.py:19-25 | rotation addition is associative, although each step renormalises |
| Utils.RotationPlusZero | src/utils.py:19-25 | adding a zero rotation to a normalised rotation changes nothing |
| Utils.NewPosition | src/utils.py:45-46 | constructing a position keeps x and y and renormalises the contained rotation; a normalised rotation is kept |
| Utils.PositionPlus | src/utils.py:48-50 | position addition sums x and y and adds the rotations |
| Utils.AddPosition | src/utils.py:48-51 | `+` succeeds exactly when the right operand is a position, and otherwise raises with the source's message |
| Utils.PositionAddExample | src/utils.py:48-51 | (1, 2, 350) + (1, 1, 20) is (2, 3, 10) |
| Utils.Rotate | src/utils.py:42-43 | `Rotate` adds to the angle and keeps x and y |
| Utils.RotateLeavesRange | src/utils.py:42-43 | rotating 350 by 20 leaves the angle at 370, outside [0, 360) |
| Utils.RotateThenRenormalize | src/utils.py:42-46 | renormalising a rotated position gives what `+` with a pure rotation gives |
| Utils.EqualIsValueEquality | src/utils.py:80-107 | `BaseObject.__eq__` over an object's class name and attribute map holds iff both agree, and `__ne__` is its negation |
| Utils.Refused | src/utils.py:109-143 | the ordering operators, `+` and `-` always raise, each with its own message |
| Events.NewEvent | src/event.py:28-50 | an event is created iff 0 <= id <= 1, with the given fields and `{}` for missing data; otherwise the id error |
| Events.Keydown | src/event.py:62-82 | `Keydown(1, name)` passes the id check and has empty data |
| Events.Lower | src/event.py:85-86 | no upper-case ASCII letter or Kelvin sign is left; each upper-case letter becomes the small letter that upper-cases back to it; every other character is kept |
| Events.Upper | src/event.py:85-86 | no small ASCII letter is left; each becomes the capital that lower-cases back to it; every other character is kept |
| Events.CaseIdempotent | src/event.py:85-86 | lower-casing or upper-casing twice is doing it once |
| Events.MatchKeyLetter | src/event.py:85-86 | matching a small ASCII letter accepts exactly that letter, its capital, and for "k" also the Kelvin sign |
| Events.RemoveAll | src/event.py:114-120 | releasing keeps exactly the events other than the released key, and never lengthens the list |
| Events.CountZero | src/event.py:108 | `count` is zero iff the event is absent |
| Events.RemoveFirstStep | src/event.py:116-117 | one `list.remove` lowers the count by one and does not change the final result of removing all |
| Events.RemoveAllAbsent | src/event.py:114-120 | removing an absent key changes nothing |
| Events.RemoveAllKeepsOthers | src/event.py:114-120 | a release keeps the count of every other event |
| Events.NoDuplicatesCons | src/event.py:106-112 | a list with a head is duplicate-free iff the head is not in the tail and the tail is duplicate-free |
| Events.RemoveAllKeepsNoDuplicates | src/event.py:114-120 | a release keeps a duplicate-free list duplicate-free |
| Events.PressKeepsNoDuplicates | src/event.py:106-112 | a press keeps the list duplicate-free, leaves the key held, and keeps every earlier entry |
| Events.InputManager.constructor | src/event.py:94-99 | a new input manager holds no keys |
| Events.InputManager.OnPress | src/event.py:106-112 | the key is appended iff it is not already held; the list stays duplicate-free |
| Events.InputManager.OnRelease | src/event.py:114-120 | the repeated `remove` loop removes every occurrence of the key and keeps the rest in order |
| Events.InputManager.GetEvents | src/event.py:126-134 | the held keys are returned and the list is not cleared |
| Events.InputManager.EmptyEvents | src/event.py:142-148 | the held list ends up empty |
| Events.EventManager.constructor | src/event.py:156-158 | a new manager has an empty queue and its own new input manager holding no keys |
| Events.EventManager.Get | src/event.py:160-163 | the result is the held keys followed by the queue, and the queue is left empty |
| Events.EventManager.AddEvent | src/event.py:165-166 | the event is appended to the queue |
| Motion.NewVelocity | src/components.py:31-35 | a constructed velocity keeps its magnitude and has its direction normalised into [0, 360) |
| Motion.SetVelocity | src/components.py:119-134 | combine mode keeps the current magnitude and gives a normal direction; replace mode gives `v` outright |
| Motion.CombineAverages | src/components.py:129-132 | on normal velocities combine mode averages the two directions and ignores the given magnitude |
| Motion.SetVelocityKeepsNormal | src/components.py:119-134 | either mode keeps the direction invariant, given a normal velocity to replace with |
| Motion.KeydownsMembers | src/components.py:174-176 | the kept events are exactly the Keydown events |
| Motion.DirectionOf | src/components.py:184-191 | a key maps to one of 0, 90, 180 and 270, or to nothing |
| Motion.Directions | src/components.py:181-191 | every collected direction lies in [0, 270], and there are no more directions than keys |
| Motion.SumBounds | src/components.py:194 | the sum of collected directions lies between 0 and 270 times their number |
| Motion.MeanBounds | src/components.py:193-194 | the mean of collected directions lies in [0, 270] |
| Motion.ControlsMapped | src/components.py:193-194 | when a key maps, the velocity is set outright to the speed and the mean direction |
| Motion.ControlsNoKeydown | src/components.py:178-196 | with no Keydown, the magnitude is kept and the direction becomes a quarter |
| Motion.ControlsUnmappedKeys | src/components.py:178-196 | with Keydowns but none of w, a, s, d, the magnitude is kept and the direction is halved once |
| Motion.KeydownsIdempotent | src/components.py:174-176 | filtering the Keydowns twice is filtering them once |
| Motion.ControlsIgnoresOtherEvents | src/components.py:172-196 | events other than Keydowns never change the outcome of a tick |
| Motion.DirectionOfCases | src/components.py:184-191 | w/W, d/D, s/S and a/A give 0, 90, 180 and 270; every other name gives nothing |
| Motion.MatchCardinals | src/components.py:184-191 | `match_key` with each of w, d, s, a accepts exactly that letter in either case |
| Motion.ControlsOppositeKeys | src/components.py:182-194 | holding w and s at speed 1 gives velocity (1, 90) |
| Motion.KeydownsSnoc | src/components.py:174-176 | the Keydowns of an extended list are the old ones, then the new event if it is a Keydown |
| Motion.DirectionsSnoc | src/components.py:182-191 | the directions of an extended key list are the old ones, then the new key's direction if any |
| Motion.CollectKeydowns | src/components.py:172-176 | the loop collects exactly the Keydown events, in order |
| Motion.CollectDirections | src/components.py:181-191 | the loop collects the direction of every mapped key, in order |
| Ecs.Component.Transform | src/components.py:198-202 | a new Transform has an empty state, its own empty event manager and the given position |
| Ecs.Component.VelocityControl | src/components.py:79-92 | the state holds the starting speed, the current velocity and `last90vel`; a Transform is attached to `obj` iff it had none, new, at the origin, with an empty state and its own empty managers; nothing else changes |
| Ecs.Component.Controls | src/components.py:144-152 | speed is 1; `obj` gains a Transform if it had none, then a VelocityControl if it had none, each new, with its own empty managers, the Transform at the origin and the VelocityControl at velocity (0, 0); the Controls itself is not attached |
| Ecs.Component.Model | src/components.py:220-231 | a new Model has an empty state and the sprite's length; `obj` gains a new Transform at the origin iff it had none; the Model keeps the first Transform `obj` then has |
| Ecs.Component.SetVelocity | src/components.py:119-134 | only `currentvelocity` changes, to the combine or replace result |
| Ecs.Component.SetPosition | src/components.py:207-208 | the position is replaced and the state kept |
| Ecs.Component.AddPosition | src/components.py:210-215 | the position becomes `pos + delta`, with its rotation normalised |
| Ecs.Component.OnTick | src/base.py:26-33 | the own queue is drained; a Controls tick sets the entity's first VelocityControl to the `ControlsTick` of held keys plus queue; nothing else changes |
| Ecs.Component.TickControls | src/components.py:154-170 | without a VelocityControl nothing changes; otherwise only the first one changes, to `ControlsTick` of the batch |
| Ecs.Component.Drive | src/components.py:172-196 | the VelocityControl ends at `ControlsTick(old velocity, events, speed)` and stays valid |
| Ecs.ControlsOnEmptyEntity | src/components.py:144-152 | `Controls(g)` on an empty entity leaves `[Transform, VelocityControl]` |
| Ecs.FirstMatch | src/gameobject.py:33-38 | the result is the first component that matches, in list order, and is none iff none matches |
| Ecs.FirstMatchKind | src/gameobject.py:33-38 | a kind is found iff it occurs in the list |
| Ecs.FirstMatchAppend | src/gameobject.py:11-38 | appending never changes an earlier match, and after a miss a matching new component is found |
| Ecs.RequireIdempotent | src/components.py:240-253 | requiring a component makes it present, and requiring again changes nothing |
| Ecs.AttachKinds | src/components.py:249-252 | the kinds gain `k` at the end iff it was missing |
| Ecs.RequireComponent | src/components.py:240-253 | returns true iff a match was present; appends `to_add` only when absent and given; otherwise the list is unchanged |
| Ecs.Names | src/gameobject.py:61-62 | one class name per component, in order |
| Ecs.ListingUpToJoins | src/gameobject.py:61-64 | the listing built so far is the joined names, with a separator still to come while names remain |
| Ecs.ListingJoins | src/gameobject.py:57-66 | the finished listing is the names joined by ", " |
| Ecs.IndexOf | src/gameobject.py:63 | `list.index` gives the first position holding the instance |
| Ecs.AsWrittenUpToDistinct | src/gameobject.py:61-64 | with distinct instances the `index` test gives the same listing as the position test |
| Ecs.AsWrittenAgreesWhenDistinct | src/gameobject.py:52-68 | with distinct instances `__str__` as written gives the intended string |
| Ecs.AsWrittenRepeatedInstance | src/gameobject.py:61-64 | one instance attached twice gets a trailing ", " after the last name |
| Ecs.TickedVelocityWithoutControls | src/gameobject.py:49-50 | an entity without Controls keeps its velocity through a tick |
| Ecs.TickedVelocityTwoControls | src/gameobject.py:49-50 | two Controls act in list order; the second sees what the first left |
| Ecs.TickedVelocityStep | src/gameobject.py:49-50 | the fold advances by one entry: a Controls entry applies its tick, any other passes the velocity on |
| Ecs.TickedPrefixes | src/gameobject.py:49-50 | each entry of the prefix sequence is one step of the fold from the last |
| Ecs.GameObject.constructor | src/gameobject.py:8-9 | a new GameObject has no components |
| Ecs.GameObject.AddComponent | src/gameobject.py:11-21 | the component is appended without a uniqueness check; earlier entries are kept |
| Ecs.GameObject.GetComponent | src/gameobject.py:23-38 | the loop returns the first matching component, or none |
| Ecs.GameObject.OnTick | src/gameobject.py:40-50 | every queue is empty and positions are kept; only the first VelocityControl changes, to the fold of the Controls ticks over the batches taken before the tick |
| Ecs.GameObject.ToString | src/gameobject.py:52-68 | the intended string (see Findings): `GameObject()` when empty, else `GameObject(components=[...])` with names joined by ", " |
| Ecs.DrainOne | src/event.py:160-163 | draining one more entry's manager empties every entry that shares it |
| Ecs.PlanOfFits | src/gameobject.py:49-50 | a snapshot taken from an entity agrees with its kinds, managers, batches and speeds |
| Ecs.PlanOfState | src/gameobject.py:49-50 | before the tick the entity is in the snapshot's starting state |
| Ecs.PlanStarts | src/gameobject.py:49-50 | the loop facts hold before the first entry |
| Ecs.PlanRecords | src/gameobject.py:49-50 | the snapshot records the current positions, states, first VelocityControl and final velocity |
| Ecs.FoundHolds | src/gameobject.py:49-50 | during the tick the first VelocityControl holds the velocity reached so far |
| Ecs.TickDone | src/gameobject.py:49-50 | after the last entry every queue is empty and the VelocityControl holds the final velocity |
| Ecs.TickEntries | src/gameobject.py:49-50 | the loop ticks every entry once, in order, and ends with the loop facts at the last entry |
| Ecs.EntryReady | src/base.py:26-33 | entry `i` sees its held keys and its remaining queue, its recorded speed, and the current velocity |
| Ecs.EntryBatch | src/base.py:33 | entry `i`'s batch is its held keys followed by whatever its manager still has queued |
| Ecs.EntrySpeed | src/base.py:35-42 | a Controls entry still has the speed recorded before the tick |
| Ecs.TickEntry | src/gameobject.py:49-50 | one pass of the loop moves the loop facts from entry `i` to `i + 1` |
| Ecs.TickStep | src/base.py:26-33 | component `i` ticks: its manager is drained, held keys and positions are kept, only the first VelocityControl moves |
| Ecs.TickEffects | src/base.py:26-33 | the same effects, stated per component |
| Ecs.ComponentTick | src/base.py:26-33 | component `i`'s tick drains its own manager only, and only a Controls tick changes the first VelocityControl |
| Ecs.GetComponentTwice | src/gameobject.py:23-38 | two successive lookups return the same instance |
| Ecs.TickedVelocityLastControls | src/gameobject.py:49-50 | when the only Controls is the last entry, the tick's velocity is that Controls' tick of its batch |
| Ecs.SteeredEntity | src/main.py:11-12 | a new GameObject with a Controls attached holds `[Transform, VelocityControl, Controls]`, the VelocityControl first at (0, 0), the Controls at speed 1 with "w" queued |
| Ecs.SteerNorth | src/gameobject.py:40-50 | one tick of that entity leaves its VelocityControl at magnitude 1, direction 0 |
| Ecs.SeparateQueues | src/base.py:24 | an event added to one component's manager is not delivered to another component |
| Camera.OverlapIffSharePoint | src/camera.py:33-36 | two non-empty open intervals overlap strictly iff they share a point |
| Camera.Camera2d.constructor | src/camera.py:22-28 | `realsize` is the viewport, `pos` the initial position, and `size` the viewport grown by the buffer on both axes |
| Camera.Camera2d.IsVisible | src/camera.py:30-42 | visible iff on both axes the centres are closer than half the sum of the extents |
| Camera.Camera2d.Move | src/camera.py:44-45 | `pos` becomes `pos + delta`, with a normalised rotation; the sizes are kept |
| Camera.Camera2d.GlobalToLocal | src/camera.py:47-51 | adding the camera's x and y back gives the input coordinates; the rotation is the input's, normalised |
| Camera.VisibleInLocalFrame | src/camera.py:30-51 | visibility is a bound on the camera-local offsets |
| Camera.VisibleIffSharePoint | src/camera.py:30-42 | for positive extents, visible iff the camera box and the object box share a point |
| Camera.PointObjectVisible | src/camera.py:30-42 | a size-0 object at the camera centre is visible, although its own box holds no point |
| Camera.TouchingRightEdgeNotVisible | src/camera.py:33-34 | a box touching the right edge is not visible |
| Camera.TouchingTopEdgeNotVisible | src/camera.py:35-36 | a box touching the top edge is not visible |
| Camera.ViewportExample | src/camera.py:33-36 | with a 100 by 100 viewport at the origin, size 10 at (50, 50) is visible and at (1000, 1000) is not |
| Camera.DefaultBufferCamera | src/camera.py:14-42 | a camera built on a 100 by 100 viewport with the default buffer sees size 10 at (50, 50) and not at (1000, 1000) |
| Renderer.InsertIndex | src/renderer.py:100-101 | the insert position never lies past the end |
| Renderer.Insert | src/renderer.py:100-101 | an insert adds one entry, `x`, at the clamped position |
| Renderer.InsertMultiset | src/renderer.py:100-101 | an insert adds exactly `x` and loses nothing |
| Renderer.RemoveAt | src/renderer.py:100-101 | removing an entry shortens the list by one |
| Renderer.InsertThenRemove | src/renderer.py:100-101 | removing the new entry gives the old list, so every other entry keeps its order |
| Renderer.InsertIndexCases | src/renderer.py:100-101 | in-range, past-the-end, negative and too-negative layers go where `list.insert` puts them |
| Renderer.InsertFrontTwice | src/renderer.py:100-101 | adding B at layer 0 after A at layer 0 gives [B, A] |
| Renderer.InsertBeforeLast | src/renderer.py:100-101 | layer -1 inserts before the last entry |
| Renderer.InsertPastEnd | src/renderer.py:100-101 | a layer past the end appends |
| Renderer.ModelOf | src/renderer.py:33-35 | an object yields a Model among its own components, and yields none iff it has no Model |
| Renderer.ModelsOfSpec | src/renderer.py:32-37 | a render pass draws only first Models of the objects and draws every object's first Model; at most one per object |
| Renderer.ModelsOfNone | src/renderer.py:32-37 | objects without a Model contribute nothing |
| Renderer.TransformsOfPrefix | src/renderer.py:32-37 | the Transforms of a prefix of the objects are among those of all of them |
| Renderer.DrawnAmongAny | src/renderer.py:32-37 | the culled render does not depend on the set its Transforms are read through |
| Renderer.DrawnLast | src/renderer.py:32-37 | the culled render of a list is that of all but the last object, then the last object's Model if the camera sees it |
| Renderer.DrawnSpec | src/renderer.py:32-37 | the culled render draws exactly the selected Models the camera sees, at most one per object |
| Renderer.DrawnNone | src/renderer.py:32-37 | when the camera sees none of the Models nothing is drawn |
| Renderer.DrawnSnoc | src/renderer.py:32-37 | one more object adds its Model to the drawing iff it has one the camera sees |
| Renderer.ModelsOfSnoc | src/renderer.py:32-37 | one more object adds its first Model, if any, to the selection |
| Renderer.ModelsOfPrefix | src/renderer.py:32-37 | the Models selected from a prefix of the objects start the selection from all of them |
| Renderer.RenderPass | src/renderer.py:29-37 | the loop draws `Drawn`: each object's first Model whose Transform, boxed by the sprite's length, the camera sees, in list order |
| Renderer.RenderPassAsWritten | src/components.py:236-238 | as written, the pass stops with a TypeError at the first Model in list order, and finishes iff no object has a Model |
| Renderer.TickObjects | src/renderer.py:83-84 | every object ticks in list order; afterwards all queues are empty and no component has moved |
| Renderer.TickOne | src/renderer.py:83-84 | one object's tick empties its queues and leaves every other non-empty queue as it was |
| Renderer.Engine.constructor | src/renderer.py:42-73 | no objects, tick 0, `tpr` is the given value or 1 times the refresh rate, a missing camera is an 800 by 600 camera at the origin whose culling size is 805 by 605, and the engine is valid |
| Renderer.Engine.AddObject | src/renderer.py:100-101 | the object list becomes `list.insert(layer, obj)` of the old one, and a valid object keeps a valid engine valid |
| Renderer.Engine.RunOnce | src/renderer.py:81-98 | objects are ticked, then the culled render draws `Drawn` of the objects; the tick count rises by one; `raw_tpr` is the rate when set, else `tpr`; the trace, appended as each step runs, is tick, render, native check, extra tick if any, count |
| Renderer.Engine.RunFor | src/renderer.py:81-93 | `n` iterations raise the tick count by `n` and keep the object list |

## Left out

- I/O and foreign calls are not modelled: pygame initialisation, the screen and its fill, `display.update`, and sprite drawing (`Sprite.Display`). `get_current_refresh_rate` becomes the `refreshRate` parameter of `Renderer.Engine.constructor`.
- `Clock.tick` is not modelled: `Renderer.Engine.RunOnce` returns the rate it would throttle with.
- `CheckNative` reads the pygame event queue and may exit the process; it appears only as a step in the iteration trace.
- The extra tick callback is foreign code; the trace records only that it is called, and when.
- Renderer.Engine.RunOnce: assumes the extra tick callback leaves the engine alone; src/main.py:7-8 passes one that moves the camera, which the next iteration's render would see. It renders with the corrected `Model.Render` (see Findings); as written, an iteration raises at the first object with a Model.
- Renderer.Engine.RunFor: the same assumption about the callback, and the same corrected render.
- Threading is not modelled: the non-blocking `Engine.Run`, the keyboard `Listener` thread and `add_hotkey`. The press and release callbacks are sequential methods, and `_run`'s endless loop is `RunFor(n)` for any `n`.
- The `sleep` before `empty_events` clears the list is not modelled.
- `Velocity.__add__` and `VelocityControl.AddVelocity` are not modelled: they use trigonometry and square roots on floats.
- Ecs.Component.Model: the sprite is reduced to its `length`, the size the corrected render culls with; `Display` without its position argument would raise as well, and drawing is not modelled.
- Events.MatchKey: the case mapping covers the ASCII letters and the Kelvin sign only. Python's `str.lower` and `str.upper` map all of Unicode and can change the length (`"ß".upper()` is `"SS"`). For a single small ASCII letter, which is all `Controls` matches against, the names accepted are the same.
- Events.Lower: ASCII letters and the Kelvin sign only, as above.
- Events.Upper: ASCII letters only, as above.
- Floating-point rounding is not modelled: numbers are exact reals. Sums and midpoints can round in Python where they do not here (1e16 + 1.0 == 1e16 in floating point), so the camera's strict comparisons can answer differently for such inputs.
- Utils.EqualIsValueEquality: models `BaseObject.__eq__` and `__ne__` over a (class name, attribute map) value, which is what components, `GameObject` and `Camera2d` inherit; `Rotation2d` and `Position2d` are dataclasses whose generated `__eq__` is the datatype equality here. The classes of the object model are compared by reference instead. For components the two answers agree, since each component holds its own bound `tick` method and so no two distinct components have equal `__dict__`s. For `GameObject` they do not: two new game objects both have `__dict__ == {'components': []}` and are equal in Python but distinct here. Nothing in the modelled core compares game objects or cameras.
- `Timer`, the logger, `main.py`, the 3D types, and `BaseObject.__str__` and `__hash__` are not modelled: wall-clock time, logging I/O, a bootstrap script, unused types and reflection over `__dict__`.
- `Color`, `Resolution`, `SquareSize` and `copy` are imported from `src/utils.py` but not defined there. `copy` is a value copy; the two colours and the screen resolution of `Renderer` and `Engine` are not modelled.
- Aliasing of position objects is not modelled. Positions and rotations are values, so the two default positions, the one every argument-less `Transform()` shares (src/components.py:199) and the one every argument-less `Camera2d` shares (src/camera.py:22), are a separate value each time. For the same reason, `AddPosition` on one Transform never moves another, and `GlobalToLocal` does not renormalise the caller's rotation in place.
- Renderer.Engine.RunOnce: does not state the velocities; `Ecs.GameObject.OnTick` states them per object.
- Renderer.TickObjects: does not state the velocities either; `Ecs.GameObject.OnTick` states them per object.
- Ecs.Component.VelocityControl: the starting `velocity` is a real rather than a Python `int`.
- Ecs.Component.State: it is the `state` field itself and has no contract. Writes through it are visible because it is that field.
- `MatchComponent` is `Matches`, a predicate on the closed kind type. `BaseComponent` matches every kind.
- Event `data` values are strings rather than arbitrary Python values.

## Findings

| source | as written | input that shows it | evidently intended | confidence | as-written member | corrected member |
|---|---|---|---|---|---|---|
| src/gameobject.py:61-64 | a ", " follows a name unless `components.index(comp)` is the last position; `index` finds an instance's first position | the same component instance attached twice, `[c, c]`: `components=[Transform, Transform, ]` | names joined by ", " with no trailing separator | not executed | Ecs.AsWrittenRepeatedInstance | Ecs.GameObject.ToString |
| src/components.py:236-238 | `Model.Render` calls `camera.IsVisible(self.transform.GetPos())`, one argument short of `IsVisible(pos, size)` | any engine object with a Model, such as `g` in src/main.py: the first render raises TypeError | `IsVisible(pos, self.sprite.length)`, drawing the sprite when the camera sees it | not executed | Renderer.RenderPassAsWritten | Renderer.RenderPass |
