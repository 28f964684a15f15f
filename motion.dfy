/**
 * The value logic of src/components.py: the `Velocity` record, the rule by
 * which `VelocityControl.SetVelocity` combines or replaces a velocity, and
 * the way a `Controls` tick turns held keys into a velocity.
 *
 * The classes that hold this state live in module Ecs.
 */
module Motion {
  import opened Wrappers
  import opened Utils
  import opened Events

  /** A velocity: a magnitude and a direction in degrees. */
  datatype Velocity = Velocity(magnitude: real, direction: real)

  /** The invariant `Velocity.__post_init__` establishes: the direction lies in [0, 360). */
  predicate NormalVelocity(v: Velocity) {
    0.0 <= v.direction < 360.0
  }

  /** Constructing `Velocity(m, d)`: the direction becomes `d % 360`, the magnitude is kept as given. */
  function NewVelocity(magnitude: real, direction: real): (v: Velocity)
    ensures v.magnitude == magnitude && NormalVelocity(v) && SameAngle(direction, v.direction)
    ensures 0.0 <= direction < 360.0 ==> v.direction == direction
  {
    Velocity(magnitude, Mod360(direction))
  }

  /**
   * The new current velocity after `SetVelocity(v, combineAngle)`.
   * Combining keeps the current magnitude and takes `((cur + v) / 2) % 360` as direction.
   */
  function SetVelocity(current: Velocity, v: Velocity, combineAngle: bool): (r: Velocity)
    ensures combineAngle ==> r.magnitude == current.magnitude && NormalVelocity(r)
    ensures !combineAngle ==> r == v
  {
    if combineAngle then NewVelocity(current.magnitude, Mod360((current.direction + v.direction) / 2.0)) else v
  }

  /** Combining ignores the magnitude it is given, and on normal velocities it averages the directions. */
  lemma CombineAverages(current: Velocity, v: Velocity)
    requires NormalVelocity(current) && NormalVelocity(v)
    ensures SetVelocity(current, v, true) == Velocity(current.magnitude, (current.direction + v.direction) / 2.0)
    ensures forall m :: SetVelocity(current, v, true) == SetVelocity(current, Velocity(m, v.direction), true)
  {
  }

  /** Replacing puts `v` in place outright, so it keeps the direction invariant exactly when `v` does. */
  lemma SetVelocityKeepsNormal(current: Velocity, v: Velocity, combineAngle: bool)
    requires NormalVelocity(current) && (combineAngle || NormalVelocity(v))
    ensures NormalVelocity(SetVelocity(current, v, combineAngle))
  {
  }

  /** Only events of class `Keydown` take part in a `Controls` tick, in their order. */
  function Keydowns(events: seq<Event>): (ks: seq<Event>)
  {
    if events == [] then []
    else if events[0].kind == KeydownEvent then [events[0]] + Keydowns(events[1..])
    else Keydowns(events[1..])
  }

  /** `Keydowns` keeps exactly the keydown events: no other event gets in, and none is lost. */
  lemma {:induction false} KeydownsMembers(events: seq<Event>)
    ensures forall e :: e in Keydowns(events) <==> e in events && e.kind == KeydownEvent
    ensures |Keydowns(events)| <= |events|
  {
    if events != [] {
      KeydownsMembers(events[1..]);
      assert events == [events[0]] + events[1..];
    }
  }

  /** The direction a key stands for: w, d, s, a give 0, 90, 180, 270; other keys give none. */
  function DirectionOf(key: Event): (d: Option<int>)
    ensures d.Some? ==> d.value in {0, 90, 180, 270}
  {
    if MatchKey(key, "w") then Some(0)
    else if MatchKey(key, "d") then Some(90)
    else if MatchKey(key, "s") then Some(180)
    else if MatchKey(key, "a") then Some(270)
    else None
  }

  /** The directions of the keys in order, unmapped keys skipped. */
  function Directions(ks: seq<Event>): (v: seq<int>)
    ensures forall d :: d in v ==> 0 <= d <= 270
    ensures |v| <= |ks|
  {
    if ks == [] then []
    else var d := DirectionOf(ks[0]); (if d.Some? then [d.value] else []) + Directions(ks[1..])
  }

  function Sum(v: seq<int>): int {
    if v == [] then 0 else v[0] + Sum(v[1..])
  }

  /** `sum(v) / len(v)`. */
  function Mean(v: seq<int>): real
    requires |v| > 0
  {
    Sum(v) as real / |v| as real
  }

  lemma {:induction false} SumBounds(v: seq<int>)
    requires forall d :: d in v ==> 0 <= d <= 270
    ensures 0 <= Sum(v) <= 270 * |v|
  {
    if v != [] {
      assert v[0] in v;
      assert forall d :: d in v[1..] ==> d in v;
      SumBounds(v[1..]);
    }
  }

  /** The mean of mapped directions is itself a normal direction, in [0, 270]. */
  lemma MeanBounds(v: seq<int>)
    requires |v| > 0 && forall d :: d in v ==> 0 <= d <= 270
    ensures 0.0 <= Mean(v) <= 270.0
  {
    SumBounds(v);
    var n := |v| as real;
    assert Sum(v) as real <= 270.0 * n;
    assert Mean(v) * n == Sum(v) as real;
  }

  /**
   * The velocity a `Controls` tick leaves in the entity's `VelocityControl`,
   * given the current velocity, the tick's event batch and the `speed` state.
   * With no Keydown at all it calls `SetVelocity(Velocity(0, 0))` in combine
   * mode twice; with Keydowns but no mapped key, once.
   */
  function ControlsTick(current: Velocity, events: seq<Event>, speed: real): Velocity {
    var ks := Keydowns(events);
    var afterEmpty := if |ks| == 0 then SetVelocity(current, NewVelocity(0.0, 0.0), true) else current;
    var v := Directions(ks);
    if |v| != 0 then SetVelocity(afterEmpty, NewVelocity(speed, Mean(v)), false)
    else SetVelocity(afterEmpty, NewVelocity(0.0, 0.0), true)
  }

  /** A mapped key sets the velocity outright to the speed and the mean direction. */
  lemma ControlsMapped(current: Velocity, events: seq<Event>, speed: real)
    requires |Directions(Keydowns(events))| > 0
    ensures var v := Directions(Keydowns(events));
            ControlsTick(current, events, speed) == Velocity(speed, Mean(v))
  {
    MeanBounds(Directions(Keydowns(events)));
  }

  /** No Keydown at all: the magnitude is kept and the direction is halved twice. */
  lemma ControlsNoKeydown(current: Velocity, events: seq<Event>, speed: real)
    requires NormalVelocity(current) && Keydowns(events) == []
    ensures ControlsTick(current, events, speed) == Velocity(current.magnitude, current.direction / 4.0)
  {
    var z := NewVelocity(0.0, 0.0);
    CombineAverages(current, z);
    var once := SetVelocity(current, z, true);
    CombineAverages(once, z);
  }

  /** Keydowns, but none of w, a, s, d: the magnitude is kept and the direction is halved once. */
  lemma ControlsUnmappedKeys(current: Velocity, events: seq<Event>, speed: real)
    requires NormalVelocity(current) && Keydowns(events) != [] && Directions(Keydowns(events)) == []
    ensures ControlsTick(current, events, speed) == Velocity(current.magnitude, current.direction / 2.0)
  {
    CombineAverages(current, NewVelocity(0.0, 0.0));
  }

  lemma {:induction false} KeydownsIdempotent(events: seq<Event>)
    ensures Keydowns(Keydowns(events)) == Keydowns(events)
  {
    if events != [] {
      KeydownsIdempotent(events[1..]);
      if events[0].kind == KeydownEvent {
        var t := Keydowns(events[1..]);
        assert ([events[0]] + t)[0] == events[0] && ([events[0]] + t)[1..] == t;
      }
    }
  }

  /** Events other than Keydowns never change the outcome of a `Controls` tick. */
  lemma ControlsIgnoresOtherEvents(current: Velocity, events: seq<Event>, speed: real)
    ensures ControlsTick(current, events, speed) == ControlsTick(current, Keydowns(events), speed)
  {
    KeydownsIdempotent(events);
  }

  /** Key names are matched in either case: `W` steers like `w`, and any other name is ignored. */
  lemma DirectionOfCases(key: Event)
    ensures key.name in {"w", "W"} ==> DirectionOf(key) == Some(0)
    ensures key.name in {"d", "D"} ==> DirectionOf(key) == Some(90)
    ensures key.name in {"s", "S"} ==> DirectionOf(key) == Some(180)
    ensures key.name in {"a", "A"} ==> DirectionOf(key) == Some(270)
    ensures key.name !in {"w", "W", "d", "D", "s", "S", "a", "A"} ==> DirectionOf(key) == None
  {
    MatchCardinals(key);
  }

  lemma MatchCardinals(key: Event)
    ensures MatchKey(key, "w") <==> key.name == "w" || key.name == "W"
    ensures MatchKey(key, "d") <==> key.name == "d" || key.name == "D"
    ensures MatchKey(key, "s") <==> key.name == "s" || key.name == "S"
    ensures MatchKey(key, "a") <==> key.name == "a" || key.name == "A"
  {
    MatchKeyLetter(key, 'w');
    MatchKeyLetter(key, 'd');
    MatchKeyLetter(key, 's');
    MatchKeyLetter(key, 'a');
  }

  /** Holding the opposite keys w and s averages 0 and 180 to 90, at full speed. */
  lemma ControlsOppositeKeys(current: Velocity)
    ensures ControlsTick(current, [Keydown("w"), Keydown("s")], 1.0) == Velocity(1.0, 90.0)
  {
    DirectionOfCases(Keydown("w"));
    DirectionOfCases(Keydown("s"));
    var ks := [Keydown("w"), Keydown("s")];
    assert Keydowns(ks) == ks;
    assert Directions(ks[1..]) == [180];
    assert Directions(ks) == [0, 180];
    assert Sum([0, 180]) == 180;
    ControlsMapped(current, ks, 1.0);
  }

  /** Keeping the keydowns of a list extended by one event keeps those of the list, then that event if it is a keydown. */
  lemma {:induction false} KeydownsSnoc(events: seq<Event>, e: Event)
    ensures Keydowns(events + [e]) == Keydowns(events) + (if e.kind == KeydownEvent then [e] else [])
  {
    if events != [] {
      assert (events + [e])[1..] == events[1..] + [e];
      KeydownsSnoc(events[1..], e);
    }
  }

  /** The directions of a key list extended by one key are those of the list, then that key's direction if it has one. */
  lemma {:induction false} DirectionsSnoc(ks: seq<Event>, k: Event)
    ensures Directions(ks + [k]) == Directions(ks) + (if DirectionOf(k).Some? then [DirectionOf(k).value] else [])
  {
    if ks != [] {
      assert (ks + [k])[1..] == ks[1..] + [k];
      DirectionsSnoc(ks[1..], k);
    }
  }

  /** The `for _event in events` loop of `Controls._tick` that keeps the keydown events. */
  method CollectKeydowns(events: seq<Event>) returns (ks: seq<Event>)
    ensures ks == Keydowns(events)
  {
    ks := [];
    var i := 0;
    while i < |events|
      invariant 0 <= i <= |events|
      invariant ks == Keydowns(events[..i])
    {
      assert events[..i + 1] == events[..i] + [events[i]];
      KeydownsSnoc(events[..i], events[i]);
      if events[i].kind == KeydownEvent {
        ks := ks + [events[i]];
      }
      i := i + 1;
    }
    assert events[..i] == events;
  }

  /** The `for _event in ks` loop of `Controls._tick` that maps keys to directions. */
  method CollectDirections(ks: seq<Event>) returns (v: seq<int>)
    ensures v == Directions(ks)
  {
    v := [];
    var i := 0;
    while i < |ks|
      invariant 0 <= i <= |ks|
      invariant v == Directions(ks[..i])
    {
      assert ks[..i + 1] == ks[..i] + [ks[i]];
      DirectionsSnoc(ks[..i], ks[i]);
      if MatchKey(ks[i], "w") {
        v := v + [0];
      } else if MatchKey(ks[i], "d") {
        v := v + [90];
      } else if MatchKey(ks[i], "s") {
        v := v + [180];
      } else if MatchKey(ks[i], "a") {
        v := v + [270];
      }
      i := i + 1;
    }
    assert ks[..i] == ks;
  }
}
