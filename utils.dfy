/**
 * Geometry values of src/utils.py: angles normalised with Python's `% 360`,
 * two-dimensional rotations and positions with their `+` operators, and the
 * equality and refused operators of `BaseObject`.
 *
 * Coordinates and angles are Python `int | float`; here they are exact reals.
 */
module Utils {
  import opened Wrappers

  /** What a `raise Exception(...)` in these classes carries. */
  datatype Error = TypeMismatch(message: string) | Unsupported(message: string)

  const RotationAddMessage := "You can only add 2 rotation2d's"
  const PositionAddMessage := "Can only add 2 Position2d's"
  const CompareMessage := "Cannot compare objects"
  const AddMessage := "Cannot add objects"
  const SubtractMessage := "Cannot subtract objects"

  /** `r` is a whole number. */
  predicate IsInteger(r: real) {
    r.Floor as real == r
  }

  /** `a` and `b` name the same angle: they differ by a whole number of turns. */
  predicate SameAngle(a: real, b: real) {
    IsInteger((a - b) / 360.0)
  }

  /** Python's `x % 360` on a number: floored remainder, so never negative. */
  function Mod360(x: real): (r: real)
    ensures 0.0 <= r < 360.0
    ensures SameAngle(x, r)
    ensures 0.0 <= x < 360.0 ==> r == x
  {
    var k := (x / 360.0).Floor;
    assert (x - (x - 360.0 * k as real)) / 360.0 == k as real;
    x - 360.0 * k as real
  }

  /** The remainder of `x % 360` is the unique angle in [0, 360) that is `x` up to whole turns. */
  lemma Mod360Unique(x: real, y: real)
    requires 0.0 <= y < 360.0 && SameAngle(x, y)
    ensures Mod360(x) == y
  {
    var k := ((x - y) / 360.0).Floor;
    assert x == y + 360.0 * k as real;
    assert k as real <= x / 360.0 < k as real + 1.0;
    assert (x / 360.0).Floor == k;
  }

  /** Adding whole turns does not change the normalised angle. */
  lemma {:induction false} Mod360Shift(x: real, k: int)
    ensures Mod360(x + 360.0 * k as real) == Mod360(x)
  {
    var y := Mod360(x);
    var j := ((x - y) / 360.0).Floor;
    assert x == y + 360.0 * j as real;
    assert (x + 360.0 * k as real - y) / 360.0 == (j + k) as real;
    Mod360Unique(x + 360.0 * k as real, y);
  }

  /** A 2D rotation; `x` is the angle in degrees, named as in the source. */
  datatype Rotation2d = Rotation2d(x: real)

  /** The invariant `__post_init__` establishes: the angle lies in [0, 360). */
  predicate Normalized(r: Rotation2d) {
    0.0 <= r.x < 360.0
  }

  /** Constructing `Rotation2d(x)`: `__post_init__` replaces the angle by `x % 360`. */
  function NewRotation(x: real): (r: Rotation2d)
    ensures Normalized(r) && SameAngle(x, r.x)
    ensures 0.0 <= x < 360.0 ==> r.x == x
  {
    Rotation2d(Mod360(x))
  }

  /** `a + b` for two rotations: a new rotation of `a.x + b.x`, normalised. */
  function RotationPlus(a: Rotation2d, b: Rotation2d): (r: Rotation2d)
    ensures Normalized(r) && SameAngle(a.x + b.x, r.x)
  {
    NewRotation(a.x + b.x)
  }

  /** A right-hand operand of `+`, whatever its Python type. */
  datatype Operand = RotationOperand(rot: Rotation2d) | PositionOperand(pos: Position2d) | OtherOperand

  /** `Rotation2d.__add__`: defined only for a rotation on the right, otherwise it raises. */
  function AddRotation(a: Rotation2d, other: Operand): (r: Result<Rotation2d, Error>)
    ensures r.Ok? <==> other.RotationOperand?
    ensures r.Ok? ==> Normalized(r.value) && SameAngle(a.x + other.rot.x, r.value.x)
    ensures r.Err? ==> r.error == TypeMismatch(RotationAddMessage)
  {
    if other.RotationOperand? then Ok(RotationPlus(a, other.rot)) else Err(TypeMismatch(RotationAddMessage))
  }

  /** 350 + 20 wraps round to 10. */
  lemma RotationWrapExample()
    ensures AddRotation(Rotation2d(350.0), RotationOperand(Rotation2d(20.0))) == Ok(Rotation2d(10.0))
  {
    Mod360Unique(370.0, 10.0);
  }

  /** Rotation addition is commutative. */
  lemma RotationPlusCommutes(a: Rotation2d, b: Rotation2d)
    ensures RotationPlus(a, b) == RotationPlus(b, a)
  {
    assert a.x + b.x == b.x + a.x;
  }

  /** Rotation addition is associative, although each step renormalises. */
  lemma RotationPlusAssociative(a: Rotation2d, b: Rotation2d, c: Rotation2d)
    ensures RotationPlus(RotationPlus(a, b), c) == RotationPlus(a, RotationPlus(b, c))
  {
    var s := a.x + b.x + c.x;
    var ab := Mod360(a.x + b.x);
    var k1 := ((a.x + b.x - ab) / 360.0).Floor;
    assert ab + c.x == s + 360.0 * (-k1) as real;
    Mod360Shift(s, -k1);
    var bc := Mod360(b.x + c.x);
    var k2 := ((b.x + c.x - bc) / 360.0).Floor;
    assert a.x + bc == s + 360.0 * (-k2) as real;
    Mod360Shift(s, -k2);
  }

  /** A zero rotation is an identity for normalised rotations. */
  lemma RotationPlusZero(a: Rotation2d)
    requires Normalized(a)
    ensures RotationPlus(a, Rotation2d(0.0)) == a
  {
  }

  /** A 2D position with its rotation. */
  datatype Position2d = Position2d(x: real, y: real, rot: Rotation2d)

  /** The origin with no rotation, the default position of the source's constructors. */
  const Origin := Position2d(0.0, 0.0, Rotation2d(0.0))

  /** Constructing `Position2d(x, y, rot)`: `__post_init__` renormalises the contained rotation. */
  function NewPosition(x: real, y: real, rot: Rotation2d): (p: Position2d)
    ensures p.x == x && p.y == y && Normalized(p.rot) && SameAngle(rot.x, p.rot.x)
    ensures Normalized(rot) ==> p.rot == rot
  {
    Position2d(x, y, NewRotation(rot.x))
  }

  /** `p + q` for two positions: coordinates summed, rotations added. */
  function PositionPlus(p: Position2d, q: Position2d): (r: Position2d)
    ensures r.x == p.x + q.x && r.y == p.y + q.y
    ensures r.rot == RotationPlus(p.rot, q.rot)
  {
    NewPosition(p.x + q.x, p.y + q.y, RotationPlus(p.rot, q.rot))
  }

  /** `Position2d.__add__`: defined only for a position on the right, otherwise it raises. */
  function AddPosition(p: Position2d, other: Operand): (r: Result<Position2d, Error>)
    ensures r.Ok? <==> other.PositionOperand?
    ensures r.Ok? ==> r.value.x == p.x + other.pos.x && r.value.y == p.y + other.pos.y
    ensures r.Ok? ==> r.value.rot == RotationPlus(p.rot, other.pos.rot)
    ensures r.Err? ==> r.error == TypeMismatch(PositionAddMessage)
  {
    if other.PositionOperand? then Ok(PositionPlus(p, other.pos)) else Err(TypeMismatch(PositionAddMessage))
  }

  /** (1, 2, 350) + (1, 1, 20) is (2, 3, 10). */
  lemma PositionAddExample()
    ensures AddPosition(NewPosition(1.0, 2.0, Rotation2d(350.0)), PositionOperand(NewPosition(1.0, 1.0, Rotation2d(20.0))))
         == Ok(Position2d(2.0, 3.0, Rotation2d(10.0)))
  {
    Mod360Unique(370.0, 10.0);
  }

  /** `Position2d.Rotate`: adds to the rotation's angle and does not renormalise it. */
  function Rotate(p: Position2d, other: Rotation2d): (r: Position2d)
    ensures r.x == p.x && r.y == p.y && r.rot.x == p.rot.x + other.x
  {
    p.(rot := Rotation2d(p.rot.x + other.x))
  }

  /** Rotating can leave the angle outside [0, 360), unlike every constructor and `+`. */
  lemma RotateLeavesRange()
    ensures var p := Rotate(NewPosition(0.0, 0.0, Rotation2d(350.0)), Rotation2d(20.0));
            p.rot.x == 370.0 && !Normalized(p.rot)
  {
  }

  /** Re-running `__post_init__` on a rotated position brings the angle back into range. */
  lemma RotateThenRenormalize(p: Position2d, other: Rotation2d)
    ensures var q := Rotate(p, other);
            NewPosition(q.x, q.y, q.rot) == PositionPlus(p, Position2d(0.0, 0.0, other))
  {
  }

  /**
   * What `BaseObject` equality looks at in a component, `GameObject` or
   * `Camera2d`: its class name and its attribute map.
   */
  datatype BaseObject<V(==)> = BaseObject(className: string, fields: map<string, V>)

  /** `BaseObject.__eq__`: same type and equal attribute maps. */
  predicate Equal<V(==)>(a: BaseObject<V>, b: BaseObject<V>) {
    a.className == b.className && a.fields == b.fields
  }

  /** `BaseObject.__ne__`: the negation of `__eq__`. */
  predicate NotEqual<V(==)>(a: BaseObject<V>, b: BaseObject<V>) {
    !Equal(a, b)
  }

  /** The equality of `BaseObject` is exactly equality of the modelled values, so it is an equivalence. */
  lemma EqualIsValueEquality<V>(a: BaseObject<V>, b: BaseObject<V>)
    ensures Equal(a, b) <==> a == b
    ensures NotEqual(a, b) <==> a != b
  {
  }

  /** The comparison and arithmetic operators `BaseObject` refuses. */
  datatype Operator = Less | Greater | LessOrEqual | GreaterOrEqual | Add | Subtract

  /** `BaseObject.__lt__`, `__gt__`, `__le__`, `__ge__`, `__add__`, `__sub__`: each raises. */
  function Refused<V(==)>(op: Operator, a: BaseObject<V>, b: BaseObject<V>): (r: Result<real, Error>)
    ensures r.Err?
    ensures op.Add? ==> r.error == Unsupported(AddMessage)
    ensures op.Subtract? ==> r.error == Unsupported(SubtractMessage)
    ensures !op.Add? && !op.Subtract? ==> r.error == Unsupported(CompareMessage)
  {
    match op
    case Add => Err(Unsupported(AddMessage))
    case Subtract => Err(Unsupported(SubtractMessage))
    case _ => Err(Unsupported(CompareMessage))
  }
}
