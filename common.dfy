/** Values shared by every part of the model. */
module Common {

  /** A row of three reals: a Cartesian or fractional position, a lattice
      vector, or a direction triple in a lattice basis. */
  datatype Vec3 = Vec3(x: real, y: real, z: real)

  /** Component `k` (0, 1 or 2) of a row. */
  function Component(v: Vec3, k: nat): real
    requires k < 3
  {
    if k == 0 then v.x else if k == 1 then v.y else v.z
  }

  /** The row with component `k` replaced by `r`. */
  function WithComponent(v: Vec3, k: nat, r: real): (w: Vec3)
    requires k < 3
    ensures Component(w, k) == r
    ensures forall m :: 0 <= m < 3 && m != k ==> Component(w, m) == Component(v, m)
  {
    if k == 0 then v.(x := r) else if k == 1 then v.(y := r) else v.(z := r)
  }

  /** The row multiplied by a scalar. */
  function Scale(t: real, v: Vec3): Vec3
  {
    Vec3(t * v.x, t * v.y, t * v.z)
  }

  datatype Option<T> = None | Some(value: T)

  datatype Result<T, E> = Ok(value: T) | Err(error: E)

  /** Why a run stops with a Python exception. */
  datatype RunError =
    | IndexError        // list index out of range
    | KeyError          // key missing from a dictionary
    | ValueError        // text that does not convert, or nothing to stack
    | AttributeError    // member access on an object that lacks it
}
