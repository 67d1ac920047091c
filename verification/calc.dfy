/** The first version of the versioned calculator server: one subtraction
    implementation, a `sub_v1` tool that delegates to it, and a `sub` alias
    for the current version, which is v1. */
module Calc {

  /** `_sub_impl_v1`: the first operand minus the second. */
  function SubImplV1(a: int, b: int): (r: int)
    ensures r + b == a
  {
    a - b
  }

  /** The `sub_v1` tool. */
  function SubV1(a: int, b: int): (r: int)
    ensures r + b == a
  {
    SubImplV1(a, b)
  }

  /** The `sub` alias. */
  function Sub(a: int, b: int): (r: int)
    ensures r + b == a
  {
    SubImplV1(a, b)
  }

  /** The alias answers as `sub_v1` does, and subtraction is anti-symmetric with
      a zero diagonal. */
  lemma SubIsV1(a: int, b: int)
    ensures Sub(a, b) == SubV1(a, b)
    ensures Sub(a, a) == 0
    ensures Sub(a, b) == -Sub(b, a)
  {
  }
}

/** The second version of the calculator server: a second implementation that
    swaps the operands, a tool for each version, and the `sub` alias moved to v2. */
module CalcV2 {

  /** `_sub_impl_v1`: the first operand minus the second. */
  function SubImplV1(a: int, b: int): (r: int)
    ensures r + b == a
  {
    a - b
  }

  /** `_sub_impl_v2`: the second operand minus the first. */
  function SubImplV2(a: int, b: int): (r: int)
    ensures r + a == b
  {
    b - a
  }

  /** The `sub_v1` tool. */
  function SubV1(a: int, b: int): (r: int)
    ensures r + b == a
  {
    SubImplV1(a, b)
  }

  /** The `sub_v2` tool. */
  function SubV2(a: int, b: int): (r: int)
    ensures r + a == b
  {
    SubImplV2(a, b)
  }

  /** The `sub` alias. */
  function Sub(a: int, b: int): (r: int)
    ensures r + a == b
  {
    SubImplV2(a, b)
  }

  /** v2 negates v1; the alias answers as `sub_v2` does, and so differs from
      `sub_v1` exactly when the operands differ. */
  lemma AliasFollowsV2(a: int, b: int)
    ensures SubV2(a, b) == -SubV1(a, b)
    ensures Sub(a, b) == SubV2(a, b)
    ensures Sub(a, b) != SubV1(a, b) <==> a != b
  {
  }
}
