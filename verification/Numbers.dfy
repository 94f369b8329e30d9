/** Small arithmetic shared by the models. */
module Numbers {
  function Min(a: int, b: int): (r: int) {
    if a <= b then a else b
  }

  function Max(a: int, b: int): (r: int) {
    if a >= b then a else b
  }

  /** `saturating_sub` */
  function Less(a: nat, b: nat): (r: nat) {
    if a >= b then a - b else 0
  }
}
