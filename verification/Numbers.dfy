module Numbers {
  function Max(x: nat, y: nat): nat {
    if x < y then y else x
  }

  function Min(x: int, y: int): int {
    if x < y then x else y
  }
}
