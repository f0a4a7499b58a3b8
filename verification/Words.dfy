/** Register words with packed entries: what the drivers' read-modify-write sequences share. */
module Words {

  type Byte = bv8

  const U16: nat := 0x1_0000
  const U32: nat := 0x1_0000_0000

  /** A small number as a register value. */
  function W(n: nat): bv32 {
    if n == 0 then 0 else if n == 1 then 1 else if n == 2 then 2 else if n == 3 then 3 else if n == 4 then 4
    else if n == 5 then 5 else if n == 6 then 6 else if n == 7 then 7 else if n == 8 then 8 else if n == 9 then 9
    else if n == 10 then 10 else if n == 11 then 11 else if n == 12 then 12 else if n == 13 then 13
      else if n == 14 then 14
    else if n == 15 then 15 else if n == 16 then 16 else 17
  }

  /** The number in two bits. */
  function Quarter(x: bv32): (n: nat)
    ensures n < 4
  {
    if x == 0 then 0 else if x == 1 then 1 else if x == 2 then 2 else 3
  }

  lemma QuarterIsNumber(x: bv32)
    requires x <= 3
    ensures x as int == Quarter(x)
  {
  }

  lemma WIsNumber(n: nat)
    requires n <= 17
    ensures W(n) as int == n
  {
  }

  lemma WRange(n: nat, most: nat)
    requires n <= most <= 17
    ensures W(n) <= W(most)
  {
  }

  lemma WInjective(m: nat, n: nat)
    requires m <= 17 && n <= 17
    ensures W(m) == W(n) <==> m == n
  {
  }

  /** Clear under the shifted mask, then set: the lines that every branch repeats. */
  function Put(x: bv32, mask: bv32, shift: bv32, v: bv32): bv32
    requires shift < 32
  {
    (x & !(mask << shift)) | (v << shift)
  }

  method Replace(reg: bv32, mask: bv32, shift: bv32, v: bv32) returns (r: bv32)
    requires shift < 32
    ensures r == Put(reg, mask, shift, v)
  {
    var tmpreg1 := reg;
    var tmpreg2 := mask << shift;
    tmpreg1 := tmpreg1 & !tmpreg2;
    tmpreg2 := v << shift;
    r := tmpreg1 | tmpreg2;
  }
}
