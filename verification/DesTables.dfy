/** The tables of the Data Encryption Standard, as hash.c lists them; positions count from 1. */
module DesTables {
  /** The initial permutation. */
  function Ip(i: nat): (r: int)
    requires i < 64
    ensures 1 <= r <= 64
  {
    match i
    case 0 => 58 case 1 => 50 case 2 => 42 case 3 => 34 case 4 => 26 case 5 => 18 case 6 => 10 case 7 => 2
    case 8 => 60 case 9 => 52 case 10 => 44 case 11 => 36 case 12 => 28 case 13 => 20 case 14 => 12 case 15 => 4
    case 16 => 62 case 17 => 54 case 18 => 46 case 19 => 38 case 20 => 30 case 21 => 22 case 22 => 14 case 23 => 6
    case 24 => 64 case 25 => 56 case 26 => 48 case 27 => 40 case 28 => 32 case 29 => 24 case 30 => 16 case 31 => 8
    case 32 => 57 case 33 => 49 case 34 => 41 case 35 => 33 case 36 => 25 case 37 => 17 case 38 => 9 case 39 => 1
    case 40 => 59 case 41 => 51 case 42 => 43 case 43 => 35 case 44 => 27 case 45 => 19 case 46 => 11 case 47 => 3
    case 48 => 61 case 49 => 53 case 50 => 45 case 51 => 37 case 52 => 29 case 53 => 21 case 54 => 13 case 55 => 5
    case 56 => 63 case 57 => 55 case 58 => 47 case 59 => 39 case 60 => 31 case 61 => 23 case 62 => 15 case 63 => 7
  }

  /** Its inverse. */
  function IpBack(i: nat): (r: int)
    requires i < 64
    ensures 1 <= r <= 64
  {
    match i
    case 0 => 40 case 1 => 8 case 2 => 48 case 3 => 16 case 4 => 56 case 5 => 24 case 6 => 64 case 7 => 32
    case 8 => 39 case 9 => 7 case 10 => 47 case 11 => 15 case 12 => 55 case 13 => 23 case 14 => 63 case 15 => 31
    case 16 => 38 case 17 => 6 case 18 => 46 case 19 => 14 case 20 => 54 case 21 => 22 case 22 => 62 case 23 => 30
    case 24 => 37 case 25 => 5 case 26 => 45 case 27 => 13 case 28 => 53 case 29 => 21 case 30 => 61 case 31 => 29
    case 32 => 36 case 33 => 4 case 34 => 44 case 35 => 12 case 36 => 52 case 37 => 20 case 38 => 60 case 39 => 28
    case 40 => 35 case 41 => 3 case 42 => 43 case 43 => 11 case 44 => 51 case 45 => 19 case 46 => 59 case 47 => 27
    case 48 => 34 case 49 => 2 case 50 => 42 case 51 => 10 case 52 => 50 case 53 => 18 case 54 => 58 case 55 => 26
    case 56 => 33 case 57 => 1 case 58 => 41 case 59 => 9 case 60 => 49 case 61 => 17 case 62 => 57 case 63 => 25
  }

  /** The expansion of a half block to 48 bits. */
  function Expand(i: nat): (r: int)
    requires i < 48
    ensures 1 <= r <= 32
  {
    match i
    case 0 => 32 case 1 => 1 case 2 => 2 case 3 => 3 case 4 => 4 case 5 => 5 case 6 => 4 case 7 => 5
    case 8 => 6 case 9 => 7 case 10 => 8 case 11 => 9 case 12 => 8 case 13 => 9 case 14 => 10 case 15 => 11
    case 16 => 12 case 17 => 13 case 18 => 12 case 19 => 13 case 20 => 14 case 21 => 15 case 22 => 16 case 23 => 17
    case 24 => 16 case 25 => 17 case 26 => 18 case 27 => 19 case 28 => 20 case 29 => 21 case 30 => 20 case 31 => 21
    case 32 => 22 case 33 => 23 case 34 => 24 case 35 => 25 case 36 => 24 case 37 => 25 case 38 => 26 case 39 => 27
    case 40 => 28 case 41 => 29 case 42 => 28 case 43 => 29 case 44 => 30 case 45 => 31 case 46 => 32 case 47 => 1
  }

  /** The permutation P after the S boxes. */
  function Spread(i: nat): (r: int)
    requires i < 32
    ensures 1 <= r <= 32
  {
    match i
    case 0 => 16 case 1 => 7 case 2 => 20 case 3 => 21 case 4 => 29 case 5 => 12 case 6 => 28 case 7 => 17
    case 8 => 1 case 9 => 15 case 10 => 23 case 11 => 26 case 12 => 5 case 13 => 18 case 14 => 31 case 15 => 10
    case 16 => 2 case 17 => 8 case 18 => 24 case 19 => 14 case 20 => 32 case 21 => 27 case 22 => 3 case 23 => 9
    case 24 => 19 case 25 => 13 case 26 => 30 case 27 => 6 case 28 => 22 case 29 => 11 case 30 => 4 case 31 => 25
  }

  /** The 56 bits of the key that are used. */
  function Choose1(i: nat): (r: int)
    requires i < 56
    ensures 1 <= r <= 64
  {
    match i
    case 0 => 57 case 1 => 49 case 2 => 41 case 3 => 33 case 4 => 25 case 5 => 17 case 6 => 9 case 7 => 1
    case 8 => 58 case 9 => 50 case 10 => 42 case 11 => 34 case 12 => 26 case 13 => 18 case 14 => 10 case 15 => 2
    case 16 => 59 case 17 => 51 case 18 => 43 case 19 => 35 case 20 => 27 case 21 => 19 case 22 => 11 case 23 => 3
    case 24 => 60 case 25 => 52 case 26 => 44 case 27 => 36 case 28 => 63 case 29 => 55 case 30 => 47 case 31 => 39
    case 32 => 31 case 33 => 23 case 34 => 15 case 35 => 7 case 36 => 62 case 37 => 54 case 38 => 46 case 39 => 38
    case 40 => 30 case 41 => 22 case 42 => 14 case 43 => 6 case 44 => 61 case 45 => 53 case 46 => 45 case 47 => 37
    case 48 => 29 case 49 => 21 case 50 => 13 case 51 => 5 case 52 => 28 case 53 => 20 case 54 => 12 case 55 => 4
  }

  /** The 48 bits of a subkey. */
  function Choose2(i: nat): (r: int)
    requires i < 48
    ensures 1 <= r <= 56
  {
    match i
    case 0 => 14 case 1 => 17 case 2 => 11 case 3 => 24 case 4 => 1 case 5 => 5 case 6 => 3 case 7 => 28
    case 8 => 15 case 9 => 6 case 10 => 21 case 11 => 10 case 12 => 23 case 13 => 19 case 14 => 12 case 15 => 4
    case 16 => 26 case 17 => 8 case 18 => 16 case 19 => 7 case 20 => 27 case 21 => 20 case 22 => 13 case 23 => 2
    case 24 => 41 case 25 => 52 case 26 => 31 case 27 => 37 case 28 => 47 case 29 => 55 case 30 => 30 case 31 => 40
    case 32 => 51 case 33 => 45 case 34 => 33 case 35 => 48 case 36 => 44 case 37 => 49 case 38 => 39 case 39 => 56
    case 40 => 34 case 41 => 53 case 42 => 46 case 43 => 42 case 44 => 50 case 45 => 36 case 46 => 29 case 47 => 32
  }

  /** How far the key halves rotate in each round. */
  function Moves(i: nat): (r: int)
    requires i < 16
    ensures 1 <= r <= 2
  {
    match i
    case 0 => 1 case 1 => 1 case 2 => 2 case 3 => 2 case 4 => 2 case 5 => 2 case 6 => 2 case 7 => 2
    case 8 => 1 case 9 => 2 case 10 => 2 case 11 => 2 case 12 => 2 case 13 => 2 case 14 => 2 case 15 => 1
  }

  /** Column number bcde of a row of sixteen. */
  function Line(b: bool, c: bool, d: bool, e: bool,
      v0: int, v1: int, v2: int, v3: int, v4: int, v5: int, v6: int, v7: int,
      v8: int, v9: int, v10: int, v11: int, v12: int, v13: int, v14: int, v15: int): int
  {
    if !b then
      if !c then
        (if !d then (if !e then v0 else v1) else if !e then v2 else v3)
      else
        (if !d then (if !e then v4 else v5) else if !e then v6 else v7)
    else
      if !c then
        (if !d then (if !e then v8 else v9) else if !e then v10 else v11)
      else
        (if !d then (if !e then v12 else v13) else if !e then v14 else v15)
  }

  // The S boxes, four rows of sixteen each: the outer two of six bits choose the row, the inner four the column.

  function S1(a: bool, b: bool, c: bool, d: bool, e: bool, f: bool): (v: int)
    ensures 0 <= v < 16
  {
    if !a && !f then Line(b, c, d, e, 14, 4, 13, 1, 2, 15, 11, 8, 3, 10, 6, 12, 5, 9, 0, 7)
    else if !a then Line(b, c, d, e, 0, 15, 7, 4, 14, 2, 13, 1, 10, 6, 12, 11, 9, 5, 3, 8)
    else if !f then Line(b, c, d, e, 4, 1, 14, 8, 13, 6, 2, 11, 15, 12, 9, 7, 3, 10, 5, 0)
    else Line(b, c, d, e, 15, 12, 8, 2, 4, 9, 1, 7, 5, 11, 3, 14, 10, 0, 6, 13)
  }

  function S2(a: bool, b: bool, c: bool, d: bool, e: bool, f: bool): (v: int)
    ensures 0 <= v < 16
  {
    if !a && !f then Line(b, c, d, e, 15, 1, 8, 14, 6, 11, 3, 4, 9, 7, 2, 13, 12, 0, 5, 10)
    else if !a then Line(b, c, d, e, 3, 13, 4, 7, 15, 2, 8, 14, 12, 0, 1, 10, 6, 9, 11, 5)
    else if !f then Line(b, c, d, e, 0, 14, 7, 11, 10, 4, 13, 1, 5, 8, 12, 6, 9, 3, 2, 15)
    else Line(b, c, d, e, 13, 8, 10, 1, 3, 15, 4, 2, 11, 6, 7, 12, 0, 5, 14, 9)
  }

  function S3(a: bool, b: bool, c: bool, d: bool, e: bool, f: bool): (v: int)
    ensures 0 <= v < 16
  {
    if !a && !f then Line(b, c, d, e, 10, 0, 9, 14, 6, 3, 15, 5, 1, 13, 12, 7, 11, 4, 2, 8)
    else if !a then Line(b, c, d, e, 13, 7, 0, 9, 3, 4, 6, 10, 2, 8, 5, 14, 12, 11, 15, 1)
    else if !f then Line(b, c, d, e, 13, 6, 4, 9, 8, 15, 3, 0, 11, 1, 2, 12, 5, 10, 14, 7)
    else Line(b, c, d, e, 1, 10, 13, 0, 6, 9, 8, 7, 4, 15, 14, 3, 11, 5, 2, 12)
  }

  function S4(a: bool, b: bool, c: bool, d: bool, e: bool, f: bool): (v: int)
    ensures 0 <= v < 16
  {
    if !a && !f then Line(b, c, d, e, 7, 13, 14, 3, 0, 6, 9, 10, 1, 2, 8, 5, 11, 12, 4, 15)
    else if !a then Line(b, c, d, e, 13, 8, 11, 5, 6, 15, 0, 3, 4, 7, 2, 12, 1, 10, 14, 9)
    else if !f then Line(b, c, d, e, 10, 6, 9, 0, 12, 11, 7, 13, 15, 1, 3, 14, 5, 2, 8, 4)
    else Line(b, c, d, e, 3, 15, 0, 6, 10, 1, 13, 8, 9, 4, 5, 11, 12, 7, 2, 14)
  }

  function S5(a: bool, b: bool, c: bool, d: bool, e: bool, f: bool): (v: int)
    ensures 0 <= v < 16
  {
    if !a && !f then Line(b, c, d, e, 2, 12, 4, 1, 7, 10, 11, 6, 8, 5, 3, 15, 13, 0, 14, 9)
    else if !a then Line(b, c, d, e, 14, 11, 2, 12, 4, 7, 13, 1, 5, 0, 15, 10, 3, 9, 8, 6)
    else if !f then Line(b, c, d, e, 4, 2, 1, 11, 10, 13, 7, 8, 15, 9, 12, 5, 6, 3, 0, 14)
    else Line(b, c, d, e, 11, 8, 12, 7, 1, 14, 2, 13, 6, 15, 0, 9, 10, 4, 5, 3)
  }

  function S6(a: bool, b: bool, c: bool, d: bool, e: bool, f: bool): (v: int)
    ensures 0 <= v < 16
  {
    if !a && !f then Line(b, c, d, e, 12, 1, 10, 15, 9, 2, 6, 8, 0, 13, 3, 4, 14, 7, 5, 11)
    else if !a then Line(b, c, d, e, 10, 15, 4, 2, 7, 12, 9, 5, 6, 1, 13, 14, 0, 11, 3, 8)
    else if !f then Line(b, c, d, e, 9, 14, 15, 5, 2, 8, 12, 3, 7, 0, 4, 10, 1, 13, 11, 6)
    else Line(b, c, d, e, 4, 3, 2, 12, 9, 5, 15, 10, 11, 14, 1, 7, 6, 0, 8, 13)
  }

  function S7(a: bool, b: bool, c: bool, d: bool, e: bool, f: bool): (v: int)
    ensures 0 <= v < 16
  {
    if !a && !f then Line(b, c, d, e, 4, 11, 2, 14, 15, 0, 8, 13, 3, 12, 9, 7, 5, 10, 6, 1)
    else if !a then Line(b, c, d, e, 13, 0, 11, 7, 4, 9, 1, 10, 14, 3, 5, 12, 2, 15, 8, 6)
    else if !f then Line(b, c, d, e, 1, 4, 11, 13, 12, 3, 7, 14, 10, 15, 6, 8, 0, 5, 9, 2)
    else Line(b, c, d, e, 6, 11, 13, 8, 1, 4, 10, 7, 9, 5, 0, 15, 14, 2, 3, 12)
  }

  function S8(a: bool, b: bool, c: bool, d: bool, e: bool, f: bool): (v: int)
    ensures 0 <= v < 16
  {
    if !a && !f then Line(b, c, d, e, 13, 2, 8, 4, 6, 15, 11, 1, 10, 9, 3, 14, 5, 0, 12, 7)
    else if !a then Line(b, c, d, e, 1, 15, 13, 8, 10, 3, 7, 4, 12, 5, 6, 11, 0, 14, 9, 2)
    else if !f then Line(b, c, d, e, 7, 11, 4, 1, 9, 12, 14, 2, 0, 6, 10, 13, 15, 3, 5, 8)
    else Line(b, c, d, e, 2, 1, 14, 7, 4, 10, 8, 13, 15, 12, 9, 0, 3, 5, 6, 11)
  }

  function Box(n: nat, a: bool, b: bool, c: bool, d: bool, e: bool, f: bool): (v: int)
    requires n < 8
    ensures 0 <= v < 16
  {
    match n
    case 0 => S1(a, b, c, d, e, f) case 1 => S2(a, b, c, d, e, f)
    case 2 => S3(a, b, c, d, e, f) case 3 => S4(a, b, c, d, e, f)
    case 4 => S5(a, b, c, d, e, f) case 5 => S6(a, b, c, d, e, f)
    case 6 => S7(a, b, c, d, e, f) case 7 => S8(a, b, c, d, e, f)
  }

  lemma {:induction false} IpBackIpLow(i: nat)
    requires 0 <= i < 32
    ensures IpBack(Ip(i) - 1) == i + 1
  {
    match i
    case 0 => case 1 => case 2 => case 3 => case 4 => case 5 => case 6 => case 7 =>
    case 8 => case 9 => case 10 => case 11 => case 12 => case 13 => case 14 => case 15 =>
    case 16 => case 17 => case 18 => case 19 => case 20 => case 21 => case 22 => case 23 =>
    case 24 => case 25 => case 26 => case 27 => case 28 => case 29 => case 30 => case 31 =>
  }

  lemma {:induction false} IpBackIpHigh(i: nat)
    requires 32 <= i < 64
    ensures IpBack(Ip(i) - 1) == i + 1
  {
    match i
    case 32 => case 33 => case 34 => case 35 => case 36 => case 37 => case 38 => case 39 =>
    case 40 => case 41 => case 42 => case 43 => case 44 => case 45 => case 46 => case 47 =>
    case 48 => case 49 => case 50 => case 51 => case 52 => case 53 => case 54 => case 55 =>
    case 56 => case 57 => case 58 => case 59 => case 60 => case 61 => case 62 => case 63 =>
  }

  lemma {:induction false} IpIpBackLow(i: nat)
    requires 0 <= i < 32
    ensures Ip(IpBack(i) - 1) == i + 1
  {
    match i
    case 0 => case 1 => case 2 => case 3 => case 4 => case 5 => case 6 => case 7 =>
    case 8 => case 9 => case 10 => case 11 => case 12 => case 13 => case 14 => case 15 =>
    case 16 => case 17 => case 18 => case 19 => case 20 => case 21 => case 22 => case 23 =>
    case 24 => case 25 => case 26 => case 27 => case 28 => case 29 => case 30 => case 31 =>
  }

  lemma {:induction false} IpIpBackHigh(i: nat)
    requires 32 <= i < 64
    ensures Ip(IpBack(i) - 1) == i + 1
  {
    match i
    case 32 => case 33 => case 34 => case 35 => case 36 => case 37 => case 38 => case 39 =>
    case 40 => case 41 => case 42 => case 43 => case 44 => case 45 => case 46 => case 47 =>
    case 48 => case 49 => case 50 => case 51 => case 52 => case 53 => case 54 => case 55 =>
    case 56 => case 57 => case 58 => case 59 => case 60 => case 61 => case 62 => case 63 =>
  }

  /** The two permutations undo each other. */
  lemma {:induction false} Inverse(i: nat)
    requires i < 64
    ensures IpBack(Ip(i) - 1) == i + 1 && Ip(IpBack(i) - 1) == i + 1
  {
    if i < 32 {
      IpBackIpLow(i);
      IpIpBackLow(i);
    } else {
      IpBackIpHigh(i);
      IpIpBackHigh(i);
    }
  }
}
