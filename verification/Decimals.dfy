/** Decimal notation, as `%d` writes it and as `atoi` reads it. */
module Decimals {
  function Digit(d: nat): char
    requires d < 10
  {
    (d + '0' as nat) as char
  }

  function Decimal(n: nat): string {
    if n < 10 then [Digit(n)] else Decimal(n / 10) + [Digit(n % 10)]
  }
}
