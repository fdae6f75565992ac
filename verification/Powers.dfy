module Powers {
  function Pow(b: nat, n: nat): nat {
    if n == 0 then 1 else b * Pow(b, n - 1)
  }

  lemma MulMono(b: nat, x: nat, y: nat)
    requires x <= y
    ensures b * x <= b * y && (b > 0 ==> x <= b * x)
  {
  }

  lemma {:induction false} PowMono(b: nat, m: nat, n: nat)
    requires b > 0 && m <= n
    ensures 0 < Pow(b, m) <= Pow(b, n)
  {
    if m > 0 {
      PowMono(b, m - 1, n - 1);
      MulMono(b, Pow(b, m - 1), Pow(b, n - 1));
    } else if n > 0 {
      PowMono(b, 0, n - 1);
      MulMono(b, 1, Pow(b, n - 1));
    }
  }
}
