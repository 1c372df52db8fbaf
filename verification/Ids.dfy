// Request ids: a prefix and a decimal counter, as fmt.Sprintf("srv-%d", n) and ("req-%d", n) print them.
module Ids {
  import V = Versions

  function Digit(d: nat): char
    requires d < 10
  {
    ['0', '1', '2', '3', '4', '5', '6', '7', '8', '9'][d]
  }

  function Decimal(n: nat): (s: string)
    ensures |s| > 0
  {
    if n < 10 then [Digit(n)] else Decimal(n / 10) + [Digit(n % 10)]
  }

  lemma {:induction false} DecimalInjective(m: nat, n: nat)
    requires Decimal(m) == Decimal(n)
    ensures m == n
  {
    var s, t := Decimal(m), Decimal(n);
    assert s[|s| - 1] == t[|t| - 1];
    if m >= 10 && n >= 10 {
      assert s[..|s| - 1] == Decimal(m / 10) && t[..|t| - 1] == Decimal(n / 10);
      DecimalInjective(m / 10, n / 10);
    }
  }

  // It is the number written in decimal digits, without a leading zero.
  lemma {:induction false} DecimalReads(n: nat)
    ensures forall i | 0 <= i < |Decimal(n)| :: V.IsDigit(Decimal(n)[i])
    ensures V.Value(Decimal(n)) == n
    ensures n > 0 ==> Decimal(n)[0] != '0'
  {
    if n >= 10 {
      var s := Decimal(n);
      DecimalReads(n / 10);
      assert s[..|s| - 1] == Decimal(n / 10) && s[|s| - 1] == Digit(n % 10);
    } else {
      assert V.Value([]) == 0 && Decimal(n)[..0] == [];
    }
  }

  function ServerId(n: nat): string {
    "srv-" + Decimal(n)
  }

  function ClientId(n: nat): string {
    "req-" + Decimal(n)
  }

  // The n-th id is the prefix of its side and the number n.
  lemma IdText(n: nat)
    ensures |ServerId(n)| > 4 && ServerId(n)[..4] == "srv-" && |ClientId(n)| > 4 && ClientId(n)[..4] == "req-"
    ensures forall id | id == ServerId(n)[4..] || id == ClientId(n)[4..] ::
              (forall i | 0 <= i < |id| :: V.IsDigit(id[i])) && V.Value(id) == n && (n > 0 ==> id[0] != '0')
  {
    DecimalReads(n);
    assert ServerId(n)[4..] == Decimal(n) && ClientId(n)[4..] == Decimal(n);
  }

  // Ids are issued once.
  lemma IdsDistinct(m: nat, n: nat)
    ensures ServerId(m) == ServerId(n) ==> m == n
    ensures ClientId(m) == ClientId(n) ==> m == n
  {
    if ServerId(m) == ServerId(n) {
      assert ServerId(m)[4..] == Decimal(m) && ServerId(n)[4..] == Decimal(n);
      DecimalInjective(m, n);
    }
    if ClientId(m) == ClientId(n) {
      assert ClientId(m)[4..] == Decimal(m) && ClientId(n)[4..] == Decimal(n);
      DecimalInjective(m, n);
    }
  }

  lemma AllIdsDistinct()
    ensures forall m: nat, n: nat {:trigger ServerId(m), ServerId(n)} :: ServerId(m) == ServerId(n) ==> m == n
    ensures forall m: nat, n: nat {:trigger ClientId(m), ClientId(n)} :: ClientId(m) == ClientId(n) ==> m == n
  {
    forall m: nat, n: nat {
      IdsDistinct(m, n);
    }
  }
}
