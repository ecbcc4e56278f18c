/** The keys of the cached repository: a prefix and a decimal number, or a fixed word. Three kinds
    of key share the receiver cache. */
module CacheKeys {

  function Digit(d: nat): char
    requires d < 10
  {
    (48 + d) as char
  }

  function Decimal(n: nat): (s: string)
    ensures s != []
  {
    if n < 10 then [Digit(n)] else Decimal(n / 10) + [Digit(n % 10)]
  }

  lemma {:induction false} DecimalInjective(m: nat, n: nat)
    requires Decimal(m) == Decimal(n)
    ensures m == n
  {
    var a, b := Decimal(m), Decimal(n);
    assert a[|a| - 1] == Digit(m % 10) && b[|b| - 1] == Digit(n % 10);
    assert m % 10 == n % 10 by {
      assert Digit(m % 10) as int == 48 + m % 10 && Digit(n % 10) as int == 48 + n % 10;
    }
    assert (m >= 10 <==> |a| >= 2) && (n >= 10 <==> |b| >= 2);
    if m >= 10 {
      assert a[..|a| - 1] == Decimal(m / 10) && b[..|b| - 1] == Decimal(n / 10);
      DecimalInjective(m / 10, n / 10);
    }
  }

  function OrderKey(id: nat): string {
    "order:" + Decimal(id)
  }

  function ReceiverKey(id: nat): string {
    "receiver:" + Decimal(id)
  }

  function HistoryKey(id: nat): string {
    "history:" + Decimal(id)
  }

  function PackageRulesKey(code: string): string {
    "package_rules:" + code
  }

  const RETURNED_ORDERS := "returned_orders"
  const ALL_ORDERS := "all_orders"

  lemma OrderKeyInjective(m: nat, n: nat)
    ensures OrderKey(m) == OrderKey(n) <==> m == n
  {
    if OrderKey(m) == OrderKey(n) {
      assert OrderKey(m)[6..] == Decimal(m) && OrderKey(n)[6..] == Decimal(n);
      DecimalInjective(m, n);
    }
  }

  lemma HistoryKeyInjective(m: nat, n: nat)
    ensures HistoryKey(m) == HistoryKey(n) <==> m == n
  {
    if HistoryKey(m) == HistoryKey(n) {
      assert HistoryKey(m)[8..] == Decimal(m) && HistoryKey(n)[8..] == Decimal(n);
      DecimalInjective(m, n);
    }
  }

  /** The three kinds of key in the receiver cache never collide. */
  lemma ReceiverKeysApart(m: nat, n: nat)
    ensures ReceiverKey(m) == ReceiverKey(n) <==> m == n
    ensures ReceiverKey(m) != RETURNED_ORDERS && ReceiverKey(m) != ALL_ORDERS && RETURNED_ORDERS != ALL_ORDERS
  {
    if ReceiverKey(m) == ReceiverKey(n) {
      assert ReceiverKey(m)[9..] == Decimal(m) && ReceiverKey(n)[9..] == Decimal(n);
      DecimalInjective(m, n);
    }
    assert ReceiverKey(m)[2] == 'c' && RETURNED_ORDERS[2] == 't' && ALL_ORDERS[2] == 'l';
  }

  lemma PackageRulesKeyInjective(a: string, b: string)
    ensures PackageRulesKey(a) == PackageRulesKey(b) <==> a == b
  {
    if PackageRulesKey(a) == PackageRulesKey(b) {
      assert PackageRulesKey(a)[14..] == a && PackageRulesKey(b)[14..] == b;
    }
  }
}
