/** Colon-separated store keys: when joining fields can be undone, and numbers in keys. */
module Keys {

  predicate NoColon(s: string) {
    ':' !in s
  }

  function Join(head: string, rest: string): string {
    head + ":" + rest
  }

  /** A colon-free head can be read off the joined key. */
  lemma {:induction false} JoinIsInjective(head: string, rest: string, head': string, rest': string)
    requires NoColon(head) && NoColon(head')
    requires Join(head, rest) == Join(head', rest')
    ensures head == head' && rest == rest'
  {
    var key, key' := Join(head, rest), Join(head', rest');
    assert key[|head|] == ':' && key'[|head'|] == ':';
    assert forall i :: 0 <= i < |head| ==> key[i] == head[i] && head[i] in head;
    assert forall i :: 0 <= i < |head'| ==> key'[i] == head'[i] && head'[i] in head';
    assert |head| == |head'|;
    assert head == key[..|head|] && head' == key'[..|head|];
    assert rest == key[|head| + 1..] && rest' == key'[|head| + 1..];
  }

  function Decimal(n: nat): string {
    if n < 10 then [('0' as int + n) as char] else Decimal(n / 10) + [('0' as int + n % 10) as char]
  }

  lemma {:induction false} DecimalHasNoColon(n: nat)
    ensures NoColon(Decimal(n))
  {
    if n >= 10 { DecimalHasNoColon(n / 10); }
  }

  lemma {:induction false} DecimalIsInjective(m: nat, n: nat)
    requires Decimal(m) == Decimal(n)
    ensures m == n
  {
    var a, b := Decimal(m), Decimal(n);
    DecimalIsNotEmpty(m / 10);
    DecimalIsNotEmpty(n / 10);
    assert a[|a| - 1] == ('0' as int + m % 10) as char && b[|b| - 1] == ('0' as int + n % 10) as char;
    if m >= 10 && n >= 10 {
      assert a[..|a| - 1] == Decimal(m / 10) && b[..|b| - 1] == Decimal(n / 10);
      DecimalIsInjective(m / 10, n / 10);
    }
  }

  lemma DecimalIsNotEmpty(n: nat)
    ensures Decimal(n) != ""
  {
  }
}
