/** The idempotency key of a fired occurrence: the cron's name, a colon, the fire time in decimal. */
module CronKeys {

  function Digit(d: nat): char
    requires d < 10
  {
    "0123456789"[d]
  }

  function Show(n: nat): (s: string)
    ensures |s| > 0
    decreases n
  {
    if n < 10 then [Digit(n)] else Show(n / 10) + [Digit(n % 10)]
  }

  function ShowInt(n: int): string {
    if n >= 0 then Show(n) else "-" + Show(-n)
  }

  function CronKey(name: string, fireTs: int): string {
    name + ":" + ShowInt(fireTs)
  }

  lemma {:induction false} ShowChars(n: nat)
    ensures ':' !in Show(n) && Show(n)[0] != '-'
  {
    if n >= 10 {
      ShowChars(n / 10);
    }
  }

  lemma ShowLength(n: nat)
    ensures |Show(n)| == 1 <==> n < 10
  {
  }

  lemma {:induction false} ShowInjective(m: nat, n: nat)
    requires Show(m) == Show(n)
    ensures m == n
  {
    var s := Show(m);
    ShowLength(m);
    ShowLength(n);
    if m >= 10 {
      var a, b := Show(m / 10), Show(n / 10);
      assert a == s[..|s| - 1] == b;
      assert Digit(m % 10) == s[|s| - 1] == Digit(n % 10);
      ShowInjective(m / 10, n / 10);
      assert m % 10 == n % 10;
    }
  }

  lemma ShowIntInjective(m: int, n: int)
    requires ShowInt(m) == ShowInt(n)
    ensures m == n
  {
    if m >= 0 && n >= 0 {
      ShowInjective(m, n);
    } else if m < 0 && n < 0 {
      assert ShowInt(m)[1..] == Show(-m) && ShowInt(n)[1..] == Show(-n);
      ShowInjective(-m, -n);
    } else {
      ShowChars(if m >= 0 then m else n);
    }
  }

  lemma ShowIntChars(n: int)
    ensures ':' !in ShowInt(n)
  {
    ShowChars(if n >= 0 then n else -n);
  }

  lemma LastColon(name: string, x: int, i: nat)
    ensures CronKey(name, x)[|name|] == ':'
    ensures |name| < i < |CronKey(name, x)| ==> CronKey(name, x)[i] != ':'
  {
    ShowIntChars(x);
    var key := CronKey(name, x);
    assert key[|name| + 1..] == ShowInt(x);
    assert |name| < i < |key| ==> key[i] == ShowInt(x)[i - |name| - 1];
  }

  /** The last colon separates name and time, so no two (name, time) pairs share a key, whatever the names. */
  lemma KeyInjective(a: string, x: int, b: string, y: int)
    requires CronKey(a, x) == CronKey(b, y)
    ensures a == b && x == y
  {
    var key := CronKey(a, x);
    LastColon(a, x, |b|);
    LastColon(b, y, |a|);
    assert |a| == |b|;
    assert a == key[..|a|] && b == key[..|b|];
    assert ShowInt(x) == key[|a| + 1..] && ShowInt(y) == key[|b| + 1..];
    ShowIntInjective(x, y);
  }
}
