/** Request URLs as the pages build them: `key=value` pairs joined with
    `&`, numbers written in decimal. */
module QueryString {
  import opened Strings

  /** A decimal digit character. */
  function Digit(d: nat): (c: char)
    requires d < 10
    ensures '0' <= c <= '9'
  {
    ('0' as int + d) as char
  }

  /** The value of a digit character. */
  function DigitValue(c: char): nat {
    if '0' <= c <= '9' then c as int - '0' as int else 0
  }

  /** Reads a string of digits from left to right, starting from `acc`. */
  function ReadDigits(s: string, acc: nat): nat
    decreases |s|
  {
    if s == [] then acc else ReadDigits(s[1..], acc * 10 + DigitValue(s[0]))
  }

  lemma {:induction false} ReadDigitsAppend(a: string, b: string, acc: nat)
    ensures ReadDigits(a + b, acc) == ReadDigits(b, ReadDigits(a, acc))
    decreases |a|
  {
    if a == [] {
      assert a + b == b;
    } else {
      assert (a + b)[0] == a[0] && (a + b)[1..] == a[1..] + b;
      ReadDigitsAppend(a[1..], b, acc * 10 + DigitValue(a[0]));
    }
  }

  /** `${n}` for a natural number: digits only, which read back as `n`. */
  function Decimal(n: nat): (r: string)
    ensures |r| >= 1
    ensures forall i :: 0 <= i < |r| ==> '0' <= r[i] <= '9'
    ensures ReadDigits(r, 0) == n
    decreases n
  {
    if n < 10 then [Digit(n)]
    else
      var r := Decimal(n / 10) + [Digit(n % 10)];
      ReadDigitsAppend(Decimal(n / 10), [Digit(n % 10)], 0);
      r
  }

  /** Different numbers are written differently. */
  lemma DecimalInjective(a: nat, b: nat)
    requires Decimal(a) == Decimal(b)
    ensures a == b
  {
    assert ReadDigits(Decimal(a), 0) == a && ReadDigits(Decimal(b), 0) == b;
  }

  type Pair = (string, string)

  function Param(p: Pair): string {
    p.0 + "=" + p.1
  }

  function Params(pairs: seq<Pair>): (r: seq<string>)
    ensures |r| == |pairs|
    ensures forall i :: 0 <= i < |pairs| ==> r[i] == Param(pairs[i])
  {
    seq(|pairs|, i requires 0 <= i < |pairs| => Param(pairs[i]))
  }

  /** The query part of a URL. */
  function QueryOf(pairs: seq<Pair>): string {
    Join(Params(pairs), "&")
  }

  /** Reading a query back: each `&`-field split at `=`. */
  function ParseField(f: string): Pair {
    var kv := Split(f, '=');
    (kv[0], if |kv| > 1 then kv[1] else "")
  }

  function ParseQuery(q: string): (r: seq<Pair>)
    ensures |r| == |Split(q, '&')|
  {
    var fields := Split(q, '&');
    seq(|fields|, i requires 0 <= i < |fields| => ParseField(fields[i]))
  }

  /** A pair is safe to put in a query when neither side holds `&` or `=`. */
  predicate Safe(p: Pair) {
    '&' !in p.0 && '=' !in p.0 && '&' !in p.1 && '=' !in p.1
  }

  /** Appending one more parameter with `&`. */
  lemma {:induction false} JoinSnoc(xs: seq<string>, x: string, sep: string)
    requires |xs| >= 1
    ensures Join(xs + [x], sep) == Join(xs, sep) + sep + x
    decreases |xs|
  {
    if |xs| > 1 {
      assert (xs + [x])[1..] == xs[1..] + [x];
      JoinSnoc(xs[1..], x, sep);
    }
  }

  lemma QueryOfSnoc(pairs: seq<Pair>, p: Pair)
    requires |pairs| >= 1
    ensures QueryOf(pairs + [p]) == QueryOf(pairs) + "&" + Param(p)
  {
    assert Params(pairs + [p]) == Params(pairs) + [Param(p)];
    JoinSnoc(Params(pairs), Param(p), "&");
  }

  /** A query built from safe pairs reads back as exactly those pairs, so
      the URL determines every key and value and their order. */
  lemma ParseQueryOf(pairs: seq<Pair>)
    requires |pairs| >= 1
    requires forall i :: 0 <= i < |pairs| ==> Safe(pairs[i])
    ensures ParseQuery(QueryOf(pairs)) == pairs
  {
    var ps := Params(pairs);
    forall i | 0 <= i < |ps| ensures '&' !in ps[i] {
      assert ps[i] == pairs[i].0 + "=" + pairs[i].1;
    }
    SplitJoin(ps, '&');
    forall i | 0 <= i < |pairs| ensures ParseField(ps[i]) == pairs[i] {
      assert ps[i] == Join([pairs[i].0, pairs[i].1], "=");
      SplitJoin([pairs[i].0, pairs[i].1], '=');
    }
  }
}
