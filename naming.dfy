/** String helpers of the builder: generated vertex ids (`"<graph>_<n>"`),
    the negation marker of config-setting names, and the escaping done when
    a label or a config node id is rendered. */
module Naming {

  function DigitChar(d: nat): char
    requires d < 10
  {
    "0123456789"[d]
  }

  /** Decimal text of a natural number, as `%d` prints it. */
  function NatToString(n: nat): (s: string)
    ensures |s| >= 1
    ensures forall i :: 0 <= i < |s| ==> '0' <= s[i] <= '9'
  {
    if n < 10 then [DigitChar(n)] else NatToString(n / 10) + [DigitChar(n % 10)]
  }

  lemma DigitCharInjective(a: nat, b: nat)
    requires a < 10 && b < 10 && DigitChar(a) == DigitChar(b)
    ensures a == b
  {
  }

  /** Distinct numbers print as distinct decimal texts. */
  lemma {:induction false} NatToStringInjective(a: nat, b: nat)
    requires NatToString(a) == NatToString(b)
    ensures a == b
  {
    var s := NatToString(a);
    if a < 10 && b < 10 {
      DigitCharInjective(a, b);
    } else if a >= 10 && b >= 10 {
      var pa, pb := NatToString(a / 10), NatToString(b / 10);
      assert s == pa + [DigitChar(a % 10)];
      assert s == pb + [DigitChar(b % 10)];
      assert |pa| == |pb|;
      assert pa == s[..|s| - 1] == pb;
      DigitCharInjective(a % 10, b % 10);
      NatToStringInjective(a / 10, b / 10);
    }
  }

  /** The id `Graph.genVertexId` produces for counter value `n`. */
  function GenId(graphName: string, n: nat): string
  {
    graphName + "_" + NatToString(n)
  }

  /** Ids generated from distinct counter values are distinct. */
  lemma GenIdInjective(graphName: string, m: nat, n: nat)
    requires GenId(graphName, m) == GenId(graphName, n)
    ensures m == n
  {
    var k := |graphName| + 1;
    assert GenId(graphName, m)[k..] == NatToString(m);
    assert GenId(graphName, n)[k..] == NatToString(n);
    NatToStringInjective(m, n);
  }

  /** The config-setting name a reference denotes: one leading `!` (negation) removed. */
  function StripNegation(name: string): string
  {
    if |name| > 0 && name[0] == '!' then name[1..] else name
  }

  /** Every `"` of the text preceded by a backslash. */
  function EscapeQuotes(s: string): (r: string)
    ensures |r| == |s| + Count(s, '"')
    ensures '"' !in s ==> r == s
    ensures forall i :: 0 <= i < |r| && r[i] == '"' ==> i > 0 && r[i - 1] == '\\'
    ensures |r| > 0 ==> r[0] != '"'
  {
    if s == [] then []
    else
      var r := (if s[0] == '"' then "\\\"" else [s[0]]) + EscapeQuotes(s[1..]);
      r
  }

  /** Reading an escaped text back: a backslash before `"` is dropped. */
  function UnescapeQuotes(t: string): string
  {
    if t == [] then []
    else if |t| >= 2 && t[0] == '\\' && t[1] == '"' then "\"" + UnescapeQuotes(t[2..])
    else [t[0]] + UnescapeQuotes(t[1..])
  }

  /** Escaping loses nothing: the original text is read back, so distinct
      texts get distinct labels. */
  lemma {:induction false} EscapeQuotesRoundTrip(s: string)
    ensures UnescapeQuotes(EscapeQuotes(s)) == s
  {
    if s != [] {
      var t := EscapeQuotes(s[1..]);
      EscapeQuotesRoundTrip(s[1..]);
      if s[0] == '"' {
        assert EscapeQuotes(s) == "\\\"" + t;
        assert ("\\\"" + t)[2..] == t;
      } else {
        assert EscapeQuotes(s) == [s[0]] + t;
        assert ([s[0]] + t)[1..] == t;
      }
    }
  }

  /** Escaping works character by character. */
  lemma {:induction false} EscapeQuotesAppend(a: string, b: string)
    ensures EscapeQuotes(a + b) == EscapeQuotes(a) + EscapeQuotes(b)
  {
    if a != [] {
      assert (a + b)[0] == a[0] && (a + b)[1..] == a[1..] + b;
      EscapeQuotesAppend(a[1..], b);
    } else {
      assert a + b == b;
    }
  }

  /** Every `!` of the text removed. */
  function RemoveBang(s: string): (r: string)
    ensures '!' !in r
    ensures |r| == |s| - Count(s, '!')
    ensures '!' !in s ==> r == s
  {
    if s == [] then []
    else (if s[0] == '!' then [] else [s[0]]) + RemoveBang(s[1..])
  }

  /** Removal works character by character, so the other characters stay in order. */
  lemma {:induction false} RemoveBangAppend(a: string, b: string)
    ensures RemoveBang(a + b) == RemoveBang(a) + RemoveBang(b)
  {
    if a != [] {
      var h: string := if a[0] == '!' then [] else [a[0]];
      assert (a + b)[0] == a[0] && (a + b)[1..] == a[1..] + b;
      assert RemoveBang(a + b) == h + RemoveBang(a[1..] + b);
      RemoveBangAppend(a[1..], b);
      assert RemoveBang(a) == h + RemoveBang(a[1..]);
    } else {
      assert a + b == b;
    }
  }

  function Count(s: string, c: char): nat
  {
    if s == [] then 0 else (if s[0] == c then 1 else 0) + Count(s[1..], c)
  }
}
