/** Byte-wise string order, joining, and sorting by that order. */
module Strings {

  /** Strict lexicographic order. */
  predicate Less(a: string, b: string)
  {
    if b == "" then false
    else if a == "" then true
    else a[0] < b[0] || (a[0] == b[0] && Less(a[1..], b[1..]))
  }

  lemma {:induction false} LessTotal(a: string, b: string)
    ensures Less(a, b) || a == b || Less(b, a)
    ensures !(Less(a, b) && Less(b, a)) && !Less(a, a)
    decreases |a|
  {
    if a != "" {
      LessTotal(a[1..], a[1..]);
      if b != "" {
        LessTotal(a[1..], b[1..]);
        if a[0] == b[0] && a[1..] == b[1..] {
          assert a == [a[0]] + a[1..] == b;
        }
      }
    }
  }

  lemma {:induction false} LessTransitive(a: string, b: string, c: string)
    requires Less(a, b) && Less(b, c)
    ensures Less(a, c)
    decreases |a|
  {
    if a != "" && a[0] == b[0] && b[0] == c[0] {
      LessTransitive(a[1..], b[1..], c[1..]);
    }
  }

  function Join(parts: seq<string>, separator: string): string
  {
    if parts == [] then ""
    else if |parts| == 1 then parts[0]
    else parts[0] + separator + Join(parts[1..], separator)
  }

  /** A number in decimal. */
  function Decimal(n: nat): string
  {
    (if n < 10 then "" else Decimal(n / 10)) + [('0' as int + n % 10) as char]
  }

  predicate Ascending(s: seq<string>)
  {
    forall i, j | 0 <= i < j < |s| :: Less(s[i], s[j])
  }

  function Insert(x: string, s: seq<string>): (r: seq<string>)
    requires Ascending(s) && x !in s
    ensures Ascending(r) && multiset(r) == multiset(s) + multiset{x}
  {
    if s == [] then [x]
    else
      LessTotal(x, s[0]);
      assert s == [s[0]] + s[1..];
      if Less(x, s[0]) then
        assert forall j | 0 <= j < |s| :: Less(x, s[j]) by {
          forall j | 1 <= j < |s| ensures Less(x, s[j]) { LessTransitive(x, s[0], s[j]); }
        }
        [x] + s
      else
        var rest := Insert(x, s[1..]);
        assert forall y | y in rest :: Less(s[0], y) by {
          forall y | y in rest ensures Less(s[0], y) {
            assert y in multiset(rest);
            if y != x { assert y in s[1..]; }
          }
        }
        [s[0]] + rest
  }

  /** The keys of a set, in ascending order. */
  method SortedKeys(keys: set<string>) returns (r: seq<string>)
    ensures Ascending(r) && forall k :: k in r <==> k in keys
  {
    r := [];
    var left := keys;
    while left != {}
      invariant Ascending(r) && left <= keys
      invariant forall k :: k in r <==> k in keys && k !in left
      decreases left
    {
      var k :| k in left;
      ghost var before := r;
      r := Insert(k, r);
      assert forall x :: x in r <==> x in multiset(r);
      assert forall x :: x in before <==> x in multiset(before);
      left := left - {k};
    }
  }
}
