/** Names in the order of an ordered map: byte by byte. */
module Names {

  predicate Less(a: string, b: string) {
    b != "" && (a == "" || a[0] < b[0] || (a[0] == b[0] && Less(a[1..], b[1..])))
  }

  lemma {:induction false} Trichotomy(a: string, b: string)
    ensures Less(a, b) || a == b || Less(b, a)
    ensures !(Less(a, b) && Less(b, a)) && !Less(a, a)
  {
    if a != "" { Irreflexive(a); }
    if a != "" && b != "" {
      Trichotomy(a[1..], b[1..]);
      if a[0] == b[0] && a[1..] == b[1..] { assert a == [a[0]] + a[1..] == b; }
    }
  }

  lemma {:induction false} Irreflexive(a: string)
    ensures !Less(a, a)
  {
    if a != "" { Irreflexive(a[1..]); }
  }

  lemma {:induction false} Transitive(a: string, b: string, c: string)
    requires Less(a, b) && Less(b, c)
    ensures Less(a, c)
  {
    if a != "" && a[0] == b[0] && b[0] == c[0] { Transitive(a[1..], b[1..], c[1..]); }
  }

  predicate Increasing(s: seq<string>) {
    forall i, j :: 0 <= i < j < |s| ==> Less(s[i], s[j])
  }

  function InsertName(s: seq<string>, x: string): (r: seq<string>) {
    if s == [] || Less(x, s[0]) then [x] + s else [s[0]] + InsertName(s[1..], x)
  }

  lemma {:induction false} InsertKeepsOrder(s: seq<string>, x: string)
    requires Increasing(s) && x !in s
    ensures Increasing(InsertName(s, x))
    ensures forall y :: y in InsertName(s, x) <==> y == x || y in s
  {
    if s != [] {
      if Less(x, s[0]) {
        forall k | 0 < k < |s| ensures Less(x, s[k]) { Transitive(x, s[0], s[k]); }
      } else {
        Trichotomy(x, s[0]);
        InsertKeepsOrder(s[1..], x);
        var t := InsertName(s[1..], x);
        forall k | 0 <= k < |t| ensures Less(s[0], t[k]) {
          assert t[k] in t;
          if t[k] != x {
            var m :| 0 <= m < |s[1..]| && s[1..][m] == t[k];
            assert s[m + 1] == t[k];
          }
        }
        assert s == [s[0]] + s[1..];
      }
    }
  }

  /** The names of a set in increasing order. */
  method Sorted(names: set<string>) returns (r: seq<string>)
    ensures Increasing(r) && forall x :: x in r <==> x in names
  {
    r := [];
    var rest := names;
    while rest != {}
      invariant Increasing(r) && rest <= names
      invariant forall x :: x in r <==> x in names && x !in rest
      decreases |rest|
    {
      var x :| x in rest;
      InsertKeepsOrder(r, x);
      r := InsertName(r, x);
      rest := rest - {x};
    }
  }
}
