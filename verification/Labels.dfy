/** Label sets and their cache key, framework/kernel/observability/metrics/metrics.go and
    adapters/otel/metric_provider.go. Strings are byte strings. */
module Labels {
  type Labels = map<string, string>

  predicate Separator(c: char) {
    c == '|' || c == '='
  }

  predicate Clean(value: string) {
    forall i | 0 <= i < |value| :: !Separator(value[i])
  }

  /** Exactly as many labels as expected names, every expected name among them with a clean value. */
  predicate Valid(expected: seq<string>, l: Labels) {
    |l| == |expected| && forall i | 0 <= i < |expected| :: expected[i] in l && Clean(l[expected[i]])
  }

  predicate Distinct(names: seq<string>) {
    forall i, j | 0 <= i < j < |names| :: names[i] != names[j]
  }

  /** name=value pairs in registration order, joined by a bar. */
  function Key(order: seq<string>, l: Labels): string
    requires forall i | 0 <= i < |order| :: order[i] in l
  {
    if order == [] then ""
    else
      var last := order[|order| - 1];
      (if |order| == 1 then "" else Key(order[..|order| - 1], l) + "|") + last + "=" + l[last]
  }

  lemma CleanInCharacters(expected: seq<string>, l: Labels)
    ensures Valid(expected, l)
       <==> |l| == |expected| && forall name | name in expected :: name in l && '|' !in l[name] && '=' !in l[name]
  {
    assert forall v: string :: Clean(v) <==> '|' !in v && '=' !in v;
    assert (forall i | 0 <= i < |expected| :: expected[i] in l && Clean(l[expected[i]]))
      <==> forall name | name in expected :: name in l && Clean(l[name]);
  }

  method ContainsSeparator(value: string) returns (found: bool)
    ensures found <==> !Clean(value)
  {
    for i := 0 to |value|
      invariant Clean(value[..i])
    {
      if Separator(value[i]) {
        return true;
      }
    }
    assert value[..|value|] == value;
    return false;
  }

  method ValidateLabels(expected: seq<string>, l: Labels) returns (ok: bool)
    ensures ok <==> Valid(expected, l)
    ensures ok <==> |l| == |expected| && forall name | name in expected :: name in l && '|' !in l[name] && '=' !in l[name]
  {
    CleanInCharacters(expected, l);
    if |l| != |expected| {
      return false;
    }
    for i := 0 to |expected|
      invariant forall j | 0 <= j < i :: expected[j] in l && Clean(l[expected[j]])
    {
      if expected[i] !in l {
        return false;
      }
      var dirty := ContainsSeparator(l[expected[i]]);
      if dirty {
        return false;
      }
    }
    return true;
  }

  /** Appends to a buffer, left to right. */
  method BuildKey(order: seq<string>, l: Labels) returns (key: string)
    requires forall i | 0 <= i < |order| :: order[i] in l
    ensures key == Key(order, l)
    ensures |order| == 1 ==> key == order[0] + "=" + l[order[0]]
    ensures |order| == 2 ==> key == order[0] + "=" + l[order[0]] + "|" + order[1] + "=" + l[order[1]]
  {
    var buf := "";
    for i := 0 to |order|
      invariant buf == Key(order[..i], l)
    {
      assert order[..i + 1][..i] == order[..i];
      if i > 0 {
        buf := buf + "|";
      }
      buf := buf + order[i];
      buf := buf + "=";
      buf := buf + l[order[i]];
    }
    assert order[..|order|] == order;
    return buf;
  }

  // ------------------------------------------------------------------
  // The key determines the labels exactly when the names are distinct
  // ------------------------------------------------------------------

  /** The last '=' separates a clean value from what is before it. */
  lemma LastValueUnique(p: string, v: string, q: string, w: string)
    requires Clean(v) && Clean(w) && p + "=" + v == q + "=" + w
    ensures p == q && v == w
  {
    var s, t := p + "=" + v, q + "=" + w;
    assert Separator(s[|p|]) && Separator(t[|q|]);
    assert forall k | |p| < k < |s| :: s[k] == v[k - |p| - 1] && !Separator(s[k]);
    assert forall k | |q| < k < |t| :: t[k] == w[k - |q| - 1] && !Separator(t[k]);
    assert |p| == |q|;
    assert s[..|p|] == p && t[..|q|] == q;
    assert s[|p| + 1..] == v && t[|q| + 1..] == w;
  }

  lemma SamePrefix(p: string, q: string, tail: string)
    requires p + tail == q + tail
    ensures p == q
  {
    assert (p + tail)[..|p|] == p && (q + tail)[..|q|] == q;
  }

  lemma {:induction false} KeyFixesValues(order: seq<string>, l: Labels, m: Labels)
    requires forall i | 0 <= i < |order| :: order[i] in l && Clean(l[order[i]]) && order[i] in m && Clean(m[order[i]])
    requires Key(order, l) == Key(order, m)
    ensures forall i | 0 <= i < |order| :: l[order[i]] == m[order[i]]
    decreases |order|
  {
    if order != [] {
      var last, init := order[|order| - 1], order[..|order| - 1];
      var p := (if |order| == 1 then "" else Key(init, l) + "|") + last;
      var q := (if |order| == 1 then "" else Key(init, m) + "|") + last;
      LastValueUnique(p, l[last], q, m[last]);
      if |order| > 1 {
        assert Key(init, l) + ("|" + last) == p && Key(init, m) + ("|" + last) == q;
        SamePrefix(Key(init, l), Key(init, m), "|" + last);
        KeyFixesValues(init, l, m);
      }
      forall i | 0 <= i < |order| ensures l[order[i]] == m[order[i]] {
        assert i < |order| - 1 ==> init[i] == order[i];
      }
    }
  }

  function Names(order: seq<string>): set<string> {
    set i | 0 <= i < |order| :: order[i]
  }

  lemma {:induction false} NamesCount(order: seq<string>)
    ensures |Names(order)| <= |order|
    ensures Distinct(order) <==> |Names(order)| == |order|
    decreases |order|
  {
    if order != [] {
      var init, last := order[..|order| - 1], order[|order| - 1];
      NamesCount(init);
      assert Names(order) == Names(init) + {last};
      assert forall i | 0 <= i < |init| :: init[i] == order[i];
      if last in Names(init) {
        assert Names(order) == Names(init);
        var i :| 0 <= i < |init| && init[i] == last;
        assert order[i] == order[|order| - 1];
      } else {
        assert forall i | 0 <= i < |init| :: init[i] in Names(init);
      }
    }
  }

  lemma SubsetOfSameSize(a: set<string>, b: set<string>)
    requires a <= b && |a| == |b|
    ensures a == b
  {
    assert |b - a| == 0;
    assert b == a + (b - a);
  }

  /** Over distinct names, valid label sets with the same key are the same label set. */
  lemma KeyInjective(order: seq<string>, l: Labels, m: Labels)
    requires Distinct(order) && Valid(order, l) && Valid(order, m) && Key(order, l) == Key(order, m)
    ensures l == m
  {
    KeyFixesValues(order, l, m);
    NamesCount(order);
    SubsetOfSameSize(Names(order), l.Keys);
    SubsetOfSameSize(Names(order), m.Keys);
  }

  // A repeated name leaves room for labels that the key does not mention.

  function Longest(order: seq<string>): nat
    ensures forall i | 0 <= i < |order| :: |order[i]| <= Longest(order)
  {
    if order == [] then 0
    else
      var rest := Longest(order[1..]);
      assert forall i | 0 < i < |order| :: order[i] == order[1..][i - 1];
      if rest < |order[0]| then |order[0]| else rest
  }

  function Repeated(n: nat): string {
    seq(n, i => 'x')
  }

  function Extras(from: nat, n: nat): set<string> {
    set i | from < i <= from + n :: Repeated(i)
  }

  lemma {:induction false} ExtrasCount(from: nat, n: nat)
    ensures |Extras(from, n)| == n
    decreases n
  {
    if n == 0 {
      assert Extras(from, 0) == {};
    } else {
      ExtrasCount(from, n - 1);
      assert Extras(from, n) == Extras(from, n - 1) + {Repeated(from + n)};
      assert forall i | from < i <= from + n - 1 :: |Repeated(i)| != |Repeated(from + n)|;
    }
  }

  function Missing(order: seq<string>): nat {
    NamesCount(order);
    |order| - |Names(order)|
  }

  function Padded(order: seq<string>, value: string): Labels {
    map name | name in Names(order) + Extras(Longest(order), Missing(order)) ::
      if name in Names(order) then "" else value
  }

  lemma {:induction false} SameKey(order: seq<string>, l: Labels, m: Labels)
    requires forall i | 0 <= i < |order| :: order[i] in l && order[i] in m && l[order[i]] == m[order[i]]
    ensures Key(order, l) == Key(order, m)
    decreases |order|
  {
    if |order| > 1 {
      SameKey(order[..|order| - 1], l, m);
    }
  }

  lemma PaddedValid(order: seq<string>, value: string)
    ensures Valid(order, Padded(order, value))
  {
    NamesCount(order);
    var missing := Missing(order);
    ExtrasCount(Longest(order), missing);
    assert Names(order) !! Extras(Longest(order), missing) by {
      forall i, j | 0 <= i < |order| && Longest(order) < j <= Longest(order) + missing ensures order[i] != Repeated(j) {
        assert |order[i]| < |Repeated(j)|;
      }
    }
    assert Padded(order, value).Keys == Names(order) + Extras(Longest(order), missing);
  }

  /** With a repeated name two different valid label sets share a key. */
  lemma RepeatedNameCollides(order: seq<string>)
    requires !Distinct(order)
    ensures exists l, m :: Valid(order, l) && Valid(order, m) && l != m && Key(order, l) == Key(order, m)
  {
    var l, m := Padded(order, "0"), Padded(order, "1");
    PaddedValid(order, "0");
    PaddedValid(order, "1");
    NamesCount(order);
    var extra := Repeated(Longest(order) + 1);
    assert extra in Extras(Longest(order), Missing(order));
    assert extra !in Names(order) by {
      assert |extra| == Longest(order) + 1;
    }
    assert l[extra] != m[extra];
    SameKey(order, l, m);
  }
}
