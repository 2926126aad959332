/** Strings as the agent uses them: substring search, the byte order of
    `sort.Strings`, and sorting itself. */
module Text {

  /** `strings.Contains` and `bytes.Contains`. */
  predicate Contains(s: string, sub: string) {
    exists i :: 0 <= i <= |s| - |sub| && OccursAt(s, sub, i)
  }

  predicate OccursAt(s: string, sub: string, i: nat) {
    i + |sub| <= |s| && s[i..i + |sub|] == sub
  }

  /** No character of `s` is `c`. */
  predicate Free(s: string, c: char) {
    c !in s
  }

  /** The byte-wise order Go compares strings by. */
  predicate Less(a: string, b: string)
  {
    if |b| == 0 then false
    else if |a| == 0 then true
    else if a[0] == b[0] then Less(a[1..], b[1..])
    else a[0] < b[0]
  }

  lemma {:induction false} LessIsTotal(a: string, b: string)
    ensures a != b ==> Less(a, b) || Less(b, a)
    ensures !(Less(a, b) && Less(b, a))
    ensures !Less(a, a)
  {
    if |a| > 0 {
      LessIsTotal(a[1..], a[1..]);
      if |b| > 0 && a[0] == b[0] {
        LessIsTotal(a[1..], b[1..]);
        assert a == [a[0]] + a[1..] && b == [b[0]] + b[1..];
      }
    }
  }

  lemma {:induction false} LessIsTransitive(a: string, b: string, c: string)
    requires Less(a, b) && Less(b, c)
    ensures Less(a, c)
  {
    if |a| > 0 && a[0] == b[0] && b[0] == c[0] {
      LessIsTransitive(a[1..], b[1..], c[1..]);
    }
  }

  /** In order, and with no string twice. */
  predicate StrictlySorted(xs: seq<string>) {
    forall i, j :: 0 <= i < j < |xs| ==> Less(xs[i], xs[j])
  }

  function Elements(xs: seq<string>): (r: set<string>)
    ensures r == {} <==> xs == []
  {
    var r := set x | x in xs;
    assert xs != [] ==> xs[0] in r;
    r
  }

  lemma ElementsOfJoin(a: seq<string>, b: seq<string>)
    ensures Elements(a + b) == Elements(a) + Elements(b)
  {
  }

  /** The strings of a set, in an order that is not specified, as a map is walked. */
  ghost function AnyOrder(s: set<string>): (xs: seq<string>)
    ensures Elements(xs) == s
  {
    if s == {} then []
    else
      var x :| x in s;
      ElementsOfJoin([x], AnyOrder(s - {x}));
      [x] + AnyOrder(s - {x})
  }

  /** `sort.Strings` followed by `slices.Compact`: `x` goes to its place, or
      nowhere if it is there already. */
  function Insert(x: string, xs: seq<string>): (r: seq<string>)
    ensures Elements(r) == Elements(xs) + {x}
  {
    if |xs| == 0 then [x]
    else if x == xs[0] then xs
    else if Less(x, xs[0]) then [x] + xs
    else
      ElementsOfJoin([xs[0]], xs[1..]);
      ElementsOfJoin([xs[0]], Insert(x, xs[1..]));
      assert xs == [xs[0]] + xs[1..];
      [xs[0]] + Insert(x, xs[1..])
  }

  lemma {:induction false} InsertKeepsOrder(x: string, xs: seq<string>)
    requires StrictlySorted(xs)
    ensures StrictlySorted(Insert(x, xs))
  {
    if |xs| > 0 && x != xs[0] {
      LessIsTotal(x, xs[0]);
      if Less(x, xs[0]) {
        forall j | 0 <= j < |xs| ensures Less(x, xs[j]) {
          if j > 0 { LessIsTransitive(x, xs[0], xs[j]); }
        }
      } else {
        InsertKeepsOrder(x, xs[1..]);
        var rest := Insert(x, xs[1..]);
        forall j | 0 <= j < |rest| ensures Less(xs[0], rest[j]) {
          assert rest[j] in Elements(rest);
        }
      }
    }
  }

  /** The strings of `xs`, each once, in order. */
  function SortedUnique(xs: seq<string>): (r: seq<string>)
    ensures Elements(r) == Elements(xs)
  {
    if |xs| == 0 then []
    else
      ElementsOfJoin([xs[0]], xs[1..]);
      assert xs == [xs[0]] + xs[1..];
      Insert(xs[0], SortedUnique(xs[1..]))
  }

  lemma {:induction false} SortedUniqueIsSorted(xs: seq<string>)
    ensures StrictlySorted(SortedUnique(xs))
  {
    if |xs| > 0 {
      SortedUniqueIsSorted(xs[1..]);
      InsertKeepsOrder(xs[0], SortedUnique(xs[1..]));
    }
  }

  /** A set of strings has only one strictly sorted listing. */
  lemma {:induction false} SortedListingIsUnique(a: seq<string>, b: seq<string>)
    requires StrictlySorted(a) && StrictlySorted(b)
    requires Elements(a) == Elements(b)
    ensures a == b
  {
    if |a| > 0 {
      SmallestIsFirst(a, b);
      SmallestIsFirst(b, a);
      LessIsTotal(a[0], b[0]);
      TailElements(a);
      TailElements(b);
      SortedListingIsUnique(a[1..], b[1..]);
      assert a == [a[0]] + a[1..] && b == [b[0]] + b[1..];
    }
  }

  lemma SmallestIsFirst(a: seq<string>, b: seq<string>)
    requires StrictlySorted(a) && |a| > 0 && |b| > 0
    requires Elements(a) == Elements(b)
    ensures !Less(b[0], a[0])
  {
    assert b[0] in Elements(b);
    var i :| 0 <= i < |a| && a[i] == b[0];
    LessIsTotal(a[0], a[i]);
  }

  lemma TailElements(a: seq<string>)
    requires StrictlySorted(a) && |a| > 0
    ensures Elements(a[1..]) == Elements(a) - {a[0]}
  {
    forall i | 0 < i < |a| ensures a[i] != a[0] {
      LessIsTotal(a[0], a[i]);
    }
    assert a == [a[0]] + a[1..];
  }
}
