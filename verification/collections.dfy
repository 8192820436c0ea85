/**
  Sequence helpers shared by the engine, the two document loaders and the
  format validator: an option type, first-match search (the shape of every
  lookup loop in the engine) and the bounded filter-and-copy loop every
  loader uses to fill a fixed-capacity array.
 */
module Collections {

  datatype Option<T> = None | Some(value: T) {
    function GetOr(default: T): T {
      match this
      case Some(v) => v
      case None => default
    }
  }

  function Min(a: int, b: int): int {
    if a <= b then a else b
  }

  /** Index of the first element of `s` that satisfies `p`, scanning from the front. */
  function FindFirst<T>(s: seq<T>, p: T -> bool): (r: Option<nat>)
    ensures r.Some? ==> r.value < |s| && p(s[r.value])
    ensures r.Some? ==> forall j :: 0 <= j < r.value ==> !p(s[j])
    ensures r.None? <==> forall j :: 0 <= j < |s| ==> !p(s[j])
    decreases |s|
  {
    if |s| == 0 then None
    else if p(s[0]) then Some(0)
    else match FindFirst(s[1..], p)
      case None => None
      case Some(i) => Some(i + 1)
  }

  /** `i` is the position of the first element of `s` satisfying `p`. */
  ghost predicate IsFirst<T>(s: seq<T>, p: T -> bool, i: int) {
    && 0 <= i < |s|
    && p(s[i])
    && forall j :: 0 <= j < i ==> !p(s[j])
  }

  /** There is at most one first match. */
  lemma FirstIsUnique<T>(s: seq<T>, p: T -> bool, i: int, k: int)
    requires IsFirst(s, p, i) && IsFirst(s, p, k)
    ensures i == k
  {
  }

  /** The prefix of `s` holding at most `cap` elements. */
  function Truncate<T>(s: seq<T>, cap: nat): (r: seq<T>)
    ensures |r| == Min(|s|, cap)
    ensures r == s[..|r|]
  {
    if |s| <= cap then s else s[..cap]
  }

  /** The payloads of the `Some` results of `parse` over `xs`, in order. */
  function Somes<A, B>(xs: seq<A>, parse: A -> Option<B>): (r: seq<B>)
    ensures |r| <= |xs|
    decreases |xs|
  {
    if |xs| == 0 then []
    else match parse(xs[0])
      case Some(b) => [b] + Somes(xs[1..], parse)
      case None => Somes(xs[1..], parse)
  }

  /**
    The loaders' fill loop: walk `xs` in order, stop as soon as `cap`
    entries are stored, store `b` for each element that `parse` maps to
    `Some(b)` and skip the others. `acc` is what is already stored.
   */
  function Collect<A, B>(xs: seq<A>, parse: A -> Option<B>, cap: nat, acc: seq<B>): seq<B>
    decreases |xs|
  {
    if |xs| == 0 || |acc| >= cap then acc
    else match parse(xs[0])
      case Some(b) => Collect(xs[1..], parse, cap, acc + [b])
      case None => Collect(xs[1..], parse, cap, acc)
  }

  lemma TruncateCons<T>(x: T, t: seq<T>, cap: nat)
    requires cap > 0
    ensures Truncate([x] + t, cap) == [x] + Truncate(t, cap - 1)
  {
    var l := Truncate([x] + t, cap);
    var r := [x] + Truncate(t, cap - 1);
    assert |l| == |r|;
    forall i | 0 <= i < |l|
      ensures l[i] == r[i]
    {
      if i > 0 {
        assert l[i] == ([x] + t)[i] == t[i - 1];
      }
    }
  }

  /**
    The fill loop stores exactly the first `cap - |acc|` accepted
    elements, in their original order: filtering then truncating.
   */
  lemma {:induction false} CollectIsTruncatedSomes<A, B>(xs: seq<A>, parse: A -> Option<B>, cap: nat, acc: seq<B>)
    requires |acc| <= cap
    ensures Collect(xs, parse, cap, acc) == acc + Truncate(Somes(xs, parse), cap - |acc|)
    decreases |xs|
  {
    if |xs| == 0 {
    } else if |acc| >= cap {
      assert Truncate(Somes(xs, parse), 0) == [];
    } else {
      match parse(xs[0])
      case Some(b) =>
        assert Collect(xs, parse, cap, acc) == Collect(xs[1..], parse, cap, acc + [b]);
        assert Somes(xs, parse) == [b] + Somes(xs[1..], parse);
        CollectIsTruncatedSomes(xs[1..], parse, cap, acc + [b]);
        TruncateCons(b, Somes(xs[1..], parse), cap - |acc|);
        assert acc + [b] + Truncate(Somes(xs[1..], parse), cap - |acc| - 1)
            == acc + ([b] + Truncate(Somes(xs[1..], parse), cap - |acc| - 1));
      case None =>
        assert Collect(xs, parse, cap, acc) == Collect(xs[1..], parse, cap, acc);
        assert Somes(xs, parse) == Somes(xs[1..], parse);
        CollectIsTruncatedSomes(xs[1..], parse, cap, acc);
    }
  }

  /** Every element of `Somes(xs, parse)` is the parse of some element of `xs`. */
  lemma {:induction false} SomesFrom<A, B>(xs: seq<A>, parse: A -> Option<B>, i: nat)
    requires i < |Somes(xs, parse)|
    ensures exists j :: 0 <= j < |xs| && parse(xs[j]) == Some(Somes(xs, parse)[i])
    decreases |xs|
  {
    match parse(xs[0])
    case Some(b) =>
      if i > 0 {
        SomesFrom(xs[1..], parse, i - 1);
        var j :| 0 <= j < |xs[1..]| && parse(xs[1..][j]) == Some(Somes(xs[1..], parse)[i - 1]);
        assert parse(xs[j + 1]) == Some(Somes(xs, parse)[i]);
      }
    case None =>
      SomesFrom(xs[1..], parse, i);
      var j :| 0 <= j < |xs[1..]| && parse(xs[1..][j]) == Some(Somes(xs[1..], parse)[i]);
      assert parse(xs[j + 1]) == Some(Somes(xs, parse)[i]);
  }

  /** Every stored entry of a fill from empty is the parse of some input element. */
  lemma CollectFrom<A, B>(xs: seq<A>, parse: A -> Option<B>, cap: nat, i: nat)
    requires i < |Collect(xs, parse, cap, [])|
    ensures exists j :: 0 <= j < |xs| && parse(xs[j]) == Some(Collect(xs, parse, cap, [])[i])
  {
    CollectIsTruncatedSomes(xs, parse, cap, []);
    SomesFrom(xs, parse, i);
  }

  /** When `parse` accepts every element, `Somes` keeps them all, one for one. */
  lemma {:induction false} SomesTotal<A, B>(xs: seq<A>, parse: A -> Option<B>)
    requires forall j :: 0 <= j < |xs| ==> parse(xs[j]).Some?
    ensures |Somes(xs, parse)| == |xs|
    ensures forall j :: 0 <= j < |xs| ==> Some(Somes(xs, parse)[j]) == parse(xs[j])
    decreases |xs|
  {
    if |xs| > 0 {
      SomesTotal(xs[1..], parse);
      var r := Somes(xs, parse);
      assert r == [parse(xs[0]).value] + Somes(xs[1..], parse);
      forall j | 0 <= j < |xs|
        ensures Some(r[j]) == parse(xs[j])
      {
        if j > 0 {
          assert r[j] == Somes(xs[1..], parse)[j - 1];
          assert xs[1..][j - 1] == xs[j];
        }
      }
    }
  }

  /** When `parse` accepts every element, a fill from empty keeps the first `cap` elements' parses, one for one. */
  lemma CollectTotal<A, B>(xs: seq<A>, parse: A -> Option<B>, cap: nat)
    requires forall j :: 0 <= j < |xs| ==> parse(xs[j]).Some?
    ensures |Collect(xs, parse, cap, [])| == Min(|xs|, cap)
    ensures forall i :: 0 <= i < |Collect(xs, parse, cap, [])| ==> Some(Collect(xs, parse, cap, [])[i]) == parse(xs[i])
  {
    CollectIsTruncatedSomes(xs, parse, cap, []);
    SomesTotal(xs, parse);
    assert Collect(xs, parse, cap, []) == Truncate(Somes(xs, parse), cap);
  }

  /**
    Filling an empty array: at most `cap` entries are stored, and each one
    is a parse result, so any property every parse result has holds of
    every stored entry.
   */
  lemma CollectFromEmpty<A, B>(xs: seq<A>, parse: A -> Option<B>, cap: nat, P: B -> bool)
    requires forall x :: parse(x).Some? ==> P(parse(x).value)
    ensures |Collect(xs, parse, cap, [])| <= cap
    ensures forall i :: 0 <= i < |Collect(xs, parse, cap, [])| ==> P(Collect(xs, parse, cap, [])[i])
  {
    CollectIsTruncatedSomes(xs, parse, cap, []);
    var r := Collect(xs, parse, cap, []);
    forall i | 0 <= i < |r|
      ensures P(r[i])
    {
      assert r[i] == Somes(xs, parse)[i];
      SomesFrom(xs, parse, i);
    }
  }

  /** Two parsers that agree on every element fill the same array. */
  lemma {:induction false} CollectAgree<A, B>(xs: seq<A>, p1: A -> Option<B>, p2: A -> Option<B>, cap: nat, acc: seq<B>)
    requires forall j :: 0 <= j < |xs| ==> p1(xs[j]) == p2(xs[j])
    ensures Collect(xs, p1, cap, acc) == Collect(xs, p2, cap, acc)
    decreases |xs|
  {
    if |xs| > 0 && |acc| < cap {
      assert p1(xs[0]) == p2(xs[0]);
      match p1(xs[0])
      case Some(b) => CollectAgree(xs[1..], p1, p2, cap, acc + [b]);
      case None => CollectAgree(xs[1..], p1, p2, cap, acc);
    }
  }
}
