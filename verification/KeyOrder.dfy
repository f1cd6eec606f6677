/** Byte-string keys in the order storage lists them, forward or reversed
    (src/indexes.ts, compareBytes). */
module KeyOrder {
  import opened Prelude

  type Key = seq<nat>

  /** Lexicographic order; a proper prefix comes first. */
  predicate Less(a: Key, b: Key) {
    if b == [] then false
    else if a == [] then true
    else a[0] < b[0] || (a[0] == b[0] && Less(a[1..], b[1..]))
  }

  predicate Before(a: Key, b: Key, reverse: bool) { if reverse then Less(b, a) else Less(a, b) }

  lemma {:induction false} LessTotal(a: Key, b: Key)
    ensures Less(a, b) || a == b || Less(b, a)
    ensures !(Less(a, b) && Less(b, a)) && (a == b ==> !Less(a, b))
    decreases |a|
  {
    if a != [] && b != [] && a[0] == b[0] {
      LessTotal(a[1..], b[1..]);
      assert a == [a[0]] + a[1..] && b == [b[0]] + b[1..];
    }
  }

  lemma {:induction false} LessTransitive(a: Key, b: Key, c: Key)
    requires Less(a, b) && Less(b, c)
    ensures Less(a, c)
    decreases |a|
  {
    if a != [] && a[0] == b[0] && b[0] == c[0] { LessTransitive(a[1..], b[1..], c[1..]); }
  }

  lemma BeforeTotal(a: Key, b: Key, reverse: bool)
    ensures Before(a, b, reverse) || a == b || Before(b, a, reverse)
    ensures !(Before(a, b, reverse) && Before(b, a, reverse)) && (a == b ==> !Before(a, b, reverse))
  {
    LessTotal(a, b);
  }

  lemma BeforeTransitive(a: Key, b: Key, c: Key, reverse: bool)
    requires Before(a, b, reverse) && Before(b, c, reverse)
    ensures Before(a, c, reverse)
  {
    if reverse { LessTransitive(c, b, a); } else { LessTransitive(a, b, c); }
  }

  lemma {:induction false} LessAfterCommon(left: Key, right: Key, i: nat)
    requires i <= |left| && i <= |right| && left[..i] == right[..i]
    ensures Less(left, right) <==> Less(left[i..], right[i..])
    ensures left == right <==> left[i..] == right[i..]
  {
    assert left == left[..i] + left[i..] && right == right[..i] + right[i..];
    if i > 0 {
      assert left[..i][0] == left[0] && right[..i][0] == right[0];
      assert left[1..][..i - 1] == left[..i][1..] && right[1..][..i - 1] == right[..i][1..];
      assert left[1..][i - 1..] == left[i..] && right[1..][i - 1..] == right[i..];
      LessAfterCommon(left[1..], right[1..], i - 1);
    }
  }

  /** The first differing byte decides; otherwise the shorter key comes first. */
  method CompareBytes(left: Key, right: Key) returns (difference: int)
    ensures difference < 0 <==> Less(left, right)
    ensures difference == 0 <==> left == right
    ensures difference > 0 <==> Less(right, left)
  {
    var length, index := Min(|left|, |right|), 0;
    while index < length
      invariant 0 <= index <= length && left[..index] == right[..index]
    {
      LessAfterCommon(left, right, index);
      LessAfterCommon(right, left, index);
      difference := left[index] as int - right[index] as int;
      if difference != 0 { return; }
      assert left[..index + 1] == left[..index] + [left[index]] &&
             right[..index + 1] == right[..index] + [right[index]];
      index := index + 1;
    }
    LessAfterCommon(left, right, index);
    LessAfterCommon(right, left, index);
    return |left| - |right|;
  }

  // ---- ordered listings -------------------------------------------------------------

  ghost predicate Ordered(s: seq<Key>, reverse: bool) {
    forall i, j :: 0 <= i < j < |s| ==> Before(s[i], s[j], reverse)
  }

  function Names(s: seq<Key>): set<Key> { set k | k in s }

  /** `listed` are the first keys of a set in order, at most `n`, and all of them when there are fewer. */
  ghost predicate Firsts(listed: seq<Key>, keys: set<Key>, n: nat, reverse: bool) {
    && Ordered(listed, reverse) && |listed| <= n
    && (forall k :: k in listed ==> k in keys)
    && (forall k :: k in keys && k !in listed ==> |listed| == n)
    && (forall k, p :: k in keys && k !in listed && p in listed ==> Before(p, k, reverse))
  }

  method FirstKey(keys: set<Key>, reverse: bool) returns (first: Key)
    requires keys != {}
    ensures first in keys && forall k :: k in keys && k != first ==> Before(first, k, reverse)
  {
    first :| first in keys;
    var todo := keys - {first};
    while todo != {}
      invariant todo <= keys && first in keys && first !in todo
      invariant forall k :: k in keys && k !in todo && k != first ==> Before(first, k, reverse)
      decreases todo
    {
      var k :| k in todo;
      BeforeTotal(first, k, reverse);
      var compared := CompareBytes(k, first);
      if (if reverse then compared > 0 else compared < 0) {
        forall j | j in keys && j !in todo && j != first ensures Before(k, j, reverse) {
          BeforeTransitive(k, first, j, reverse);
        }
        first := k;
      }
      todo := todo - {k};
    }
  }

  /** List in order: the first `n` keys. */
  method ListFirst(keys: set<Key>, n: nat, reverse: bool) returns (listed: seq<Key>)
    ensures Firsts(listed, keys, n, reverse)
  {
    listed := [];
    var todo := keys;
    while todo != {} && |listed| < n
      invariant todo <= keys && |listed| <= n && Ordered(listed, reverse)
      invariant forall k :: k in keys <==> k in todo || k in listed
      invariant forall k, p :: k in todo && p in listed ==> Before(p, k, reverse)
      decreases todo
    {
      var k := FirstKey(todo, reverse);
      listed := listed + [k];
      todo := todo - {k};
    }
  }

  /** Ordered listings hold every key once. */
  lemma {:induction false} OrderedCardinality(s: seq<Key>, reverse: bool)
    requires Ordered(s, reverse)
    ensures |Names(s)| == |s|
    decreases |s|
  {
    if s == [] {
      assert Names(s) == {};
    } else {
      var last, rest := s[|s| - 1], s[..|s| - 1];
      OrderedCardinality(rest, reverse);
      if last in rest {
        var i :| 0 <= i < |rest| && rest[i] == last;
        BeforeTotal(s[i], last, reverse);
      }
      assert Names(s) == Names(rest) + {last};
    }
  }

  lemma SubsetCardinality(a: set<Key>, b: set<Key>)
    requires a <= b
    ensures |a| <= |b|
  {
    assert b == a + (b - a);
  }

  /** The first keys of a set are determined. */
  lemma {:induction false} FirstsUnique(a: seq<Key>, b: seq<Key>, keys: set<Key>, n: nat, reverse: bool)
    requires Firsts(a, keys, n, reverse) && Firsts(b, keys, n, reverse)
    ensures a == b
  {
    FirstsPrefix(a, b, keys, n, reverse, Min(|a|, |b|));
    OrderedCardinality(a, reverse);
    OrderedCardinality(b, reverse);
    if |a| < |b| { Shorter(a, b, keys, n, reverse); }
    if |b| < |a| { Shorter(b, a, keys, n, reverse); }
    assert a == a[..|a|] && b == b[..|b|];
  }

  lemma Shorter(a: seq<Key>, b: seq<Key>, keys: set<Key>, n: nat, reverse: bool)
    requires Firsts(a, keys, n, reverse) && Firsts(b, keys, n, reverse)
    requires |Names(a)| == |a| && |Names(b)| == |b|
    ensures |a| >= |b|
  {
    if Names(b) <= Names(a) {
      SubsetCardinality(Names(b), Names(a));
    } else {
      var k :| k in Names(b) && k !in Names(a);
      assert k in keys && k !in a;
    }
  }

  lemma {:induction false} FirstsPrefix(a: seq<Key>, b: seq<Key>, keys: set<Key>, n: nat, reverse: bool, i: nat)
    requires Firsts(a, keys, n, reverse) && Firsts(b, keys, n, reverse) && i <= |a| && i <= |b|
    ensures a[..i] == b[..i]
  {
    if i > 0 {
      FirstsPrefix(a, b, keys, n, reverse, i - 1);
      NextSame(a, b, keys, n, reverse, i - 1);
      assert a[..i] == a[..i - 1] + [a[i - 1]] && b[..i] == b[..i - 1] + [b[i - 1]];
    }
  }

  lemma NextSame(a: seq<Key>, b: seq<Key>, keys: set<Key>, n: nat, reverse: bool, i: nat)
    requires Firsts(a, keys, n, reverse) && Firsts(b, keys, n, reverse) && i < |a| && i < |b| && a[..i] == b[..i]
    ensures a[i] == b[i]
  {
    NotAfter(a, b, keys, n, reverse, i);
    NotAfter(b, a, keys, n, reverse, i);
    BeforeTotal(a[i], b[i], reverse);
  }

  /** The i-th key of one listing is not before that of the other. */
  lemma NotAfter(a: seq<Key>, b: seq<Key>, keys: set<Key>, n: nat, reverse: bool, i: nat)
    requires Firsts(a, keys, n, reverse) && Firsts(b, keys, n, reverse) && i < |a| && i < |b| && a[..i] == b[..i]
    ensures !Before(a[i], b[i], reverse)
  {
    BeforeTotal(a[i], b[i], reverse);
    assert a[i] in a && b[i] in b;
    if a[i] in b {
      var j :| 0 <= j < |b| && b[j] == a[i];
      if j < i {
        assert a[j] == a[..i][j] == b[..i][j] == b[j];
        BeforeTotal(a[j], a[i], reverse);
      } else if j > i {
        BeforeTotal(b[i], b[j], reverse);
      }
    }
  }
}
