/** Ordered listing of storage rows with numeric keys: zero-padded keys list in numeric order. */
module OrderedKeys {
  import opened Prelude

  predicate Increasing(s: seq<nat>) { forall i, j :: 0 <= i < j < |s| ==> s[i] < s[j] }

  function Elements(s: seq<nat>): set<nat> { set k | k in s }

  /** What `list` with a limit answers for a prefix holding `keys`: the first of them, in order. */
  ghost predicate Lists(listed: seq<nat>, keys: set<nat>, limit: nat) {
    && Increasing(listed)
    && |listed| <= limit
    && (forall k :: k in listed ==> k in keys)
    && (forall k :: k in keys && k !in listed ==> |listed| == limit && forall i :: 0 <= i < |listed| ==> listed[i] < k)
  }

  method Least(keys: set<nat>) returns (least: nat)
    requires keys != {}
    ensures least in keys && forall k :: k in keys ==> least <= k
  {
    least :| least in keys;
    var todo := keys - {least};
    while todo != {}
      invariant todo <= keys && least in keys && forall k :: k in keys && k !in todo ==> least <= k
      decreases todo
    {
      var k :| k in todo;
      if k < least { least := k; }
      todo := todo - {k};
    }
  }

  method ListKeys(keys: set<nat>, limit: nat) returns (listed: seq<nat>)
    ensures Lists(listed, keys, limit)
  {
    listed := [];
    var todo := keys;
    while todo != {} && |listed| < limit
      invariant todo <= keys && |listed| <= limit && Increasing(listed)
      invariant forall k :: k in keys <==> k in todo || k in listed
      invariant forall i, k :: 0 <= i < |listed| && k in todo ==> listed[i] < k
      decreases todo
    {
      var k := Least(todo);
      listed := listed + [k];
      todo := todo - {k};
    }
  }

  ghost predicate LastOf(last: Option<nat>, keys: set<nat>) {
    match last
    case None => keys == {}
    case Some(k) => k in keys && forall j :: j in keys ==> j <= k
  }

  /** The last key of a reversed listing. */
  method LastKey(keys: set<nat>) returns (last: Option<nat>)
    ensures LastOf(last, keys)
  {
    if keys == {} { return None; }
    var best :| best in keys;
    var todo := keys - {best};
    while todo != {}
      invariant todo <= keys && best in keys && forall k :: k in keys && k !in todo ==> k <= best
      decreases todo
    {
      var k :| k in todo;
      if best < k { best := k; }
      todo := todo - {k};
    }
    last := Some(best);
  }

  /** After `i` elements the listing goes on with the next one. */
  lemma NoKeySkipped(listed: seq<nat>, all: seq<nat>, limit: nat, i: nat, j: nat)
    requires Lists(listed, Elements(all), limit) && Increasing(all) && i < |listed| && j < |all| && all[j] == listed[i]
    requires forall m :: 0 <= m < i ==> m < |all| && all[m] == listed[m]
    ensures i == j
  {
    if i < j {
      assert all[i] in Elements(all) && all[i] < listed[i];
      assert forall m :: 0 <= m < |listed| ==> if m < i then listed[m] < all[i] else all[i] < listed[m];
    }
  }

  /** A listing of an increasing sequence's elements is a prefix of it. */
  lemma {:induction false} ListedPrefix(listed: seq<nat>, all: seq<nat>, limit: nat, i: nat)
    requires Lists(listed, Elements(all), limit) && Increasing(all) && i <= |listed|
    ensures i <= |all| && listed[..i] == all[..i]
  {
    if i > 0 {
      ListedPrefix(listed, all, limit, i - 1);
      var k := listed[i - 1];
      assert k in Elements(all);
      var j :| 0 <= j < |all| && all[j] == k;
      assert forall m :: 0 <= m < i - 1 ==> all[m] == listed[..i - 1][m] == listed[m];
      NoKeySkipped(listed, all, limit, i - 1, j);
      assert listed[..i] == listed[..i - 1] + [k] && all[..i] == all[..i - 1] + [k];
    }
  }

  /** ... and the whole of it when the limit was not reached. */
  lemma ListedAll(listed: seq<nat>, all: seq<nat>, limit: nat)
    requires Lists(listed, Elements(all), limit) && Increasing(all)
    ensures |listed| == Min(limit, |all|) && listed == all[..|listed|]
  {
    ListedPrefix(listed, all, limit, |listed|);
    assert listed[..|listed|] == listed;
    if |listed| < |all| {
      assert all[|listed|] in Elements(all);
      assert forall m :: 0 <= m < |listed| ==> listed[m] == all[..|listed|][m] < all[|listed|];
    }
  }
}
