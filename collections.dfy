/**
 * The three array operations the two collection stores are built from, as JavaScript
 * defines them: `filter` (delete), `map` with a conditional replacement (update by id) and
 * `find` (the current selection). Both stores use them with a test on the record's id.
 */
module Collections {
  import opened Wrappers

  /** `s.filter(x => !drop(x))`. */
  function Remove<T>(s: seq<T>, drop: T -> bool): (r: seq<T>)
    ensures |r| <= |s|
  {
    if s == [] then []
    else (if drop(s[0]) then [] else [s[0]]) + Remove(s[1..], drop)
  }

  /** Filtering keeps exactly the elements not dropped: nothing dropped survives, and
      every element that is not dropped is kept. */
  lemma {:induction false} RemoveMembers<T>(s: seq<T>, drop: T -> bool)
    ensures forall x :: x in Remove(s, drop) <==> x in s && !drop(x)
  {
    if s != [] {
      RemoveMembers(s[1..], drop);
      assert s == [s[0]] + s[1..];
    }
  }

  /** Filtering distributes over concatenation: the kept elements stay in their order. */
  lemma {:induction false} RemoveAppend<T>(a: seq<T>, b: seq<T>, drop: T -> bool)
    ensures Remove(a + b, drop) == Remove(a, drop) + Remove(b, drop)
  {
    if a == [] {
      assert a + b == b;
    } else {
      var head := if drop(a[0]) then [] else [a[0]];
      assert (a + b)[0] == a[0];
      assert (a + b)[1..] == a[1..] + b;
      assert Remove(a + b, drop) == head + Remove(a[1..] + b, drop);
      RemoveAppend(a[1..], b, drop);
      assert Remove(a, drop) == head + Remove(a[1..], drop);
    }
  }

  /** Nothing to drop: the sequence is kept as it is. */
  lemma {:induction false} RemoveNothing<T>(s: seq<T>, drop: T -> bool)
    requires forall i :: 0 <= i < |s| ==> !drop(s[i])
    ensures Remove(s, drop) == s
  {
    if s != [] {
      RemoveNothing(s[1..], drop);
    }
  }

  /** `s.map(x => hit(x) ? f(x) : x)`. */
  function ReplaceWhere<T>(s: seq<T>, hit: T -> bool, f: T -> T): (r: seq<T>)
    ensures |r| == |s|
    ensures forall i :: 0 <= i < |s| ==> r[i] == if hit(s[i]) then f(s[i]) else s[i]
  {
    if s == [] then []
    else [if hit(s[0]) then f(s[0]) else s[0]] + ReplaceWhere(s[1..], hit, f)
  }

  /** The index `s.findIndex(hit)` would give, or nothing. */
  function FirstIndex<T>(s: seq<T>, hit: T -> bool): (r: Option<nat>)
    ensures r.Some? ==> r.value < |s| && hit(s[r.value]) &&
                        forall j :: 0 <= j < r.value ==> !hit(s[j])
    ensures r.None? <==> forall j :: 0 <= j < |s| ==> !hit(s[j])
  {
    if s == [] then None
    else if hit(s[0]) then Some(0)
    else match FirstIndex(s[1..], hit)
      case None => None
      case Some(k) => Some(k + 1)
  }

  /** `s.find(hit)`: the first element satisfying `hit`, or nothing. */
  function Find<T>(s: seq<T>, hit: T -> bool): (r: Option<T>)
    ensures r.None? <==> forall j :: 0 <= j < |s| ==> !hit(s[j])
    ensures r.Some? ==> FirstIndex(s, hit).Some? && r.value == s[FirstIndex(s, hit).value]
  {
    match FirstIndex(s, hit)
    case None => None
    case Some(i) => Some(s[i])
  }

  /** After replacing every element that satisfies `hit` by `x`, where `x` itself satisfies
      `hit`, the first element satisfying `hit` is `x` exactly when one existed before. */
  lemma FindAfterReplace<T>(s: seq<T>, hit: T -> bool, x: T)
    requires hit(x)
    ensures Find(ReplaceWhere(s, hit, _ => x), hit) ==
              if Find(s, hit).Some? then Some(x) else None
  {
  }
}
