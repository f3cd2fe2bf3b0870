/** Shared value types and the notion of an arbitrary map iteration order. */
module Common {

  datatype Option<+T> = None | Some(value: T)

  datatype Result<+T, +E> = Ok(value: T) | Err(error: E)

  /** No element occurs twice. */
  ghost predicate Distinct<T>(s: seq<T>) {
    forall i, j :: 0 <= i < j < |s| ==> s[i] != s[j]
  }

  /** `s` visits every element of `keys` exactly once: one possible iteration order of a Go map. */
  ghost predicate Enumerates<T(!new)>(s: seq<T>, keys: set<T>) {
    Distinct(s) && forall x :: x in s <==> x in keys
  }

  /** Position of the first element satisfying `p`. */
  function FirstWhere<T>(p: T -> bool, s: seq<T>): (r: Option<nat>)
    ensures r.Some? ==> r.value < |s| && p(s[r.value]) && forall j :: 0 <= j < r.value ==> !p(s[j])
    ensures r.None? ==> forall j :: 0 <= j < |s| ==> !p(s[j])
  {
    if s == [] then None
    else if p(s[0]) then Some(0)
    else match FirstWhere(p, s[1..])
      case None => None
      case Some(i) => Some(i + 1)
  }

  /** The number of elements satisfying `p`. */
  ghost function Count<T>(p: T -> bool, s: seq<T>): nat {
    if s == [] then 0 else Count(p, s[..|s| - 1]) + (if p(s[|s| - 1]) then 1 else 0)
  }

  lemma {:induction false} CountAllOrNot<T>(p: T -> bool, s: seq<T>)
    ensures Count(p, s) <= |s|
    ensures Count(p, s) == |s| <==> forall i :: 0 <= i < |s| ==> p(s[i])
    ensures Count(p, s) == 0 <==> forall i :: 0 <= i < |s| ==> !p(s[i])
  {
    if s != [] {
      CountAllOrNot(p, s[..|s| - 1]);
      assert forall i :: 0 <= i < |s| - 1 ==> s[..|s| - 1][i] == s[i];
    }
  }

  /** The positions whose elements satisfy `p`. */
  ghost function Where<T>(p: T -> bool, s: seq<T>): set<int> {
    set i | 0 <= i < |s| && p(s[i])
  }

  lemma {:induction false} CountIsSize<T>(p: T -> bool, s: seq<T>)
    ensures Count(p, s) == |Where(p, s)|
  {
    if s != [] {
      var n := |s| - 1;
      CountIsSize(p, s[..n]);
      assert Where(p, s) == Where(p, s[..n]) + (if p(s[n]) then {n} else {});
    }
  }

  /** A duplicate-free sequence has as many elements as the set it visits. */
  lemma {:induction false} EnumerationSize<T(!new)>(s: seq<T>, keys: set<T>)
    requires Enumerates(s, keys)
    ensures |s| == |keys|
  {
    if s == [] {
      assert keys == {};
    } else {
      var last := s[|s| - 1];
      var front := s[..|s| - 1];
      assert s == front + [last];
      assert forall x :: x in front <==> x in s && x != last;
      EnumerationSize(front, keys - {last});
      assert last in keys;
    }
  }

  lemma SubsetSize<T>(a: set<T>, b: set<T>)
    requires a <= b
    ensures |a| <= |b|
    ensures |a| == |b| ==> a == b
  {
    assert b == a + (b - a);
  }

  lemma {:induction false} EnumerationExists<T(!new)>(keys: set<T>)
    ensures exists s :: Enumerates(s, keys)
  {
    if keys == {} {
      assert Enumerates<T>([], keys);
    } else {
      var k :| k in keys;
      EnumerationExists(keys - {k});
      var s :| Enumerates(s, keys - {k});
      assert Enumerates(s + [k], keys);
    }
  }

  ghost function EnumerationOf<T(!new)>(keys: set<T>): (s: seq<T>)
    ensures Enumerates(s, keys)
  {
    EnumerationExists(keys);
    var s :| Enumerates(s, keys);
    s
  }

  /** The elements satisfying `p`, in order. */
  ghost function Filter<T>(p: T -> bool, s: seq<T>): seq<T> {
    if s == [] then []
    else Filter(p, s[..|s| - 1]) + (if p(s[|s| - 1]) then [s[|s| - 1]] else [])
  }

  /** `r` picks from `s` the elements satisfying `p`, all of them and in order; `from` says which. */
  ghost predicate Selects<T>(p: T -> bool, s: seq<T>, r: seq<T>, from: seq<nat>) {
    && |from| == |r|
    && (forall k :: 0 <= k < |r| ==> from[k] < |s| && p(s[from[k]]) && r[k] == s[from[k]])
    && (forall k, l :: 0 <= k < l < |r| ==> from[k] < from[l])
    && (forall i :: 0 <= i < |s| && p(s[i]) ==> i in from)
  }

  lemma {:induction false} FilterCons<T>(p: T -> bool, s: seq<T>)
    requires s != []
    ensures Filter(p, s) == (if p(s[0]) then [s[0]] else []) + Filter(p, s[1..])
  {
    if |s| == 1 {
      assert s[..0] == [] && s[1..] == [];
    } else {
      var front := s[..|s| - 1];
      FilterCons(p, front);
      assert front[1..] == s[1..][..|s| - 2];
    }
  }

  lemma {:induction false} FilterMembers<T>(p: T -> bool, s: seq<T>)
    ensures forall x :: x in Filter(p, s) <==> x in s && p(x)
  {
    if s != [] {
      FilterMembers(p, s[..|s| - 1]);
      assert s == s[..|s| - 1] + [s[|s| - 1]];
    }
  }

  lemma {:induction false} FilterNone<T>(p: T -> bool, s: seq<T>)
    ensures Filter(p, s) == [] <==> forall i :: 0 <= i < |s| ==> !p(s[i])
  {
    if s != [] {
      FilterNone(p, s[..|s| - 1]);
      assert forall i :: 0 <= i < |s| - 1 ==> s[..|s| - 1][i] == s[i];
    }
  }

  lemma SelectsMore<T>(p: T -> bool, s: seq<T>, x: T, r: seq<T>, from: seq<nat>)
    requires Selects(p, s, r, from)
    ensures p(x) ==> Selects(p, s + [x], r + [x], from + [|s|])
    ensures !p(x) ==> Selects(p, s + [x], r, from)
  {
    var from' := from + [|s|];
    assert forall i :: i in from ==> i in from';
    assert from'[|from|] == |s|;
  }

  ghost function Positions<T>(p: T -> bool, s: seq<T>): seq<nat> {
    if s == [] then []
    else Positions(p, s[..|s| - 1]) + (if p(s[|s| - 1]) then [|s| - 1] else [])
  }

  lemma {:induction false} FilterSelects<T>(p: T -> bool, s: seq<T>)
    ensures Selects(p, s, Filter(p, s), Positions(p, s))
  {
    if s != [] {
      var front, x := s[..|s| - 1], s[|s| - 1];
      FilterSelects(p, front);
      SelectsMore(p, front, x, Filter(p, front), Positions(p, front));
      assert s == front + [x];
      if !p(x) {
        assert Filter(p, s) == Filter(p, front) && Positions(p, s) == Positions(p, front);
      }
    }
  }
}
