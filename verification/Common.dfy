/** Small datatypes and sequence facts shared by every module. */
module Common {
  datatype Option<+T> = None | Some(value: T)

  /** What a caller sees of a database statement whose connection may break.
      `LostBefore`: nothing was committed and the caller gets an error.
      `LostAfter`: the statement was committed, yet the caller gets an error. */
  datatype Fault = NoFault | LostBefore | LostAfter

  ghost predicate NoDup<T>(s: seq<T>) {
    forall i, j :: 0 <= i < j < |s| ==> s[i] != s[j]
  }

  ghost function Elements<T>(s: seq<T>): set<T> {
    set x | x in s
  }

  lemma {:induction false} ElementsBound<T>(s: seq<T>)
    ensures |Elements(s)| <= |s|
    ensures NoDup(s) ==> |Elements(s)| == |s|
  {
    if s != [] {
      var p := s[..|s| - 1];
      ElementsBound(p);
      assert s == p + [s[|s| - 1]];
      assert Elements(s) == Elements(p) + {s[|s| - 1]};
    }
  }

  lemma SubsetSize<T>(a: set<T>, b: set<T>)
    requires a <= b
    ensures |a| <= |b|
  {
    assert b == a + (b - a);
  }

  /** A duplicate-free sequence drawn from another one is no longer than it. */
  lemma Pigeonhole<T>(s: seq<T>, t: seq<T>)
    requires NoDup(s)
    requires forall x :: x in s ==> x in t
    ensures |s| <= |t|
  {
    ElementsBound(s);
    ElementsBound(t);
    SubsetSize(Elements(s), Elements(t));
  }

  lemma IndexIn<T>(s: seq<T>, x: T) returns (i: nat)
    requires x in s
    ensures i < |s| && s[i] == x
  {
    i :| 0 <= i < |s| && s[i] == x;
  }
}
