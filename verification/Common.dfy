/** Values and sequence facts shared by the whole model. */
module Common {

  datatype Option<+T> = None | Some(value: T)

  datatype Result<+T, +E> = Success(value: T) | Failure(error: E)

  /** The first of two that is there. */
  function OrElse<T>(a: Option<T>, b: Option<T>): Option<T> {
    if a.Some? then a else b
  }

  function ToSet<T>(s: seq<T>): set<T> {
    set x | x in s
  }

  ghost predicate NoDup<T>(s: seq<T>) {
    forall i, j :: 0 <= i < j < |s| ==> s[i] != s[j]
  }

  lemma ToSetConcat<T>(a: seq<T>, b: seq<T>)
    ensures ToSet(a + b) == ToSet(a) + ToSet(b)
  {
    assert forall x :: x in a + b <==> x in a || x in b;
  }

  /** A concatenation repeats nothing exactly when its parts repeat nothing and share nothing. */
  lemma NoDupConcat<T>(a: seq<T>, b: seq<T>)
    ensures NoDup(a + b) <==> NoDup(a) && NoDup(b) && ToSet(a) !! ToSet(b)
  {
    var c := a + b;
    if NoDup(c) {
      assert forall i | 0 <= i < |a| :: c[i] == a[i];
      assert forall i | 0 <= i < |b| :: c[|a| + i] == b[i];
      forall i, j | 0 <= i < |a| && 0 <= j < |b|
        ensures a[i] != b[j]
      {
        assert c[i] != c[|a| + j];
      }
    }
    if NoDup(a) && NoDup(b) && ToSet(a) !! ToSet(b) {
      forall i, j | 0 <= i < j < |c|
        ensures c[i] != c[j]
      {
        if i < |a| <= j {
          assert c[i] in ToSet(a) && c[j] in ToSet(b);
        } else if |a| <= i {
          assert c[i] == b[i - |a|] && c[j] == b[j - |a|];
        }
      }
    }
  }
}
