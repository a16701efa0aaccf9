/** What else is needed of sequences and sets. */
module Collections {
  function Without<T>(s: seq<T>, i: nat): seq<T>
    requires i < |s|
  {
    s[..i] + s[i + 1..]
  }

  lemma InWithout<T>(s: seq<T>, i: nat, m: T)
    requires i < |s|
    ensures m in s ==> m == s[i] || m in Without(s, i)
    ensures m in Without(s, i) ==> m in s
  {
    if m in s {
      var j :| 0 <= j < |s| && s[j] == m;
      if j < i { assert Without(s, i)[j] == m; }
      if j > i { assert Without(s, i)[j - 1] == m; }
    }
  }

  lemma SubsetSize<T>(a: set<T>, b: set<T>)
    requires a <= b
    ensures |a| <= |b| && |b - a| == |b| - |a|
  {
    assert b == a + (b - a);
  }
}
