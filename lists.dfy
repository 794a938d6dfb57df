/** The two JavaScript array operations the modelled code is built on:
    `Array.prototype.find` (as the index of the first match) and
    `Array.prototype.filter`. */
module Lists {

  datatype Option<T> = None | Some(value: T)

  /** The index of the first element of `s` that satisfies `p`, or `None`
      when no element does; `find` returns the element at this index. */
  function FirstMatch<T>(s: seq<T>, p: T -> bool): (r: Option<nat>)
    ensures r.Some? ==> r.value < |s| && p(s[r.value])
    ensures r.Some? ==> forall j :: 0 <= j < r.value ==> !p(s[j])
    ensures r.None? ==> forall j :: 0 <= j < |s| ==> !p(s[j])
  {
    if |s| == 0 then None
    else if p(s[0]) then Some(0)
    else match FirstMatch(s[1..], p)
      case None => None
      case Some(k) => Some(k + 1)
  }

  /** A position that matches and has no match before it is the one found. */
  lemma FirstMatchAt<T>(s: seq<T>, p: T -> bool, k: nat)
    requires k < |s| && p(s[k])
    requires forall j :: 0 <= j < k ==> !p(s[j])
    ensures FirstMatch(s, p) == Some(k)
  {
  }

  /** Appending elements never changes an existing first match, and when
      there was none the match, if any, lies in the appended part. */
  lemma {:induction false} FirstMatchAppend<T>(s: seq<T>, t: seq<T>, p: T -> bool)
    ensures FirstMatch(s, p).Some? ==> FirstMatch(s + t, p) == FirstMatch(s, p)
    ensures FirstMatch(s, p).None? ==>
      FirstMatch(s + t, p) == match FirstMatch(t, p)
                              case None => None
                              case Some(k) => Some(|s| + k)
  {
    var r := FirstMatch(s, p);
    if r.Some? {
      FirstMatchAt(s + t, p, r.value);
    } else {
      match FirstMatch(t, p)
      case None =>
        forall j | 0 <= j < |s + t|
          ensures !p((s + t)[j])
        {
          if j < |s| {
            assert (s + t)[j] == s[j];
          } else {
            assert (s + t)[j] == t[j - |s|];
          }
        }
      case Some(k) =>
        assert (s + t)[|s| + k] == t[k];
        forall j | 0 <= j < |s| + k
          ensures !p((s + t)[j])
        {
          if j < |s| {
            assert (s + t)[j] == s[j];
          } else {
            assert (s + t)[j] == t[j - |s|];
          }
        }
        FirstMatchAt(s + t, p, |s| + k);
    }
  }

  /** Replacing an element by one that `p` judges the same way leaves the
      first match where it was. */
  lemma FirstMatchUpdate<T>(s: seq<T>, k: nat, v: T, p: T -> bool)
    requires k < |s| && p(v) == p(s[k])
    ensures FirstMatch(s[k := v], p) == FirstMatch(s, p)
  {
    var s' := s[k := v];
    assert forall j :: 0 <= j < |s| ==> p(s'[j]) == p(s[j]);
    match FirstMatch(s, p)
    case None =>
      assert forall j :: 0 <= j < |s'| ==> !p(s'[j]);
    case Some(m) =>
      FirstMatchAt(s', p, m);
  }

  /** The elements of `s` that satisfy `p`, in their original order. */
  function Filter<T>(s: seq<T>, p: T -> bool): (r: seq<T>)
    ensures |r| <= |s|
    ensures forall i :: 0 <= i < |r| ==> r[i] in s && p(r[i])
    ensures forall i :: 0 <= i < |s| && p(s[i]) ==> s[i] in r
  {
    if |s| == 0 then []
    else (if p(s[0]) then [s[0]] else []) + Filter(s[1..], p)
  }

  /** Filtering a concatenation filters each part and keeps them in order:
      with the one-element cases this pins the filter down completely. */
  lemma {:induction false} FilterDistributes<T>(a: seq<T>, b: seq<T>, p: T -> bool)
    ensures Filter(a + b, p) == Filter(a, p) + Filter(b, p)
  {
    if |a| == 0 {
      assert a + b == b;
    } else {
      assert (a + b)[0] == a[0];
      assert (a + b)[1..] == a[1..] + b;
      FilterDistributes(a[1..], b, p);
    }
  }

  /** A one-element sequence is kept exactly when its element satisfies `p`. */
  lemma FilterSingleton<T>(x: T, p: T -> bool)
    ensures Filter([x], p) == if p(x) then [x] else []
  {
    assert [x][1..] == [];
  }
}
