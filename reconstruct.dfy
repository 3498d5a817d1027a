/**
 * Reassembling per-slice predictions into a Z-stack: the sort key `_key`
 * (the digits of the first `_z(\d+)` match in a file's stem, or -1),
 * `_sorted_by_z` (Python's stable `sorted` by that key) and `stack_slices`
 * (reading every file and `np.stack`-ing the planes in list order).
 * Files are identified by their stems: they all come from one directory.
 */
module Reconstruct {
  import opened Wrappers
  import opened Text
  import opened Windows

  /** The regular expression `_z\d` matches at `i`. */
  predicate MarkerAt(s: string, i: int) {
    0 <= i && i + 2 < |s| && s[i] == '_' && s[i + 1] == 'z' && IsDigit(s[i + 2])
  }

  predicate NoMarker(s: string) { forall i | 0 <= i < |s| :: !MarkerAt(s, i) }

  /** Leftmost match position at or after `from`, as `re.search` scans. */
  function FirstMarker(s: string, from: nat): (r: Option<nat>)
    requires from <= |s|
    ensures r.None? ==> forall i :: from <= i ==> !MarkerAt(s, i)
    ensures r.Some? ==> from <= r.value && MarkerAt(s, r.value)
    ensures r.Some? ==> forall i :: from <= i < r.value ==> !MarkerAt(s, i)
    decreases |s| - from
  {
    if from + 2 >= |s| then None
    else if MarkerAt(s, from) then Some(from)
    else FirstMarker(s, from + 1)
  }

  /** End of the greedy `\d+` run that starts at `j`. */
  function DigitRunEnd(s: string, j: nat): (e: nat)
    requires j <= |s|
    ensures j <= e <= |s| && AllDigits(s[j..e])
    ensures e < |s| ==> !IsDigit(s[e])
    decreases |s| - j
  {
    if j < |s| && IsDigit(s[j]) then
      var e := DigitRunEnd(s, j + 1);
      assert s[j..e] == [s[j]] + s[j + 1..e];
      e
    else j
  }

  /** `_key(p)`: the integer of the first `_z(\d+)` group in the stem, or -1 without a match. */
  function ZKey(stem: string): (key: int)
    ensures key >= -1
    ensures key == -1 <==> NoMarker(stem)
  {
    match FirstMarker(stem, 0)
    case None => -1
    case Some(i) => DigitsValue(stem[i + 2..DigitRunEnd(stem, i + 2)])
  }

  /** `s` is ordered by `key`, ascending. */
  predicate OrderedBy<T>(s: seq<T>, key: T -> int) {
    forall i, j :: 0 <= i < j < |s| ==> key(s[i]) <= key(s[j])
  }

  /** Insert `x` before the first element whose key is not smaller (equal keys keep input order). */
  function InsertBy<T>(x: T, s: seq<T>, key: T -> int): (r: seq<T>)
    requires OrderedBy(s, key)
    ensures OrderedBy(r, key)
    ensures multiset(r) == multiset(s) + multiset{x}
  {
    if s == [] || key(x) <= key(s[0]) then
      OrderedCons(x, s, key);
      [x] + s
    else
      var t := InsertBy(x, s[1..], key);
      assert s == [s[0]] + s[1..];
      LowerBoundKept(key(s[0]), s[1..], x, t, key);
      OrderedCons(s[0], t, key);
      [s[0]] + t
  }

  /** An ordered list stays ordered under a head whose key is at most the first key. */
  lemma OrderedCons<T>(h: T, t: seq<T>, key: T -> int)
    requires OrderedBy(t, key)
    requires t != [] ==> key(h) <= key(t[0])
    ensures OrderedBy([h] + t, key)
  {
    var r := [h] + t;
    forall i, j | 0 <= i < j < |r| ensures key(r[i]) <= key(r[j]) {
      if i == 0 {
        assert r[j] == t[j - 1];
        if j > 1 { assert key(t[0]) <= key(t[j - 1]); }
      } else {
        assert r[i] == t[i - 1] && r[j] == t[j - 1];
      }
    }
  }

  lemma LowerBoundKept<T>(b: int, u: seq<T>, x: T, t: seq<T>, key: T -> int)
    requires multiset(t) == multiset(u) + multiset{x}
    requires b <= key(x) && forall j :: 0 <= j < |u| ==> b <= key(u[j])
    ensures forall j :: 0 <= j < |t| ==> b <= key(t[j])
  {
    forall j | 0 <= j < |t| ensures b <= key(t[j]) {
      assert t[j] in multiset(u) + multiset{x};
      if t[j] != x {
        assert t[j] in u;
      }
    }
  }

  /** Python's `sorted(s, key=key)`: a stable sort, here by insertion. */
  function SortBy<T>(s: seq<T>, key: T -> int): (r: seq<T>)
    ensures OrderedBy(r, key)
    ensures multiset(r) == multiset(s)
  {
    if s == [] then []
    else
      assert s == [s[0]] + s[1..];
      InsertBy(s[0], SortBy(s[1..], key), key)
  }

  /** The elements of `s` whose key is `k`, in order. */
  function WithKey<T>(s: seq<T>, key: T -> int, k: int): seq<T> {
    if s == [] then [] else (if key(s[0]) == k then [s[0]] else []) + WithKey(s[1..], key, k)
  }

  lemma {:induction false} InsertWithKey<T>(x: T, s: seq<T>, key: T -> int, k: int)
    requires OrderedBy(s, key)
    ensures WithKey(InsertBy(x, s, key), key, k) == (if key(x) == k then [x] else []) + WithKey(s, key, k)
  {
    if s == [] || key(x) <= key(s[0]) {
      WithKeyCons(x, s, key, k);
    } else {
      var t := InsertBy(x, s[1..], key);
      InsertWithKey(x, s[1..], key, k);
      WithKeyCons(s[0], t, key, k);
      SwapFilters(if key(s[0]) == k then [s[0]] else [], if key(x) == k then [x] else [], WithKey(s[1..], key, k));
    }
  }

  /** Two pieces of which at least one is empty can trade places in front of a common tail. */
  lemma SwapFilters<T>(a: seq<T>, b: seq<T>, c: seq<T>)
    requires a == [] || b == []
    ensures a + (b + c) == b + (a + c)
  {}

  lemma WithKeyCons<T>(h: T, t: seq<T>, key: T -> int, k: int)
    ensures WithKey([h] + t, key, k) == (if key(h) == k then [h] else []) + WithKey(t, key, k)
  {
    assert ([h] + t)[1..] == t;
  }

  /** The sort is stable: elements with equal keys keep their relative input order. */
  lemma {:induction false} SortByStable<T>(s: seq<T>, key: T -> int, k: int)
    ensures WithKey(SortBy(s, key), key, k) == WithKey(s, key, k)
  {
    if s != [] {
      SortByStable(s[1..], key, k);
      InsertWithKey(s[0], SortBy(s[1..], key), key, k);
    }
  }

  /** Two `key`-ordered permutations of each other are equal when the key tells their elements apart. */
  lemma {:induction false} OrderedByUnique<T>(x: seq<T>, y: seq<T>, key: T -> int)
    requires OrderedBy(x, key) && OrderedBy(y, key) && multiset(x) == multiset(y)
    requires forall u, v :: u in x && v in x && key(u) == key(v) ==> u == v
    ensures x == y
  {
    if x != [] {
      assert |y| == |x| by { assert |multiset(y)| == |multiset(x)|; }
      SameHead(x, y, key);
      TailsAgain(x, y, key);
      OrderedByUnique(x[1..], y[1..], key);
      assert x == [x[0]] + x[1..] && y == [y[0]] + y[1..];
    }
  }

  lemma SameHead<T>(x: seq<T>, y: seq<T>, key: T -> int)
    requires x != [] && y != []
    requires OrderedBy(x, key) && OrderedBy(y, key) && multiset(x) == multiset(y)
    requires forall u, v :: u in x && v in x && key(u) == key(v) ==> u == v
    ensures x[0] == y[0]
  {
    assert x[0] in multiset(y) && y[0] in multiset(x);
    var j :| 0 <= j < |y| && y[j] == x[0];
    var i :| 0 <= i < |x| && x[i] == y[0];
    assert key(x[0]) <= key(x[i]);
    assert key(y[0]) <= key(y[j]);
  }

  lemma TailsAgain<T>(x: seq<T>, y: seq<T>, key: T -> int)
    requires x != [] && y != [] && x[0] == y[0] && multiset(x) == multiset(y)
    requires OrderedBy(x, key) && OrderedBy(y, key)
    requires forall u, v :: u in x && v in x && key(u) == key(v) ==> u == v
    ensures OrderedBy(x[1..], key) && OrderedBy(y[1..], key)
    ensures multiset(x[1..]) == multiset(y[1..])
    ensures forall u, v :: u in x[1..] && v in x[1..] && key(u) == key(v) ==> u == v
  {
    TailMultiset(x, y);
    forall u, v | u in x[1..] && v in x[1..] && key(u) == key(v) ensures u == v {
      assert u in x && v in x;
    }
  }

  /** `_sorted_by_z(files)`: the listing sorted by `ZKey`, stably. */
  function SortedByZ(files: seq<string>): (r: seq<string>)
    ensures OrderedBy(r, ZKey)
    ensures multiset(r) == multiset(files)
  {
    SortBy(files, ZKey)
  }

  /** Files with equal keys keep their relative order from the listing. */
  lemma SortedByZStable(files: seq<string>, k: int)
    ensures WithKey(SortedByZ(files), ZKey, k) == WithKey(files, ZKey, k)
  {
    SortByStable(files, ZKey, k);
  }

  /** Files without a `_z<digits>` token sort in front of every file that has one. */
  lemma UnmatchedFirst(files: seq<string>, i: nat, j: nat)
    requires i < |SortedByZ(files)| && j < |SortedByZ(files)|
    requires NoMarker(SortedByZ(files)[i]) && !NoMarker(SortedByZ(files)[j])
    ensures i < j
  {
    var r := SortedByZ(files);
    assert ZKey(r[i]) == -1 && ZKey(r[j]) >= 0;
  }

  /** When no two files share a key, the sorted order does not depend on the order of the listing. */
  lemma ListingOrderIrrelevant(a: seq<string>, b: seq<string>)
    requires multiset(a) == multiset(b)
    requires forall u, v :: u in a && v in a && ZKey(u) == ZKey(v) ==> u == v
    ensures SortedByZ(a) == SortedByZ(b)
  {
    var x, y := SortedByZ(a), SortedByZ(b);
    forall u, v | u in x && v in x && ZKey(u) == ZKey(v) ensures u == v {
      assert u in multiset(a) && v in multiset(a);
    }
    OrderedByUnique(x, y, ZKey);
  }

  datatype StackError = EmptyInput | ShapeMismatch

  /**
   * `stack_slices(files)`: read each file (`read`) and stack the planes in list order.
   * `np.stack` refuses an empty list and planes whose shapes (`shape`) differ.
   */
  function StackSlices<P, S(==)>(files: seq<string>, read: string -> P, shape: P -> S): (r: Result<seq<P>, StackError>)
    ensures r == Err(EmptyInput) <==> |files| == 0
    ensures r.Ok? <==> |files| > 0 && forall i :: 0 <= i < |files| ==> shape(read(files[i])) == shape(read(files[0]))
    ensures r.Ok? ==> |r.value| == |files| && forall i :: 0 <= i < |files| ==> r.value[i] == read(files[i])
  {
    var planes := seq(|files|, i requires 0 <= i < |files| => read(files[i]));
    if |planes| == 0 then Err(EmptyInput)
    else if exists i | 0 <= i < |planes| :: shape(planes[i]) != shape(planes[0]) then Err(ShapeMismatch)
    else
      assert forall i :: 0 <= i < |files| ==> planes[i] == read(files[i]);
      Ok(planes)
  }

  /** The greedy digit run is the only digit run that starts at `j` and stops before a non-digit. */
  lemma DigitRunEndUnique(s: string, j: nat, e: nat)
    requires j <= e <= |s| && AllDigits(s[j..e]) && (e < |s| ==> !IsDigit(s[e]))
    ensures DigitRunEnd(s, j) == e
  {
    var e' := DigitRunEnd(s, j);
    assert forall t :: j <= t < e ==> IsDigit(s[t]) by {
      forall t | j <= t < e ensures IsDigit(s[t]) { assert s[t] == s[j..e][t - j]; }
    }
    assert forall t :: j <= t < e' ==> IsDigit(s[t]) by {
      forall t | j <= t < e' ensures IsDigit(s[t]) { assert s[t] == s[j..e'][t - j]; }
    }
  }

  /** A stem `{sid}_z{n:03d}` followed by anything but a digit has key `n`, provided `sid` holds no `_z<digit>`. */
  lemma {:induction false} ZKeyOfName(sid: string, n: nat, rest: string)
    requires NoMarker(sid)
    requires rest == [] || !IsDigit(rest[0])
    ensures ZKey(CaseName(sid, n) + rest) == n
  {
    var pad := ZeroPad(n, 3);
    var s := CaseName(sid, n) + rest;
    var m := |sid|;
    assert s == sid + "_z" + pad + rest;
    forall i | 0 <= i < m ensures !MarkerAt(s, i) {
      if i < m - 2 {
        assert !MarkerAt(sid, i);
        assert s[i] == sid[i] && s[i + 1] == sid[i + 1] && s[i + 2] == sid[i + 2];
      } else if i == m - 2 {
        assert s[i + 2] == '_';
      } else {
        assert s[i + 1] == '_';
      }
    }
    assert MarkerAt(s, m) by { assert s[m + 2] == pad[0]; }
    assert FirstMarker(s, 0) == Some(m);
    assert s[m + 2..m + 2 + |pad|] == pad;
    assert m + 2 + |pad| < |s| ==> s[m + 2 + |pad|] == rest[0];
    DigitRunEndUnique(s, m + 2, m + 2 + |pad|);
  }

  /** Every channel file `save_slice_images` writes for centre `zi` sorts under key `zi`. */
  lemma ChannelFileKey(prefix: string, zi: nat, ch: nat)
    requires NoMarker(prefix)
    ensures ZKey(ChannelFileName(prefix, zi, ch)) == zi
  {
    ZKeyOfName(prefix, zi, ChannelSuffix(ch));
  }

  /** The stems `{sid}_z001 .. {sid}_z{d:03d}` of the per-slice predictions of one stack. */
  function SliceStems(sid: string, d: nat): (r: seq<string>)
    ensures |r| == d
  {
    seq(d, i requires 0 <= i < d => CaseName(sid, i + 1))
  }

  /** The stems are in key order, and no two of them share a key. */
  lemma SliceStemsKeys(sid: string, d: nat)
    requires NoMarker(sid)
    ensures forall i :: 0 <= i < d ==> ZKey(SliceStems(sid, d)[i]) == i + 1
    ensures OrderedBy(SliceStems(sid, d), ZKey)
    ensures forall u, v :: u in SliceStems(sid, d) && v in SliceStems(sid, d) && ZKey(u) == ZKey(v) ==> u == v
  {
    var names := SliceStems(sid, d);
    forall i | 0 <= i < d ensures ZKey(names[i]) == i + 1 {
      ZKeyOfName(sid, i + 1, []);
      assert CaseName(sid, i + 1) + [] == CaseName(sid, i + 1);
    }
    forall u, v | u in names && v in names && ZKey(u) == ZKey(v) ensures u == v {
      var a :| 0 <= a < |names| && names[a] == u;
      var b :| 0 <= b < |names| && names[b] == v;
    }
  }

  lemma StackSliceStems<P, S>(sid: string, volume: seq<P>, read: string -> P, shape: P -> S)
    requires |volume| > 0
    requires forall i :: 0 <= i < |volume| ==> read(CaseName(sid, i + 1)) == volume[i]
    requires forall i :: 0 <= i < |volume| ==> shape(volume[i]) == shape(volume[0])
    ensures StackSlices(SliceStems(sid, |volume|), read, shape) == Ok(volume)
  {
    var names := SliceStems(sid, |volume|);
    var r := StackSlices(names, read, shape);
    assert forall i :: 0 <= i < |names| ==> read(names[i]) == volume[i];
    assert forall i :: 0 <= i < |names| ==> shape(read(names[i])) == shape(read(names[0]));
    assert r.value == volume;
  }

  /**
   * Round trip: writing the planes of a volume as `{sid}_z001 .. {sid}_z{D:03d}` and
   * reconstructing from a listing of those files in any order gives the volume back.
   */
  lemma {:induction false} ReconstructRoundTrip<P, S>(sid: string, volume: seq<P>, listing: seq<string>, read: string -> P, shape: P -> S)
    requires NoMarker(sid) && |volume| > 0
    requires multiset(listing) == multiset(SliceStems(sid, |volume|))
    requires forall i :: 0 <= i < |volume| ==> read(CaseName(sid, i + 1)) == volume[i]
    requires forall i :: 0 <= i < |volume| ==> shape(volume[i]) == shape(volume[0])
    ensures StackSlices(SortedByZ(listing), read, shape) == Ok(volume)
  {
    var names := SliceStems(sid, |volume|);
    SliceStemsKeys(sid, |volume|);
    OrderedByUnique(names, SortedByZ(listing), ZKey);
    StackSliceStems(sid, volume, read, shape);
  }
}
