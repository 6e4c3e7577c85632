/**
  Encoding a classification target into dense class indices
  (python/interpret-core/interpret/utils/_measure_interactions.py, lines 163-171).

  Without a catalog the classes are what `np.unique(y, return_inverse=True)` gives: the
  distinct labels in increasing order, and per sample the index of its label. With a
  catalog (the `classes_` of a fitted classifier) every label is looked up in
  `dict(zip(classes, count()))`, in which a label listed twice keeps its last index, and
  an unlisted label raises a KeyError.
 */
module TargetEncoding {
  import opened Wrappers

  /** Labels are modelled as integers, ordered as `np.unique` orders them. */
  type Label = int

  predicate StrictlyIncreasing(s: seq<Label>) {
    forall a, b :: 0 <= a < b < |s| ==> s[a] < s[b]
  }

  /** Every index of `indices` points into `classes` at the label of the same sample:
      decoding the indices gives back `y`. */
  predicate DecodesTo(classes: seq<Label>, indices: seq<nat>, y: seq<Label>) {
    && |indices| == |y|
    && forall k :: 0 <= k < |y| ==> indices[k] < |classes| && classes[indices[k]] == y[k]
  }

  function InsertSorted(s: seq<Label>, x: Label): (r: seq<Label>)
    requires StrictlyIncreasing(s)
    ensures StrictlyIncreasing(r)
    ensures forall v :: v in r <==> v in s || v == x
  {
    if s == [] then [x]
    else if x < s[0] then [x] + s
    else if x == s[0] then s
    else
      var rest := InsertSorted(s[1..], x);
      assert forall v :: v in rest ==> s[0] < v;
      var r := [s[0]] + rest;
      assert StrictlyIncreasing(r) by {
        forall a, b | 0 <= a < b < |r| ensures r[a] < r[b] {
          assert r[b] == rest[b - 1] && rest[b - 1] in rest;
          if 0 < a {
            assert r[a] == rest[a - 1];
          }
        }
      }
      r
  }

  /** The classes `np.unique` returns: the distinct labels of `y`, increasing. */
  function UniqueSorted(y: seq<Label>): (c: seq<Label>)
    ensures StrictlyIncreasing(c)
    ensures forall v :: v in c <==> v in y
  {
    if y == [] then []
    else
      var c := InsertSorted(UniqueSorted(y[..|y| - 1]), y[|y| - 1]);
      assert forall v :: v in y <==> v in y[..|y| - 1] || v == y[|y| - 1] by {
        assert y == y[..|y| - 1] + [y[|y| - 1]];
      }
      c
  }

  /** The position of `v` in `c` (the first one). */
  function IndexOf(c: seq<Label>, v: Label): (k: nat)
    requires v in c
    ensures k < |c| && c[k] == v
    ensures forall j :: 0 <= j < k ==> c[j] != v
  {
    if c[0] == v then 0 else 1 + IndexOf(c[1..], v)
  }

  /** `np.unique(y, return_inverse=True)`: `(classes, indices)`. */
  function EncodeSorted(y: seq<Label>): (r: (seq<Label>, seq<nat>))
    ensures StrictlyIncreasing(r.0)
    ensures forall v :: v in r.0 <==> v in y
    ensures DecodesTo(r.0, r.1, y)
  {
    var classes := UniqueSorted(y);
    (classes, seq(|y|, k requires 0 <= k < |y| => IndexOf(classes, y[k])))
  }

  /** `dict(zip(classes, count()))`: each listed label maps to the index of its last
      occurrence in `classes`. */
  function InvertClasses(classes: seq<Label>): (m: map<Label, nat>)
    ensures forall v :: v in m <==> v in classes
    ensures forall v :: v in m ==> m[v] < |classes| && classes[m[v]] == v
    ensures forall v, j :: v in m && m[v] < j < |classes| ==> classes[j] != v
  {
    if classes == [] then map[]
    else
      var last := |classes| - 1;
      var m := InvertClasses(classes[..last])[classes[last] := last];
      assert forall v :: v in classes <==> v in classes[..last] || v == classes[last] by {
        assert classes == classes[..last] + [classes[last]];
      }
      m
  }

  /** `[index[el] for el in y]`: the first label of `y` missing from `index` is the error. */
  function LookUpAll(index: map<Label, nat>, y: seq<Label>): (r: Result<seq<nat>, Label>)
    ensures r.Success? <==> forall k :: 0 <= k < |y| ==> y[k] in index
    ensures r.Success? ==> |r.value| == |y| && forall k :: 0 <= k < |y| ==> r.value[k] == index[y[k]]
    ensures r.Failure? ==> r.error in y && r.error !in index
    ensures r.Failure? ==> exists k :: 0 <= k < |y| && y[k] == r.error && forall j :: 0 <= j < k ==> y[j] in index
  {
    if y == [] then Success([])
    else if y[0] !in index then Failure(y[0])
    else
      var rest := LookUpAll(index, y[1..]);
      assert forall k :: 1 <= k < |y| ==> y[k] == y[1..][k - 1];
      if rest.Failure? then
        assert exists k :: 0 <= k < |y| && y[k] == rest.error && forall j :: 0 <= j < k ==> y[j] in index by {
          var k :| 0 <= k < |y[1..]| && y[1..][k] == rest.error && forall j :: 0 <= j < k ==> y[1..][j] in index;
          assert y[k + 1] == rest.error;
          assert forall j :: 0 <= j < k + 1 ==> y[j] in index by {
            forall j | 0 <= j < k + 1 ensures y[j] in index {
              if 0 < j {
                assert y[j] == y[1..][j - 1];
              }
            }
          }
        }
        Failure(rest.error)
      else Success([index[y[0]]] + rest.value)
  }

  /** Encoding against a fixed catalog: it succeeds exactly when every label of `y` is
      listed, and then decoding gives back `y` and each sample gets the last position of its
      label; otherwise the error is the first unlisted label of `y`. */
  function EncodeWithCatalog(classes: seq<Label>, y: seq<Label>): (r: Result<seq<nat>, Label>)
    ensures r.Success? <==> forall k :: 0 <= k < |y| ==> y[k] in classes
    ensures r.Success? ==> DecodesTo(classes, r.value, y)
    ensures r.Success? ==> forall k, j :: 0 <= k < |y| && r.value[k] < j < |classes| ==> classes[j] != y[k]
    ensures r.Failure? ==> r.error in y && r.error !in classes
    ensures r.Failure? ==> exists k :: 0 <= k < |y| && y[k] == r.error && forall j :: 0 <= j < k ==> y[j] in classes
  {
    LookUpAll(InvertClasses(classes), y)
  }
}
