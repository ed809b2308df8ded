/** `andes.utils.func.list_flatten` on a list of lists: one level of
    concatenation, keeping the order of the lists and of their elements. */
module ListFlatten {

  function Flatten<T>(xss: seq<seq<T>>): seq<T>
  {
    if xss == [] then [] else xss[0] + Flatten(xss[1..])
  }

  /** Sum of the lengths of the inner lists. */
  function TotalLength<T>(xss: seq<seq<T>>): nat
  {
    if xss == [] then 0 else |xss[0]| + TotalLength(xss[1..])
  }

  /** The position of element `k` of list `i` in the flattened list. */
  function Offset<T>(xss: seq<seq<T>>, i: nat): nat
    requires i <= |xss|
  {
    TotalLength(xss[..i])
  }

  lemma {:induction false} FlattenLength<T>(xss: seq<seq<T>>)
    ensures |Flatten(xss)| == TotalLength(xss)
  {
    if xss != [] {
      FlattenLength(xss[1..]);
    }
  }

  lemma {:induction false} FlattenAppend<T>(xss: seq<seq<T>>, yss: seq<seq<T>>)
    ensures Flatten(xss + yss) == Flatten(xss) + Flatten(yss)
    ensures TotalLength(xss + yss) == TotalLength(xss) + TotalLength(yss)
  {
    if xss == [] {
      assert xss + yss == yss;
    } else {
      assert (xss + yss)[1..] == xss[1..] + yss;
      FlattenAppend(xss[1..], yss);
    }
  }

  /** Element `k` of inner list `i` sits at `Offset(xss, i) + k` of the
      flattened list, so the concatenation loses and reorders nothing. */
  lemma FlattenAt<T>(xss: seq<seq<T>>, i: nat, k: nat)
    requires i < |xss| && k < |xss[i]|
    ensures Offset(xss, i) + k < |Flatten(xss)|
    ensures Flatten(xss)[Offset(xss, i) + k] == xss[i][k]
  {
    assert xss == xss[..i] + ([xss[i]] + xss[i + 1..]);
    FlattenAppend(xss[..i], [xss[i]] + xss[i + 1..]);
    assert ([xss[i]] + xss[i + 1..])[1..] == xss[i + 1..];
    FlattenLength(xss[..i]);
  }

  /** Every element of the flattened list comes from some inner list. */
  lemma {:induction false} FlattenFrom<T>(xss: seq<seq<T>>, j: nat)
    requires j < |Flatten(xss)|
    ensures exists i, k :: 0 <= i < |xss| && 0 <= k < |xss[i]| && xss[i][k] == Flatten(xss)[j]
  {
    if j < |xss[0]| {
      assert xss[0][j] == Flatten(xss)[j];
    } else {
      FlattenFrom(xss[1..], j - |xss[0]|);
      var i, k :| 0 <= i < |xss[1..]| && 0 <= k < |xss[1..][i]| && xss[1..][i][k] == Flatten(xss[1..])[j - |xss[0]|];
      assert xss[i + 1][k] == Flatten(xss)[j];
    }
  }
}
