/** Values and helpers shared by every module: an Option for the source's
    nullable references, Unity's Mathf.Clamp and Mathf.Clamp01 on reals, a
    three-component vector, and List<T>.RemoveAll on sequences. */
module Common {

  datatype Option<+T> = None | Some(value: T)

  /** Unity's Vector3, as exact reals. */
  datatype Vec3 = Vec3(x: real, y: real, z: real)

  function Add(a: Vec3, b: Vec3): Vec3 {
    Vec3(a.x + b.x, a.y + b.y, a.z + b.z)
  }

  /** Mathf.Clamp(value, min, max): the lower bound is tested first, so when
      min > max a value below min yields min and any other value yields max. */
  function Clamp(value: real, lo: real, hi: real): (r: real)
    ensures lo <= hi ==> lo <= r <= hi
    ensures lo <= value <= hi ==> r == value
    ensures value < lo ==> r == lo
    ensures lo <= value && hi < value ==> r == hi
  {
    if value < lo then lo else if value > hi then hi else value
  }

  /** Mathf.Clamp01(value). */
  function Clamp01(value: real): (r: real)
    ensures 0.0 <= r <= 1.0
    ensures 0.0 <= value <= 1.0 ==> r == value
    ensures value < 0.0 ==> r == 0.0
    ensures value > 1.0 ==> r == 1.0
  {
    Clamp(value, 0.0, 1.0)
  }

  /** List<T>.RemoveAll(pred): the kept elements in their order. */
  function Keep<T>(s: seq<T>, drop: T -> bool): (r: seq<T>)
    ensures |r| <= |s|
    ensures forall x :: x in r ==> x in s && !drop(x)
    ensures forall x :: x in s && !drop(x) ==> x in r
  {
    if s == [] then [] else (if drop(s[0]) then [] else [s[0]]) + Keep(s[1..], drop)
  }

  /** The count List<T>.RemoveAll(pred) returns. */
  function Dropped<T>(s: seq<T>, drop: T -> bool): (n: nat)
    ensures n <= |s|
    ensures n == |s| - |Keep(s, drop)|
    ensures n == 0 <==> forall i :: 0 <= i < |s| ==> !drop(s[i])
  {
    if s == [] then 0 else (if drop(s[0]) then 1 else 0) + Dropped(s[1..], drop)
  }

  /** Writing the pairs of ws into m from left to right (last write wins). */
  function Overwrite<K, V>(m: map<K, V>, ws: seq<(K, V)>): (r: map<K, V>)
    ensures forall k :: k in m ==> k in r
    ensures forall i :: 0 <= i < |ws| ==> ws[i].0 in r
    ensures forall k :: k in r ==> k in m || exists i :: 0 <= i < |ws| && ws[i].0 == k
    decreases |ws|
  {
    if ws == [] then m
    else
      var r := Overwrite(m[ws[0].0 := ws[0].1], ws[1..]);
      assert forall i :: 1 <= i < |ws| ==> ws[i].0 == ws[1..][i - 1].0;
      r
  }

  /** The net effect of ws as one map: later pairs win. */
  function Writes<K, V>(ws: seq<(K, V)>): map<K, V>
    decreases |ws|
  {
    if ws == [] then map[] else map[ws[0].0 := ws[0].1] + Writes(ws[1..])
  }

  lemma {:induction false} OverwriteIsUnion<K, V>(m: map<K, V>, ws: seq<(K, V)>)
    ensures Overwrite(m, ws) == m + Writes(ws)
    decreases |ws|
  {
    if ws != [] {
      var k, v := ws[0].0, ws[0].1;
      OverwriteIsUnion(m[k := v], ws[1..]);
      assert m[k := v] + Writes(ws[1..]) == m + (map[k := v] + Writes(ws[1..]));
    }
  }

  /** Writing the same pairs twice leaves what writing them once leaves. */
  lemma OverwriteIdempotent<K, V>(m: map<K, V>, ws: seq<(K, V)>)
    ensures Overwrite(Overwrite(m, ws), ws) == Overwrite(m, ws)
  {
    OverwriteIsUnion(m, ws);
    OverwriteIsUnion(Overwrite(m, ws), ws);
    assert (m + Writes(ws)) + Writes(ws) == m + Writes(ws);
  }

  lemma {:induction false} OverwriteSnoc<K, V>(m: map<K, V>, ws: seq<(K, V)>, w: (K, V))
    ensures Overwrite(m, ws + [w]) == Overwrite(m, ws)[w.0 := w.1]
    decreases |ws|
  {
    if ws == [] {
      assert ws + [w] == [w];
    } else {
      assert (ws + [w])[1..] == ws[1..] + [w];
      OverwriteSnoc(m[ws[0].0 := ws[0].1], ws[1..], w);
    }
  }

  /** A key that no pair of ws writes keeps its value. */
  lemma {:induction false} OverwriteUntouched<K, V>(m: map<K, V>, ws: seq<(K, V)>, k: K)
    requires k in m
    requires forall i :: 0 <= i < |ws| ==> ws[i].0 != k
    ensures Overwrite(m, ws)[k] == m[k]
    decreases |ws|
  {
    if ws != [] {
      assert forall i :: 1 <= i < |ws| ==> ws[1..][i - 1] == ws[i];
      OverwriteUntouched(m[ws[0].0 := ws[0].1], ws[1..], k);
    }
  }

  /** A key ends up with the value of the last pair that writes it. */
  lemma {:induction false} OverwriteLast<K, V>(m: map<K, V>, ws: seq<(K, V)>, i: nat)
    requires i < |ws|
    requires forall j :: i < j < |ws| ==> ws[j].0 != ws[i].0
    ensures Overwrite(m, ws)[ws[i].0] == ws[i].1
    decreases |ws|
  {
    assert forall j :: 1 <= j < |ws| ==> ws[1..][j - 1] == ws[j];
    if i == 0 {
      OverwriteUntouched(m[ws[0].0 := ws[0].1], ws[1..], ws[0].0);
    } else {
      OverwriteLast(m[ws[0].0 := ws[0].1], ws[1..], i - 1);
    }
  }

  /** n zeros: the delta list of a freshly initialised DNA channel. */
  function Zeros(n: nat): (r: seq<real>)
    ensures |r| == n && forall i :: 0 <= i < n ==> r[i] == 0.0
  {
    if n == 0 then [] else Zeros(n - 1) + [0.0]
  }

  /** Some key of a non-empty set: the next key a foreach over a
      dictionary visits, in an order the model leaves open. */
  method PickKey<T>(keys: set<T>) returns (k: T)
    requires keys != {}
    ensures k in keys
  {
    k :| k in keys;
  }
}
